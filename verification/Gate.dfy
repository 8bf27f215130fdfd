/**
 The distribution half of the release gate (tools/compliance_gate.py): the component lock,
 the CycloneDX and SPDX lists and the image manifest. Each validator appends to a list of
 errors; parsed documents and file facts are inputs.

 `raised` says that the Python code would have raised on a malformed document.
 */
module Gate {
  import opened Common
  import opened Json

  const PENDING: seq<string> := ["", "TBD", "UNSET", "UNKNOWN", "LATEST", "MAIN-LATEST"]

  const LOCK_FIELDS: seq<string> := [
    "name", "kind", "repository", "revision", "artifact", "digest", "license_spdx",
    "license_text_sha256", "license_path", "owner", "distribution_mode", "source_obligation"]

  const FORBIDDEN_LICENSE_MARKERS: seq<string> := [
    "NOASSERTION", "NONE", "UNKNOWN", "TBD", "LICENSEREF-GENERIC-OPENSOURCE",
    "LICENSEREF-UNKNOWN", "LICENSEREF-UNSPECIFIED"]

  const IMAGE_KIND := Str("oci-image")

  predicate Unresolved(t: Texts, license: Json) {
    t.upper(t.strip(if Truthy(license) then Text(license) else "")) in FORBIDDEN_LICENSE_MARKERS
  }

  predicate StartsWith(s: string, prefix: string) {
    |prefix| <= |s| && s[..|prefix|] == prefix
  }

  // ------------------------------------------------------------------- lock

  function Decimal(n: nat): string {
    if n < 10 then [('0' as int + n) as char] else Decimal(n / 10) + [('0' as int + n % 10) as char]
  }

  function LockName(t: Texts, item: Fields, index: nat): string {
    t.strip(Text(Get(item, "name", Str("components[" + Decimal(index) + "]"))))
  }

  predicate Pinned(t: Texts, item: Fields, field: string) {
    t.upper(t.strip(GetText(item, field))) !in PENDING
  }

  predicate AllPinned(t: Texts, item: Fields, n: nat)
    requires n <= |LOCK_FIELDS|
  {
    forall i :: 0 <= i < n ==> Pinned(t, item, LOCK_FIELDS[i])
  }

  ghost predicate LockItemOk(t: Texts, item: Json, index: nat) {
    item.Obj? && var o := item.fields;
    && AllPinned(t, o, |LOCK_FIELDS|)
    && (GetText(o, "digest") != "" ==> IsDigest(GetText(o, "digest")))
    && LicenseDigestOk(t, o)
    && !Unresolved(t, Get(o, "license_spdx", Null))
    && PublicationOk(t, o, LockName(t, o, index))
    && !t.latest(o) && !Mentions(t, item)
  }

  predicate LicenseDigestOk(t: Texts, o: Fields) {
    var text := GetText(o, "license_text_sha256");
    text != "" && t.upper(text) !in PENDING ==> IsHex64(text)
  }

  predicate PublicationOk(t: Texts, o: Fields, name: string) {
    Get(o, "kind", Null) == IMAGE_KIND && StartsWith(t.fold(name), "atlantis-") ==> t.published(GetText(o, "repository"))
  }

  function LockKey(t: Texts, item: Json, index: nat): string
  {
    if item.Obj? then t.fold(LockName(t, item.fields, index)) else ""
  }

  ghost predicate LockPartOk(t: Texts, items: seq<Json>, n: nat)
    requires n <= |items|
  {
    && (forall i :: 0 <= i < n ==> LockItemOk(t, items[i], i))
    && (forall i, j :: 0 <= i < j < n && items[i].Obj? && items[j].Obj? ==> LockKey(t, items[i], i) != LockKey(t, items[j], j))
  }

  ghost predicate LockOk(t: Texts, lock: Fields) {
    && Get(lock, "release_status", Null) == Str("approved")
    && Get(lock, "components", Null).Arr?
    && Components(lock) != []
    && LockPartOk(t, Components(lock), |Components(lock)|)
  }

  /** What `for item in lock.get("components", [])` visits. */
  function Components(lock: Fields): seq<Json> {
    match Elements(Get(lock, "components", Arr([], "[]")))
    case Some(items) => items
    case None => []
  }

  /** `if bad: errors.append(message)`. */
  function Report(errors: seq<string>, bad: bool, message: string): (r: seq<string>)
    ensures errors <= r && (|r| == |errors| <==> !bad)
  {
    if bad then errors + [message] else errors
  }

  method MentionsWord(t: Texts, j: Json) returns (yes: bool)
    ensures yes == Mentions(t, j)
    decreases j
  {
    match j {
      case Str(chars) => yes := t.n8n(chars);
      case Arr(items, _) =>
        yes := false;
        for i := 0 to |items|
          invariant yes == exists k :: 0 <= k < i && Mentions(t, items[k])
        {
          var here := MentionsWord(t, items[i]);
          yes := yes || here;
        }
      case Obj(fields, _) =>
        yes := false;
        var keys := fields.Keys;
        while keys != {}
          invariant keys <= fields.Keys
          invariant yes == exists k :: k in fields && k !in keys && (t.n8n(k) || Mentions(t, fields[k]))
          decreases |keys|
        {
          var k :| k in keys;
          var here := MentionsWord(t, fields[k]);
          yes := yes || t.n8n(k) || here;
          keys := keys - {k};
        }
      case _ => yes := false;
    }
  }

  method CheckPinned(t: Texts, o: Fields, name: string, before: seq<string>) returns (errors: seq<string>)
    ensures before <= errors && (|errors| == |before| <==> AllPinned(t, o, |LOCK_FIELDS|))
  {
    errors := before;
    for i := 0 to |LOCK_FIELDS|
      invariant before <= errors && (|errors| == |before| <==> AllPinned(t, o, i))
    {
      errors := Report(errors, !Pinned(t, o, LOCK_FIELDS[i]), "Unpinned component: " + name + "." + LOCK_FIELDS[i]);
    }
  }

  method CheckLockItem(t: Texts, item: Json, index: nat, before: seq<string>) returns (errors: seq<string>)
    requires item.Obj?
    ensures before <= errors && (|errors| == |before| <==> LockItemOk(t, item, index))
  {
    var o, name := item.fields, LockName(t, item.fields, index);
    errors := CheckPinned(t, o, name, before);
    var digest := GetText(o, "digest");
    errors := Report(errors, digest != "" && !IsDigest(digest), "Invalid component digest: " + name);
    errors := Report(errors, !LicenseDigestOk(t, o), "Invalid license digest: " + name);
    errors := Report(errors, Unresolved(t, Get(o, "license_spdx", Null)), "Unresolved component license: " + name);
    errors := Report(errors, !PublicationOk(t, o, name), "Atlantis OCI image is not pinned to a published registry manifest: " + name);
    errors := Report(errors, t.latest(o), "Mutable component reference: " + name);
    var forbidden := MentionsWord(t, item);
    errors := Report(errors, forbidden, "Forbidden component in lock: " + name);
  }

  method ValidateLock(t: Texts, document: Option<Fields>, before: seq<string>) returns (errors: seq<string>)
    ensures before <= errors
    ensures |errors| == |before| <==> document.Some? && LockOk(t, document.value)
  {
    if document.None? {
      return before + ["Invalid component lock"];
    }
    var lock := document.value;
    errors := Report(before, Get(lock, "release_status", Null) != Str("approved"),
                     "Invalid component lock: release_status must be approved");
    if !Get(lock, "components", Null).Arr? || Components(lock) == [] {
      return errors + ["Invalid component lock: components must be a non-empty array"];
    }
    errors := ValidateComponents(t, Components(lock), errors);
  }

  predicate SeenBefore(t: Texts, items: seq<Json>, n: nat, key: string)
    requires n <= |items|
  {
    exists k :: 0 <= k < n && items[k].Obj? && LockKey(t, items[k], k) == key
  }

  lemma {:induction false} LockPartGrows(t: Texts, items: seq<Json>, n: nat)
    requires n < |items|
    ensures LockPartOk(t, items, n + 1) <==>
      LockPartOk(t, items, n) && LockItemOk(t, items[n], n) && !SeenBefore(t, items, n, LockKey(t, items[n], n))
  {
  }

  method ValidateComponents(t: Texts, items: seq<Json>, before: seq<string>) returns (errors: seq<string>)
    ensures before <= errors && (|errors| == |before| <==> LockPartOk(t, items, |items|))
  {
    errors := before;
    var seen := {};
    for i := 0 to |items|
      invariant before <= errors && (|errors| == |before| <==> LockPartOk(t, items, i))
      invariant forall key :: key in seen <==> SeenBefore(t, items, i, key)
    {
      if !items[i].Obj? {
        errors := errors + ["Invalid component lock: components[" + Decimal(i) + "] must be an object"];
      } else {
        LockPartGrows(t, items, i);
        var key := LockKey(t, items[i], i);
        errors := Report(errors, key in seen, "Duplicate component in lock: " + LockName(t, items[i].fields, i));
        seen := seen + {key};
        errors := CheckLockItem(t, items[i], i, errors);
      }
    }
  }

  // ------------------------------------------------- entries of a document

  /** The objects among the items: what a comprehension guarded by `isinstance(item, dict)` keeps. */
  function Objects(items: seq<Json>): seq<Fields> {
    if items == [] then []
    else Objects(items[..|items| - 1]) + if items[|items| - 1].Obj? then [items[|items| - 1].fields] else []
  }

  predicate AllObjects(items: seq<Json>) {
    forall i :: 0 <= i < |items| ==> items[i].Obj?
  }

  lemma {:induction false} ObjectsOfAll(items: seq<Json>)
    requires AllObjects(items)
    ensures |Objects(items)| == |items|
    ensures forall i :: 0 <= i < |items| ==> Objects(items)[i] == items[i].fields
    decreases |items|
  {
    if items != [] {
      ObjectsOfAll(items[..|items| - 1]);
    }
  }

  /** Of a mixed list, all objects are kept and nothing else. */
  lemma {:induction false} ObjectsAre(items: seq<Json>, o: Fields)
    ensures o in Objects(items) <==> exists i :: 0 <= i < |items| && items[i].Obj? && items[i].fields == o
    ensures |Objects(items)| <= |items|
    decreases |items|
  {
    if items != [] {
      var rest, last := items[..|items| - 1], items[|items| - 1];
      ObjectsAre(rest, o);
      assert forall i :: 0 <= i < |rest| ==> rest[i] == items[i];
      assert items[|items| - 1] == last;
    }
  }

  function NameKey(t: Texts, o: Fields): string {
    t.fold(GetText(o, "name"))
  }

  /** The dictionary from case-folded name to entry; a later entry replaces an earlier one. */
  function ByName(t: Texts, es: seq<Fields>): map<string, Fields> {
    if es == [] then map[]
    else ByName(t, es[..|es| - 1])[NameKey(t, es[|es| - 1]) := es[|es| - 1]]
  }

  /** No non-empty name occurs twice. */
  predicate UniqueNames(t: Texts, es: seq<Fields>) {
    forall i, j :: 0 <= i < j < |es| && NameKey(t, es[i]) == NameKey(t, es[j]) ==> NameKey(t, es[i]) == ""
  }

  lemma {:induction false} ByNameHolds(t: Texts, es: seq<Fields>, key: string)
    ensures key in ByName(t, es) <==> exists i :: 0 <= i < |es| && NameKey(t, es[i]) == key
    ensures key in ByName(t, es) ==> exists i :: 0 <= i < |es| && NameKey(t, es[i]) == key && es[i] == ByName(t, es)[key]
    decreases |es|
  {
    if es != [] {
      var before, last := es[..|es| - 1], es[|es| - 1];
      ByNameHolds(t, before, key);
      assert forall i :: 0 <= i < |before| ==> before[i] == es[i];
      assert es[|es| - 1] == last;
    }
  }

  method CollectObjects(items: seq<Json>) returns (es: seq<Fields>)
    ensures es == Objects(items)
  {
    es := [];
    for i := 0 to |items|
      invariant es == Objects(items[..i])
    {
      assert items[..i + 1][..i] == items[..i];
      if items[i].Obj? {
        es := es + [items[i].fields];
      }
    }
    assert items[..|items|] == items;
  }

  method IndexByName(t: Texts, es: seq<Fields>) returns (m: map<string, Fields>)
    ensures m == ByName(t, es)
  {
    m := map[];
    for i := 0 to |es|
      invariant m == ByName(t, es[..i])
    {
      assert es[..i + 1][..i] == es[..i];
      m := m[NameKey(t, es[i]) := es[i]];
    }
    assert es[..|es|] == es;
  }

  /** No text occurs twice, apart from the ignored ones. */
  predicate UniqueTexts(texts: seq<string>, ignored: set<string>) {
    forall i, j :: 0 <= i < j < |texts| && texts[i] == texts[j] ==> texts[i] in ignored
  }

  lemma {:induction false} UniqueGrows(texts: seq<string>, ignored: set<string>, n: nat)
    requires n < |texts|
    ensures UniqueTexts(texts[..n + 1], ignored) <==>
      UniqueTexts(texts[..n], ignored) && (texts[n] in ignored || texts[n] !in texts[..n])
  {
    var shorter, longer := texts[..n], texts[..n + 1];
    assert forall i :: 0 <= i < n ==> shorter[i] == texts[i] == longer[i];
    assert longer[n] == texts[n];
  }

  /** One error for each text that occurs more than once and is not ignored. */
  method ReportRepeated(texts: seq<string>, ignored: set<string>, message: string, before: seq<string>) returns (errors: seq<string>)
    ensures before <= errors && (|errors| == |before| <==> UniqueTexts(texts, ignored))
  {
    errors := before;
    var reported := {};
    for i := 0 to |texts|
      invariant before <= errors
      invariant forall key :: key in reported ==> |errors| > |before|
      invariant |errors| == |before| <==> UniqueTexts(texts[..i], ignored)
    {
      UniqueGrows(texts, ignored, i);
      if texts[i] in texts[..i] && texts[i] !in ignored && texts[i] !in reported {
        errors, reported := errors + [message + texts[i]], reported + {texts[i]};
      }
    }
    assert texts[..|texts|] == texts;
  }

  method ReportDuplicates(t: Texts, es: seq<Fields>, message: string, before: seq<string>) returns (errors: seq<string>)
    ensures before <= errors && (|errors| == |before| <==> UniqueNames(t, es))
  {
    var keys := seq(|es|, i requires 0 <= i < |es| => NameKey(t, es[i]));
    errors := ReportRepeated(keys, {""}, message, before);
    assert forall i, j :: 0 <= i < j < |es| && NameKey(t, es[i]) == NameKey(t, es[j]) ==> keys[i] == keys[j];
  }

  // ------------------------------------------------------ the two name lists

  datatype Format = CycloneDx | Spdx

  function Items(j: Json): seq<Json> {
    if j.Arr? then j.items else []
  }

  function Hashes(t: Texts, format: Format, e: Fields): set<string> {
    match format
    case CycloneDx =>
      set x | x in Items(Get(e, "hashes", Null)) && x.Obj? && t.upper(GetText(x.fields, "alg")) in ["SHA-256", "SHA_256"]
        :: GetText(x.fields, "content")
    case Spdx =>
      set x | x in Items(Get(e, "checksums", Null)) && x.Obj? && Get(x.fields, "algorithm", Null) == Str("SHA256")
        :: GetText(x.fields, "checksumValue")
  }

  /** The license expressions and identifiers an entry of the CycloneDX list declares. */
  function Declared(choices: seq<Json>): set<string> {
    if choices == [] then {}
    else
      Declared(choices[..|choices| - 1]) +
      var last := choices[|choices| - 1];
      if !last.Obj? then {}
      else
        var license := Get(last.fields, "license", Null);
        (if Truthy(Get(last.fields, "expression", Null)) then {GetText(last.fields, "expression")} else {}) +
        (if license.Obj? && Truthy(Get(license.fields, "id", Null)) then {GetText(license.fields, "id")} else {})
  }

  /** The list's entry states the lock component's revision, digest and license. */
  predicate Agrees(t: Texts, format: Format, c: Fields, e: Fields) {
    RevisionAgrees(format, c, e) && DigestAgrees(t, format, c, e) && LicenseAgrees(format, c, e)
  }

  predicate RevisionAgrees(format: Format, c: Fields, e: Fields) {
    GetText(e, if format.CycloneDx? then "version" else "versionInfo") == GetText(c, "revision")
  }

  predicate DigestAgrees(t: Texts, format: Format, c: Fields, e: Fields) {
    WithoutPrefix(GetText(c, "digest")) in Hashes(t, format, e)
  }

  predicate LicenseAgrees(format: Format, c: Fields, e: Fields) {
    match format
    case CycloneDx => GetText(c, "license_spdx") in Declared(Items(Get(e, "licenses", Null)))
    case Spdx => Get(e, "licenseDeclared", Null) == Get(c, "license_spdx", Null)
  }

  predicate Matched(t: Texts, format: Format, c: Fields, es: seq<Fields>) {
    NameKey(t, c) in ByName(t, es) && Agrees(t, format, c, ByName(t, es)[NameKey(t, c)])
  }

  /** The entry is unnamed, or a lock component has its name. */
  predicate Locked(t: Texts, cs: seq<Fields>, e: Fields) {
    GetText(e, "name") == "" || exists i :: 0 <= i < |cs| && NameKey(t, cs[i]) == NameKey(t, e)
  }

  predicate AllMatched(t: Texts, format: Format, items: seq<Json>, n: nat, es: seq<Fields>)
    requires n <= |items|
  {
    forall i :: 0 <= i < n ==> items[i].Obj? && Matched(t, format, items[i].fields, es)
  }

  predicate Matches(t: Texts, format: Format, items: seq<Json>, es: seq<Fields>) {
    && AllMatched(t, format, items, |items|, es)
    && (forall j :: 0 <= j < |es| ==> Locked(t, Objects(items), es[j]))
  }

  method DeclaredLicenses(choices: seq<Json>) returns (declared: set<string>)
    ensures declared == Declared(choices)
  {
    declared := {};
    for i := 0 to |choices|
      invariant declared == Declared(choices[..i])
    {
      assert choices[..i + 1][..i] == choices[..i];
      if choices[i].Obj? {
        var choice := choices[i].fields;
        if Truthy(Get(choice, "expression", Null)) {
          declared := declared + {GetText(choice, "expression")};
        }
        var license := Get(choice, "license", Null);
        if license.Obj? && Truthy(Get(license.fields, "id", Null)) {
          declared := declared + {GetText(license.fields, "id")};
        }
      }
    }
    assert choices[..|choices|] == choices;
  }

  method CompareEntry(t: Texts, format: Format, c: Fields, e: Fields, before: seq<string>) returns (errors: seq<string>)
    ensures before <= errors && (|errors| == |before| <==> Agrees(t, format, c, e))
  {
    var name := GetText(c, "name");
    errors := Report(before, !RevisionAgrees(format, c, e), "Revision mismatch: " + name);
    errors := Report(errors, !DigestAgrees(t, format, c, e), "Digest mismatch: " + name);
    if format.CycloneDx? {
      var declared := DeclaredLicenses(Items(Get(e, "licenses", Null)));
      errors := Report(errors, GetText(c, "license_spdx") !in declared, "License mismatch: " + name);
    } else {
      errors := Report(errors, Get(e, "licenseDeclared", Null) != Get(c, "license_spdx", Null), "License mismatch: " + name);
    }
  }

  /** An unnamed lock component without an unnamed entry is a KeyError for CycloneDX. */
  method CompareOne(t: Texts, format: Format, c: Fields, es: seq<Fields>, byName: map<string, Fields>, before: seq<string>)
    returns (errors: seq<string>, raised: bool)
    requires byName == ByName(t, es)
    ensures before <= errors && (!raised && |errors| == |before| <==> Matched(t, format, c, es))
  {
    errors, raised := before, false;
    if NameKey(t, c) in byName {
      errors := CompareEntry(t, format, c, byName[NameKey(t, c)], errors);
    } else if format.CycloneDx? && GetText(c, "name") == "" {
      raised := true;
    } else {
      errors := errors + ["Component missing: " + GetText(c, "name")];
    }
  }

  lemma {:induction false} AllMatchedGrows(t: Texts, format: Format, items: seq<Json>, n: nat, es: seq<Fields>)
    requires n < |items|
    ensures AllMatched(t, format, items, n + 1, es) <==>
      AllMatched(t, format, items, n, es) && items[n].Obj? && Matched(t, format, items[n].fields, es)
    ensures AllMatched(t, format, items, |items|, es) ==> AllMatched(t, format, items, n + 1, es)
  {
  }

  method CompareAll(t: Texts, format: Format, items: seq<Json>, es: seq<Fields>, before: seq<string>)
    returns (errors: seq<string>, raised: bool)
    ensures before <= errors
    ensures !raised && |errors| == |before| <==> AllMatched(t, format, items, |items|, es)
  {
    var byName := IndexByName(t, es);
    errors, raised := before, false;
    for i := 0 to |items|
      invariant before <= errors && !raised
      invariant |errors| == |before| <==> AllMatched(t, format, items, i, es)
    {
      AllMatchedGrows(t, format, items, i, es);
      if !items[i].Obj? {
        return errors, true;
      }
      errors, raised := CompareOne(t, format, items[i].fields, es, byName, errors);
      if raised {
        return;
      }
    }
  }

  method CompareWithLock(t: Texts, format: Format, items: seq<Json>, es: seq<Fields>, before: seq<string>)
    returns (errors: seq<string>, raised: bool)
    ensures before <= errors
    ensures !raised && |errors| == |before| <==> Matches(t, format, items, es)
  {
    errors, raised := CompareAll(t, format, items, es, before);
    if !raised {
      var cs := CollectObjects(items);
      errors := ReportUnlocked(t, cs, es, errors);
    }
  }

  method ReportUnlocked(t: Texts, cs: seq<Fields>, es: seq<Fields>, before: seq<string>) returns (errors: seq<string>)
    ensures before <= errors
    ensures |errors| == |before| <==> forall j :: 0 <= j < |es| ==> Locked(t, cs, es[j])
  {
    errors := before;
    var names := set c | c in cs :: NameKey(t, c);
    assert forall key :: key in names <==> exists i :: 0 <= i < |cs| && NameKey(t, cs[i]) == key;
    for j := 0 to |es|
      invariant before <= errors
      invariant |errors| == |before| <==> forall k :: 0 <= k < j ==> Locked(t, cs, es[k])
    {
      var name := GetText(es[j], "name");
      errors := Report(errors, name != "" && NameKey(t, es[j]) !in names, "Missing from component lock: " + name);
    }
  }

  predicate HasComponents(lock: Fields) {
    Elements(Get(lock, "components", Arr([], "[]"))).Some?
  }

  /** `if lock:` — a lock was read and is not the empty object. */
  predicate LockMatches(t: Texts, format: Format, lock: Option<Fields>, es: seq<Fields>) {
    lock.Some? && lock.value != map[] ==> HasComponents(lock.value) && Matches(t, format, Components(lock.value), es)
  }

  function Entries(o: Fields, collection: string): seq<Fields> {
    Objects(Items(Get(o, collection, Null)))
  }

  predicate CdxHeaderOk(sbom: Fields) {
    Get(sbom, "bomFormat", Null) == Str("CycloneDX") && Get(sbom, "specVersion", Null) == Str("1.6")
  }

  ghost predicate CdxOk(t: Texts, lock: Option<Fields>, document: Option<Fields>) {
    document.Some? && var sbom := document.value;
    && CdxHeaderOk(sbom)
    && Items(Get(sbom, "components", Null)) != []
    && UniqueNames(t, Entries(sbom, "components"))
    && !Mentions(t, Get(sbom, "components", Null))
    && LockMatches(t, CycloneDx, lock, Entries(sbom, "components"))
  }

  predicate SpdxHeaderOk(sbom: Fields) {
    && Get(sbom, "spdxVersion", Null) == Str("SPDX-2.3") && Get(sbom, "dataLicense", Null) == Str("CC0-1.0")
    && Get(sbom, "SPDXID", Null) == Str("SPDXRef-DOCUMENT")
  }

  predicate LicensesResolved(t: Texts, package: Fields) {
    && !Unresolved(t, Get(package, "licenseDeclared", Null))
    && (Get(package, "licenseConcluded", Null) == Null || !Unresolved(t, Get(package, "licenseConcluded", Null)))
  }

  ghost predicate SpdxOk(t: Texts, lock: Option<Fields>, document: Option<Fields>) {
    document.Some? && var sbom := document.value;
    && SpdxHeaderOk(sbom)
    && Items(Get(sbom, "packages", Null)) != []
    && (forall p :: p in Entries(sbom, "packages") ==> LicensesResolved(t, p))
    && UniqueNames(t, Entries(sbom, "packages"))
    && LockMatches(t, Spdx, lock, Entries(sbom, "packages"))
  }

  method CompareIfLocked(t: Texts, format: Format, lock: Option<Fields>, es: seq<Fields>, before: seq<string>)
    returns (errors: seq<string>, raised: bool)
    ensures before <= errors
    ensures !raised && |errors| == |before| <==> LockMatches(t, format, lock, es)
  {
    if lock.None? || lock.value == map[] {
      return before, false;
    }
    if !HasComponents(lock.value) {
      return before, true;
    }
    errors, raised := CompareWithLock(t, format, Components(lock.value), es, before);
  }

  method ValidateSbom(t: Texts, lock: Option<Fields>, document: Option<Fields>, before: seq<string>)
    returns (errors: seq<string>, raised: bool)
    ensures before <= errors
    ensures !raised && |errors| == |before| <==> CdxOk(t, lock, document)
  {
    if document.None? {
      return before + ["Invalid CycloneDX SBOM"], false;
    }
    var sbom := document.value;
    errors := Report(before, !CdxHeaderOk(sbom), "Invalid CycloneDX SBOM header");
    var components := Get(sbom, "components", Null);
    if Items(components) == [] {
      return errors + ["CycloneDX SBOM has no components"], false;
    }
    var es := CollectObjects(Items(components));
    errors := ReportDuplicates(t, es, "Duplicate component in CycloneDX SBOM: ", errors);
    var forbidden := MentionsWord(t, components);
    errors := Report(errors, forbidden, "Forbidden component in CycloneDX SBOM: n8n");
    errors, raised := CompareIfLocked(t, CycloneDx, lock, es, errors);
  }

  method ValidateSpdx(t: Texts, lock: Option<Fields>, document: Option<Fields>, before: seq<string>)
    returns (errors: seq<string>, raised: bool)
    ensures before <= errors
    ensures !raised && |errors| == |before| <==> SpdxOk(t, lock, document)
  {
    if document.None? {
      return before + ["Invalid SPDX SBOM"], false;
    }
    var sbom := document.value;
    errors := Report(before, !SpdxHeaderOk(sbom), "Invalid SPDX SBOM header");
    var packages := Get(sbom, "packages", Null);
    if Items(packages) == [] {
      return errors + ["SPDX SBOM has no packages"], false;
    }
    var es := CollectObjects(Items(packages));
    errors := ReportUnresolved(t, es, errors);
    errors := ReportDuplicates(t, es, "Duplicate package in SPDX SBOM: ", errors);
    errors, raised := CompareIfLocked(t, Spdx, lock, es, errors);
  }

  method ReportUnresolved(t: Texts, es: seq<Fields>, before: seq<string>) returns (errors: seq<string>)
    ensures before <= errors
    ensures |errors| == |before| <==> forall p :: p in es ==> LicensesResolved(t, p)
  {
    errors := before;
    for i := 0 to |es|
      invariant before <= errors
      invariant |errors| == |before| <==> forall k :: 0 <= k < i ==> LicensesResolved(t, es[k])
    {
      var name := Text(Get(es[i], "name", Str("<unknown>")));
      errors := Report(errors, Unresolved(t, Get(es[i], "licenseDeclared", Null)), "Unresolved SPDX declared license: " + name);
      var concluded := Get(es[i], "licenseConcluded", Null);
      errors := Report(errors, concluded != Null && Unresolved(t, concluded), "Unresolved SPDX concluded license: " + name);
    }
  }
}
