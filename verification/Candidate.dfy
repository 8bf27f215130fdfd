/**
 The candidate generator (tools/generate_distribution_candidate.py) against the gate: the
 component lists it builds from a lock, and its report of image license gaps.

 The `repr` of generated values is never read and left empty.
 */
module Candidate {
  import opened Common
  import opened Sums
  import opened Json
  import opened Gate
  import opened GateAgreement

  function Object(fields: Fields): Json {
    Obj(fields, "")
  }

  function List(items: seq<Json>): Json {
    Arr(items, "")
  }

  /** `re.fullmatch(r"[A-Za-z0-9.+-]+", s)`. */
  predicate IsIdentifier(s: string) {
    s != "" && forall i :: 0 <= i < |s| ==>
      'A' <= s[i] <= 'Z' || 'a' <= s[i] <= 'z' || '0' <= s[i] <= '9' || s[i] in ".+-"
  }

  function LicenseChoice(license: Json): Json {
    if IsIdentifier(Text(license)) then Object(map["license" := Object(map["id" := license])])
    else Object(map["expression" := license])
  }

  function HashEntry(digest: Json): Json {
    Object(map["alg" := Str("SHA-256"), "content" := digest])
  }

  function HashEntries(digests: seq<Json>): seq<Json> {
    seq(|digests|, i requires 0 <= i < |digests| => HashEntry(digests[i]))
  }

  /** What `for digest in item["all_hashes"]` visits, or `None` when that raises; a string is visited character by character. */
  function Digests(all: Json): Option<seq<Json>> {
    if all.Str? then Some(seq(|all.chars|, i requires 0 <= i < |all.chars| => Str([all.chars[i]]))) else Elements(all)
  }

  function HashList(item: Fields): Option<Json> {
    var all := Get(item, "all_hashes", Null);
    if IsDigest(GetText(item, "digest")) then Some(List(HashEntries([Str(WithoutPrefix(GetText(item, "digest")))])))
    else if Truthy(all) && Digests(all).Some? then Some(List(HashEntries(Digests(all).value)))
    else None
  }

  /** The other hashes are only asked for without a digest of its own, and then can be visited. */
  predicate HashesIterable(item: Fields) {
    var all := Get(item, "all_hashes", Null);
    !IsDigest(GetText(item, "digest")) && Truthy(all) ==> Digests(all).Some?
  }

  function Property(name: string, value: Json): Json {
    Object(map["name" := Str(name), "value" := value])
  }

  function Described(item: Fields): Fields {
    var empty: Fields := map[];
    empty["type" := Str(if Get(item, "kind", Null) == IMAGE_KIND then "container" else "library")]
      ["properties" := List([Property("atlantis:repository", Get(item, "repository", Null)),
                             Property("atlantis:artifact", Get(item, "artifact", Null))])]
  }

  function Identified(item: Fields): Fields {
    Described(item)["name" := Get(item, "name", Null)]["version" := Get(item, "revision", Null)]
      ["licenses" := List([LicenseChoice(Get(item, "license_spdx", Null))])]
  }

  function WithHashes(item: Fields): Fields {
    match HashList(item)
    case Some(hashes) => Identified(item)["hashes" := hashes]
    case None => Identified(item)
  }

  function CdxEntry(item: Fields): Fields {
    if Truthy(Get(item, "purl", Null)) then WithHashes(item)["purl" := item["purl"]] else WithHashes(item)
  }

  function CdxEntries(items: seq<Fields>): seq<Json> {
    seq(|items|, i requires 0 <= i < |items| => Object(CdxEntry(items[i])))
  }

  /** The fields the generator reads without a default. */
  const READ_FIELDS: seq<string> := ["name", "kind", "repository", "revision", "artifact", "digest", "license_spdx"]

  predicate HasAll(item: Fields, fields: seq<string>) {
    forall i :: 0 <= i < |fields| ==> fields[i] in item
  }

  /** The values matched against regular expressions are strings. */
  predicate Textual(item: Fields) {
    Get(item, "license_spdx", Null).Str? && Get(item, "digest", Null).Str?
  }

  predicate Generatable(item: Fields) {
    HasAll(item, READ_FIELDS) && Textual(item) && HashesIterable(item)
  }

  /** The component has the seven fields, a text license and digest, and other hashes that can be visited where they are needed. */
  predicate Readable(item: Fields) {
    && "name" in item && "kind" in item && "repository" in item && "revision" in item && "artifact" in item
    && "digest" in item && "license_spdx" in item
    && item["license_spdx"].Str? && item["digest"].Str?
    && (!IsDigest(item["digest"].chars) && Truthy(Get(item, "all_hashes", Null)) ==>
          item["all_hashes"].Str? || item["all_hashes"].Arr? || item["all_hashes"].Obj?)
  }

  /** The entry a component gets, field by field. */
  ghost predicate EntryOf(item: Fields, e: Fields) {
    && (forall key :: key in e ==> key in {"type", "name", "version", "licenses", "properties", "hashes", "purl"})
    && Get(e, "type", Null) == Str(if Get(item, "kind", Null) == Str("oci-image") then "container" else "library")
    && Get(e, "name", Null) == Get(item, "name", Null) && Get(e, "version", Null) == Get(item, "revision", Null)
    && Get(e, "properties", Null) == List([Property("atlantis:repository", Get(item, "repository", Null)),
                                           Property("atlantis:artifact", Get(item, "artifact", Null))])
    && (Truthy(Get(item, "purl", Null)) ==> Get(e, "purl", Null) == Get(item, "purl", Null))
    && (!Truthy(Get(item, "purl", Null)) ==> "purl" !in e)
    && LicensesOf(Get(item, "license_spdx", Null), Get(e, "licenses", Null))
    && HashesOf(GetText(item, "digest"), Get(item, "all_hashes", Null), e)
  }

  /** One choice: by id for a plain identifier, and otherwise as an expression. */
  predicate LicensesOf(license: Json, licenses: Json) {
    var plain := Text(license) != "" && forall c :: c in Text(license) ==>
      'A' <= c <= 'Z' || 'a' <= c <= 'z' || '0' <= c <= '9' || c == '.' || c == '+' || c == '-';
    && licenses.Arr? && |licenses.items| == 1 && licenses.items[0].Obj?
    && licenses.items[0].fields
       == if plain then map["license" := Object(map["id" := license])] else map["expression" := license]
  }

  /** The component's own digest without its prefix, or else its other hashes one by one. */
  predicate HashesOf(digest: string, all: Json, e: Fields) {
    && (IsDigest(digest) ==> Get(e, "hashes", Null) == List([Object(map["alg" := Str("SHA-256"), "content" := Str(digest[7..])])]))
    && (!IsDigest(digest) && !Truthy(all) ==> "hashes" !in e)
    && (!IsDigest(digest) && all.Arr? && all.items != [] ==>
          && Get(e, "hashes", Null).Arr? && |e["hashes"].items| == |all.items|
          && forall i :: 0 <= i < |all.items| ==>
               e["hashes"].items[i] == Object(map["alg" := Str("SHA-256"), "content" := all.items[i]]))
  }

  method CycloneDxComponents(items: seq<Fields>) returns (result: seq<Json>, raised: bool)
    ensures raised <==> exists i :: 0 <= i < |items| && !Readable(items[i])
    ensures !raised ==> result == CdxEntries(items)
    ensures !raised ==> |result| == |items| && forall i :: 0 <= i < |items| ==> result[i].Obj? && EntryOf(items[i], result[i].fields)
  {
    result, raised := [], false;
    for i := 0 to |items|
      invariant result == CdxEntries(items[..i])
      invariant forall k :: 0 <= k < i ==> Readable(items[k])
    {
      GeneratableExactly(items[i]);
      if !Generatable(items[i]) {
        return result, true;
      }
      result := result + [Object(CdxEntry(items[i]))];
      assert items[..i + 1][..i] == items[..i] && items[..i + 1][i] == items[i];
      assert CdxEntries(items[..i + 1]) == CdxEntries(items[..i]) + [Object(CdxEntry(items[i]))];
    }
    assert items[..|items|] == items;
    EntriesAreOf(items);
  }

  // ---------------------------------------- generated lists pass the gate

  const FIXED_WORDS: seq<string> := [
    "type", "container", "library", "name", "version", "licenses", "license", "id", "expression", "properties",
    "value", "atlantis:repository", "atlantis:artifact", "hashes", "alg", "SHA-256", "content", "purl"]

  ghost predicate WordsAreClean(t: Texts) {
    forall i :: 0 <= i < |FIXED_WORDS| ==> !t.n8n(FIXED_WORDS[i])
  }

  lemma {:induction false} Clean(t: Texts)
    requires WordsAreClean(t)
    ensures !t.n8n("type") && !t.n8n("container") && !t.n8n("library") && !t.n8n("name") && !t.n8n("version")
    ensures !t.n8n("licenses") && !t.n8n("license") && !t.n8n("id") && !t.n8n("expression") && !t.n8n("properties")
    ensures !t.n8n("value") && !t.n8n("atlantis:repository") && !t.n8n("atlantis:artifact") && !t.n8n("hashes")
    ensures !t.n8n("alg") && !t.n8n("SHA-256") && !t.n8n("content") && !t.n8n("purl")
  {
    assert FIXED_WORDS[0] == "type" && FIXED_WORDS[1] == "container" && FIXED_WORDS[2] == "library" && FIXED_WORDS[3] == "name";
    assert FIXED_WORDS[4] == "version" && FIXED_WORDS[5] == "licenses" && FIXED_WORDS[6] == "license" && FIXED_WORDS[7] == "id";
    assert FIXED_WORDS[8] == "expression" && FIXED_WORDS[9] == "properties" && FIXED_WORDS[10] == "value";
    assert FIXED_WORDS[11] == "atlantis:repository" && FIXED_WORDS[12] == "atlantis:artifact" && FIXED_WORDS[13] == "hashes";
    assert FIXED_WORDS[14] == "alg" && FIXED_WORDS[15] == "SHA-256" && FIXED_WORDS[16] == "content" && FIXED_WORDS[17] == "purl";
  }

  lemma {:induction false} ValuesAreClean(t: Texts, item: Fields, key: string)
    requires !Mentions(t, Obj(item, ""))
    ensures !Mentions(t, Get(item, key, Null))
  {
  }

  lemma {:induction false} PropertyIsClean(t: Texts, name: string, value: Json)
    requires WordsAreClean(t) && !t.n8n(name) && !Mentions(t, value)
    ensures !Mentions(t, Property(name, value))
  {
    assert !t.n8n("name") && !t.n8n("value") by {
      Clean(t);
    }
    SingleIsClean(t, "name", Str(name));
    FieldIsClean(t, map["name" := Str(name)], "value", value);
  }

  lemma {:induction false} SingleIsClean(t: Texts, key: string, value: Json)
    requires !t.n8n(key) && !Mentions(t, value)
    ensures !Mentions(t, Object(map[key := value]))
  {
  }

  lemma {:induction false} LicenseIsClean(t: Texts, license: Json)
    requires WordsAreClean(t) && !Mentions(t, license)
    ensures !Mentions(t, LicenseChoice(license))
  {
    assert !t.n8n("license") && !t.n8n("id") && !t.n8n("expression") by {
      Clean(t);
    }
    SingleIsClean(t, "id", license);
    SingleIsClean(t, "license", Object(map["id" := license]));
    SingleIsClean(t, "expression", license);
  }

  lemma {:induction false} HashIsClean(t: Texts, digest: string)
    requires WordsAreClean(t) && !t.n8n(digest)
    ensures !Mentions(t, List(HashEntries([Str(digest)])))
  {
    assert !t.n8n("alg") && !t.n8n("content") && !t.n8n("SHA-256") by {
      Clean(t);
    }
    HashEntryIsClean(t, digest);
    assert HashEntries([Str(digest)])[0] == HashEntry(Str(digest));
  }

  lemma {:induction false} HashEntryIsClean(t: Texts, digest: string)
    requires !t.n8n("alg") && !t.n8n("content") && !t.n8n("SHA-256") && !t.n8n(digest)
    ensures !Mentions(t, HashEntry(Str(digest)))
  {
    assert !Mentions(t, Str("SHA-256")) && !Mentions(t, Str(digest));
  }

  lemma {:induction false} FieldIsClean(t: Texts, o: Fields, key: string, value: Json)
    requires !Mentions(t, Object(o)) && !t.n8n(key) && !Mentions(t, value)
    ensures !Mentions(t, Object(o[key := value]))
  {
  }

  lemma {:induction false} PropertiesAreClean(t: Texts, repository: Json, artifact: Json)
    requires WordsAreClean(t) && !Mentions(t, repository) && !Mentions(t, artifact)
    ensures !Mentions(t, List([Property("atlantis:repository", repository), Property("atlantis:artifact", artifact)]))
  {
    assert !t.n8n("atlantis:repository") && !t.n8n("atlantis:artifact") by {
      Clean(t);
    }
    PropertyIsClean(t, "atlantis:repository", repository);
    PropertyIsClean(t, "atlantis:artifact", artifact);
  }

  lemma {:induction false} DescribedIsClean(t: Texts, item: Fields)
    requires WordsAreClean(t) && !Mentions(t, Obj(item, ""))
    ensures !Mentions(t, Object(Described(item)))
  {
    var empty: Fields := map[];
    var kind := Str(if Get(item, "kind", Null) == IMAGE_KIND then "container" else "library");
    assert !t.n8n("type") && !t.n8n("properties") && !Mentions(t, kind) by {
      Clean(t);
    }
    var repository, artifact := Get(item, "repository", Null), Get(item, "artifact", Null);
    ValuesAreClean(t, item, "repository");
    ValuesAreClean(t, item, "artifact");
    PropertiesAreClean(t, repository, artifact);
    FieldIsClean(t, empty, "type", kind);
    FieldIsClean(t, empty["type" := kind], "properties",
                 List([Property("atlantis:repository", repository), Property("atlantis:artifact", artifact)]));
  }

  lemma {:induction false} NamedIsClean(t: Texts, o: Fields, name: Json, version: Json, licenses: Json)
    requires !t.n8n("name") && !t.n8n("version") && !t.n8n("licenses") && !Mentions(t, Object(o))
    requires !Mentions(t, name) && !Mentions(t, version) && !Mentions(t, licenses)
    ensures !Mentions(t, Object(o["name" := name]["version" := version]["licenses" := licenses]))
  {
    FieldIsClean(t, o, "name", name);
    FieldIsClean(t, o["name" := name], "version", version);
    FieldIsClean(t, o["name" := name]["version" := version], "licenses", licenses);
  }

  lemma {:induction false} IdentifiedIsClean(t: Texts, item: Fields)
    requires WordsAreClean(t) && !Mentions(t, Obj(item, ""))
    ensures !Mentions(t, Object(Identified(item)))
  {
    assert !t.n8n("name") && !t.n8n("version") && !t.n8n("licenses") by {
      Clean(t);
    }
    DescribedIsClean(t, item);
    ValuesAreClean(t, item, "name");
    ValuesAreClean(t, item, "revision");
    ValuesAreClean(t, item, "license_spdx");
    LicenseIsClean(t, Get(item, "license_spdx", Null));
    var licenses := List([LicenseChoice(Get(item, "license_spdx", Null))]);
    assert !Mentions(t, licenses);
    NamedIsClean(t, Described(item), Get(item, "name", Null), Get(item, "revision", Null), licenses);
  }

  lemma {:induction false} EntryIsClean(t: Texts, item: Fields)
    requires Lawful(t) && WordsAreClean(t) && IsDigest(GetText(item, "digest")) && !Mentions(t, Obj(item, ""))
    ensures !Mentions(t, Object(CdxEntry(item)))
  {
    Clean(t);
    IdentifiedIsClean(t, item);
    HashIsClean(t, WithoutPrefix(GetText(item, "digest")));
    FieldIsClean(t, Identified(item), "hashes", HashList(item).value);
    ValuesAreClean(t, item, "purl");
    if Truthy(Get(item, "purl", Null)) {
      FieldIsClean(t, WithHashes(item), "purl", item["purl"]);
    }
  }

  lemma {:induction false} KeysDiffer()
    ensures "name" != "version" && "name" != "licenses" && "name" != "hashes" && "name" != "purl"
    ensures "version" != "licenses" && "version" != "hashes" && "version" != "purl"
    ensures "licenses" != "hashes" && "licenses" != "purl" && "hashes" != "purl"
  {
    assert |"name"| == |"purl"| == 4 && |"version"| == 7 && |"licenses"| == 8 && |"hashes"| == 6;
    assert "name"[0] == 'n' && "purl"[0] == 'p';
  }

  /** The fields of a generated entry that the gate compares. */
  lemma {:induction false} ComparedFields(item: Fields)
    requires IsDigest(GetText(item, "digest"))
    ensures var e := CdxEntry(item);
      && Get(e, "name", Str("")) == Get(item, "name", Null)
      && Get(e, "version", Str("")) == Get(item, "revision", Null)
      && Get(e, "licenses", Null) == List([LicenseChoice(Get(item, "license_spdx", Null))])
      && Get(e, "hashes", Null) == List(HashEntries([Str(WithoutPrefix(GetText(item, "digest")))]))
  {
    KeysDiffer();
  }

  /** Upper-casing and stripping leave these two texts as they are. */
  predicate Standard(t: Texts) {
    t.upper("SHA-256") == "SHA-256" && t.upper(t.strip("NOASSERTION")) == "NOASSERTION"
  }

  /** Every component of an accepted lock has the fields the generator reads. */
  lemma {:induction false} AcceptedHasAll(t: Texts, item: Json, index: nat)
    requires Lawful(t) && LockItemOk(t, item, index)
    ensures HasAll(item.fields, READ_FIELDS)
  {
    forall i | 0 <= i < |READ_FIELDS|
      ensures READ_FIELDS[i] in item.fields
    {
      assert READ_FIELDS[i] == LOCK_FIELDS[i];
      FieldPresent(t, item, index, i);
    }
  }

  lemma {:induction false} FieldPresent(t: Texts, item: Json, index: nat, i: nat)
    requires Lawful(t) && LockItemOk(t, item, index) && i < |LOCK_FIELDS|
    ensures LOCK_FIELDS[i] in item.fields && GetText(item.fields, LOCK_FIELDS[i]) != ""
  {
    assert Pinned(t, item.fields, LOCK_FIELDS[i]) && PENDING[0] == "";
  }

  lemma {:induction false} LockFieldsPresent(t: Texts, item: Json, index: nat)
    requires Lawful(t) && LockItemOk(t, item, index)
    ensures "name" in item.fields && "revision" in item.fields && "license_spdx" in item.fields && "digest" in item.fields
    ensures GetText(item.fields, "license_spdx") != "" && IsDigest(GetText(item.fields, "digest"))
  {
    assert LOCK_FIELDS[0] == "name" && LOCK_FIELDS[3] == "revision" && LOCK_FIELDS[5] == "digest" && LOCK_FIELDS[6] == "license_spdx";
    FieldPresent(t, item, index, 0);
    FieldPresent(t, item, index, 3);
    FieldPresent(t, item, index, 5);
    FieldPresent(t, item, index, 6);
  }

  lemma {:induction false} HashIsListed(t: Texts, e: Fields, digest: string)
    requires Standard(t) && Get(e, "hashes", Null) == List(HashEntries([Str(digest)]))
    ensures digest in Hashes(t, CycloneDx, e)
  {
    var entry := HashEntries([Str(digest)])[0];
    assert "alg" != "content" by {
      assert |"alg"| == 3 && |"content"| == 7;
    }
    assert entry in Items(Get(e, "hashes", Null));
    assert GetText(entry.fields, "alg") == "SHA-256" && GetText(entry.fields, "content") == digest;
  }

  lemma {:induction false} LicenseIsDeclared(license: string)
    requires license != ""
    ensures license in Declared([LicenseChoice(Str(license))])
  {
    var choices := [LicenseChoice(Str(license))];
    assert choices[..0] == [];
    assert "license" != "expression" by {
      assert |"license"| == 7 && |"expression"| == 10;
    }
  }

  lemma {:induction false} ComparedEntryAgrees(t: Texts, c: Fields, e: Fields)
    requires Standard(t) && Textual(c) && GetText(c, "license_spdx") != "" && "name" in c && "revision" in c
    requires Get(e, "name", Str("")) == c["name"] && Get(e, "version", Str("")) == c["revision"]
    requires Get(e, "licenses", Null) == List([LicenseChoice(Get(c, "license_spdx", Null))])
    requires Get(e, "hashes", Null) == List(HashEntries([Str(WithoutPrefix(GetText(c, "digest")))]))
    ensures Agrees(t, CycloneDx, c, e) && GetText(e, "name") == GetText(c, "name")
  {
    HashIsListed(t, e, WithoutPrefix(GetText(c, "digest")));
    LicenseIsDeclared(GetText(c, "license_spdx"));
  }

  /** A generated entry agrees with the lock component it was made from. */
  lemma {:induction false} EntryAgrees(t: Texts, item: Json, index: nat)
    requires Lawful(t) && Standard(t) && LockItemOk(t, item, index) && Textual(item.fields)
    ensures Agrees(t, CycloneDx, item.fields, CdxEntry(item.fields))
    ensures GetText(CdxEntry(item.fields), "name") == GetText(item.fields, "name")
  {
    LockFieldsPresent(t, item, index);
    ComparedFields(item.fields);
    ComparedEntryAgrees(t, item.fields, CdxEntry(item.fields));
  }

  /** Entries that agree one by one with the components of an accepted lock are accepted against it. */
  lemma {:induction false} EntriesMatch(t: Texts, format: Format, lock: Fields, es: seq<Fields>)
    requires Lawful(t) && LockOk(t, lock) && |es| == |Locks(lock)|
    requires forall i :: 0 <= i < |es| ==>
      Agrees(t, format, Locks(lock)[i], es[i]) && GetText(es[i], "name") == GetText(Locks(lock)[i], "name")
    ensures UniqueNames(t, es) && LockMatches(t, format, Some(lock), es)
  {
    AcceptedLockIsNotEmpty(t, lock);
    LockIsDistinct(t, lock);
    var items, cs := Components(lock), Locks(lock);
    forall i | 0 <= i < |cs|
      ensures NameKey(t, es[i]) == NameKey(t, cs[i]) && Named(es[i]) && Agrees(t, format, cs[i], es[i])
    {
      assert cs[i] in cs;
    }
    assert DistinctNames(t, es);
    forall i | 0 <= i < |items|
      ensures Matched(t, format, items[i].fields, es)
    {
      ByNameIs(t, es, i);
    }
    forall j | 0 <= j < |es|
      ensures Locked(t, cs, es[j])
    {
      assert NameKey(t, cs[j]) == NameKey(t, es[j]);
    }
  }

  lemma {:induction false} CdxEntriesAgree(t: Texts, lock: Fields)
    requires Lawful(t) && Standard(t) && LockOk(t, lock) && forall c :: c in Locks(lock) ==> Textual(c)
    ensures var es := Objects(CdxEntries(Locks(lock)));
      UniqueNames(t, es) && LockMatches(t, CycloneDx, Some(lock), es)
  {
    LockIsDistinct(t, lock);
    var items, cs := Components(lock), Locks(lock);
    var es := Objects(CdxEntries(cs));
    ObjectsOfAll(CdxEntries(cs));
    forall i | 0 <= i < |es|
      ensures Agrees(t, CycloneDx, cs[i], es[i]) && GetText(es[i], "name") == GetText(cs[i], "name")
    {
      assert cs[i] in cs && LockItemOk(t, items[i], i);
      EntryAgrees(t, items[i], i);
    }
    EntriesMatch(t, CycloneDx, lock, es);
  }

  lemma {:induction false} MentionsIgnoresText(t: Texts, fields: Fields, repr: string)
    ensures Mentions(t, Obj(fields, repr)) == Mentions(t, Obj(fields, ""))
  {
  }

  lemma {:induction false} EntriesAreClean(t: Texts, lock: Fields)
    requires Lawful(t) && WordsAreClean(t) && LockOk(t, lock)
    ensures !Mentions(t, List(CdxEntries(Locks(lock))))
  {
    LockIsDistinct(t, lock);
    var items, cs := Components(lock), Locks(lock);
    forall i | 0 <= i < |cs|
      ensures !Mentions(t, CdxEntries(cs)[i])
    {
      assert LockItemOk(t, items[i], i);
      LockFieldsPresent(t, items[i], i);
      MentionsIgnoresText(t, cs[i], items[i].repr);
      EntryIsClean(t, cs[i]);
    }
  }

  /**
   For every lock the gate accepts (with string licenses and digests, as the generator
   needs), the generator reads no missing field, and the CycloneDX list it makes, under the
   standard header, is accepted against that lock.
   */
  lemma {:induction false} GeneratedListIsAccepted(t: Texts, lock: Fields, sbom: Fields)
    requires Lawful(t) && Standard(t) && WordsAreClean(t) && LockOk(t, lock)
    requires forall c :: c in Locks(lock) ==> Textual(c)
    requires CdxHeaderOk(sbom) && Get(sbom, "components", Null) == List(CdxEntries(Locks(lock)))
    ensures forall c :: c in Locks(lock) ==> Generatable(c)
    ensures CdxOk(t, Some(lock), Some(sbom))
  {
    AcceptedAreGeneratable(t, lock);
    AcceptedLockIsNotEmpty(t, lock);
    LockIsDistinct(t, lock);
    CdxEntriesAgree(t, lock);
    EntriesAreClean(t, lock);
    assert Items(Get(sbom, "components", Null)) == CdxEntries(Locks(lock));
  }

  lemma {:induction false} AcceptedAreGeneratable(t: Texts, lock: Fields)
    requires Lawful(t) && LockOk(t, lock)
    ensures forall c :: c in Locks(lock) ==> HasAll(c, READ_FIELDS) && HashesIterable(c)
  {
    LockIsDistinct(t, lock);
    var items := Components(lock);
    forall i | 0 <= i < |items|
      ensures HasAll(Locks(lock)[i], READ_FIELDS) && HashesIterable(Locks(lock)[i])
    {
      assert LockItemOk(t, items[i], i);
      AcceptedHasAll(t, items[i], i);
      LockFieldsPresent(t, items[i], i);
    }
  }

  lemma {:induction false} GeneratableExactly(item: Fields)
    ensures Generatable(item) <==> Readable(item)
  {
    assert |READ_FIELDS| == 7;
    assert READ_FIELDS[0] == "name" && READ_FIELDS[1] == "kind" && READ_FIELDS[2] == "repository" && READ_FIELDS[3] == "revision";
    assert READ_FIELDS[4] == "artifact" && READ_FIELDS[5] == "digest" && READ_FIELDS[6] == "license_spdx";
  }

  lemma {:induction false} PackageableExactly(item: Fields)
    ensures Packageable(item) <==> PackageReadable(item)
  {
    assert |PACKAGED_FIELDS| == 5;
    assert PACKAGED_FIELDS[0] == "name" && PACKAGED_FIELDS[1] == "repository" && PACKAGED_FIELDS[2] == "revision";
    assert PACKAGED_FIELDS[3] == "digest" && PACKAGED_FIELDS[4] == "license_spdx";
  }

  // ------------------------------------------------ what a generated entry is

  lemma {:induction false} AllKeysDiffer()
    ensures "type" != "name" && "type" != "version" && "type" != "licenses" && "type" != "hashes" && "type" != "purl"
    ensures "properties" != "name" && "properties" != "version" && "properties" != "licenses" && "properties" != "hashes"
    ensures "properties" != "purl" && "properties" != "type"
  {
    assert |"type"| == |"name"| == |"purl"| == 4 && |"version"| == 7 && |"licenses"| == 8 && |"hashes"| == 6 && |"properties"| == 10;
    assert "type"[0] == 't' && "name"[0] == 'n' && "purl"[0] == 'p';
  }

  lemma {:induction false} EntryDescribes(item: Fields)
    ensures var e := CdxEntry(item);
      && Get(e, "type", Null) == Str(if Get(item, "kind", Null) == Str("oci-image") then "container" else "library")
      && Get(e, "properties", Null) == List([Property("atlantis:repository", Get(item, "repository", Null)),
                                             Property("atlantis:artifact", Get(item, "artifact", Null))])
  {
    AllKeysDiffer();
    var described := Described(item);
    assert Get(described, "properties", Null) == List([Property("atlantis:repository", Get(item, "repository", Null)),
                                                       Property("atlantis:artifact", Get(item, "artifact", Null))]);
    assert Get(described, "type", Null) == Str(if Get(item, "kind", Null) == Str("oci-image") then "container" else "library");
    LaterFieldsKeep(item, "type");
    LaterFieldsKeep(item, "properties");
  }

  lemma {:induction false} LaterFieldsKeep(item: Fields, key: string)
    requires key !in {"name", "version", "licenses", "hashes", "purl"} && key in Described(item)
    ensures Get(CdxEntry(item), key, Null) == Described(item)[key]
  {
  }

  lemma {:induction false} EntryIdentifies(item: Fields)
    ensures var e, purl := CdxEntry(item), Get(item, "purl", Null);
      && Get(e, "name", Null) == Get(item, "name", Null) && Get(e, "version", Null) == Get(item, "revision", Null)
      && Get(e, "licenses", Null) == List([LicenseChoice(Get(item, "license_spdx", Null))])
      && (Truthy(purl) ==> Get(e, "purl", Null) == purl)
  {
    KeysDiffer();
  }

  lemma {:induction false} NoPurlIsMadeUp(item: Fields)
    ensures !Truthy(Get(item, "purl", Null)) ==> "purl" !in CdxEntry(item)
  {
    KeysDiffer();
    AllKeysDiffer();
  }

  lemma {:induction false} EntryHashes(item: Fields)
    ensures HashesOf(GetText(item, "digest"), Get(item, "all_hashes", Null), CdxEntry(item))
  {
    KeysDiffer();
    AllKeysDiffer();
    var digest := GetText(item, "digest");
    if IsDigest(digest) {
      assert HashEntries([Str(WithoutPrefix(digest))]) == [HashEntry(Str(digest[7..]))];
    }
  }

  lemma {:induction false} EntryKeys(item: Fields, key: string)
    ensures key in CdxEntry(item) ==> key in {"type", "name", "version", "licenses", "properties", "hashes", "purl"}
  {
  }

  lemma {:induction false} ChoiceIs(license: Json)
    ensures LicensesOf(license, List([LicenseChoice(license)]))
  {
    var text := Text(license);
    assert (forall c :: c in text ==> 'A' <= c <= 'Z' || 'a' <= c <= 'z' || '0' <= c <= '9' || c in ".+-") <==>
      forall i :: 0 <= i < |text| ==>
        'A' <= text[i] <= 'Z' || 'a' <= text[i] <= 'z' || '0' <= text[i] <= '9' || text[i] in ".+-";
  }

  lemma {:induction false} EntryIsOf(item: Fields)
    ensures EntryOf(item, CdxEntry(item))
  {
    EntryDescribes(item);
    EntryIdentifies(item);
    NoPurlIsMadeUp(item);
    EntryHashes(item);
    ChoiceIs(Get(item, "license_spdx", Null));
    forall key
      ensures key in CdxEntry(item) ==> key in {"type", "name", "version", "licenses", "properties", "hashes", "purl"}
    {
      EntryKeys(item, key);
    }
  }

  lemma {:induction false} EntriesAreOf(items: seq<Fields>)
    ensures forall i :: 0 <= i < |items| ==> CdxEntries(items)[i].Obj? && EntryOf(items[i], CdxEntries(items)[i].fields)
  {
    forall i | 0 <= i < |items|
      ensures EntryOf(items[i], CdxEntry(items[i]))
    {
      EntryIsOf(items[i]);
    }
  }

  // ------------------------------------------------------ generated SPDX

  /** `re.sub(r"[^A-Za-z0-9.-]", "-", name)`, behind the prefix of package ids. */
  function SpdxId(name: string): string {
    "SPDXRef-Package-" + seq(|name|, i requires 0 <= i < |name| => IdChar(name[i]))
  }

  function IdChar(c: char): char {
    if 'A' <= c <= 'Z' || 'a' <= c <= 'z' || '0' <= c <= '9' || c == '.' || c == '-' then c else '-'
  }

  predicate IsUrl(s: string) {
    StartsWith(s, "http://") || StartsWith(s, "https://")
  }

  function ExternalRef(purl: Json): Json {
    Object(map["referenceCategory" := Str("PACKAGE-MANAGER"), "referenceType" := Str("purl"), "referenceLocator" := purl])
  }

  /** The fields of a generated package that the gate does not compare. */
  function Origin(item: Fields): Fields {
    var repository, empty: Fields := GetText(item, "repository"), map[];
    var origin := empty["SPDXID" := Str(SpdxId(GetText(item, "name")))]
      ["downloadLocation" := Str(if IsUrl(repository) then repository else "NOASSERTION")]
      ["filesAnalyzed" := Bool(false)]["copyrightText" := Str("NOASSERTION")];
    if Truthy(Get(item, "purl", Null)) then origin["externalRefs" := List([ExternalRef(item["purl"])])] else origin
  }

  function Checksum(digest: string): Json {
    Object(map["algorithm" := Str("SHA256"), "checksumValue" := Str(digest)])
  }

  /** The generator concludes NOASSERTION; a review of the licenses replaces that. */
  function SpdxPackage(item: Fields, concluded: Json): Fields {
    var package := Origin(item)["name" := Get(item, "name", Null)]["versionInfo" := Get(item, "revision", Null)]
      ["licenseDeclared" := Get(item, "license_spdx", Null)]["licenseConcluded" := concluded];
    var digest := GetText(item, "digest");
    if IsDigest(digest) then package["checksums" := List([Checksum(WithoutPrefix(digest))])] else package
  }

  function SpdxPackages(items: seq<Fields>, concluded: Json): seq<Json> {
    seq(|items|, i requires 0 <= i < |items| => Object(SpdxPackage(items[i], concluded)))
  }

  const PACKAGED_FIELDS: seq<string> := ["name", "repository", "revision", "digest", "license_spdx"]

  /** Name and digest are matched against regular expressions, and the repository's start is looked at. */
  predicate Packageable(item: Fields) {
    && HasAll(item, PACKAGED_FIELDS)
    && Get(item, "name", Null).Str? && Get(item, "repository", Null).Str? && Get(item, "digest", Null).Str?
  }

  /** The component has the five fields, and its name, repository and digest are texts. */
  predicate PackageReadable(item: Fields) {
    && "name" in item && "repository" in item && "revision" in item && "digest" in item && "license_spdx" in item
    && item["name"].Str? && item["repository"].Str? && item["digest"].Str?
  }

  /** The package a component gets, field by field. */
  ghost predicate PackageOf(item: Fields, p: Fields) {
    var repository, digest, purl := GetText(item, "repository"), GetText(item, "digest"), Get(item, "purl", Null);
    && Get(p, "name", Null) == Get(item, "name", Null) && Get(p, "versionInfo", Null) == Get(item, "revision", Null)
    && Get(p, "licenseDeclared", Null) == Get(item, "license_spdx", Null)
    && Get(p, "licenseConcluded", Null) == Str("NOASSERTION") && Get(p, "copyrightText", Null) == Str("NOASSERTION")
    && Get(p, "downloadLocation", Null) == Str(if "http://" <= repository || "https://" <= repository then repository else "NOASSERTION")
    && Get(p, "filesAnalyzed", Null) == Bool(false)
    && (IsDigest(digest) ==>
          Get(p, "checksums", Null) == List([Object(map["algorithm" := Str("SHA256"), "checksumValue" := Str(digest[7..])])]))
    && (Truthy(purl) ==> Get(p, "externalRefs", Null) == List([Object(map[
          "referenceCategory" := Str("PACKAGE-MANAGER"), "referenceType" := Str("purl"), "referenceLocator" := purl])]))
    && Get(p, "SPDXID", Null).Str? && IdOf(GetText(item, "name"), p["SPDXID"].chars)
  }

  /** The name behind a prefix, with every character but letters, digits, dots and dashes replaced by a dash. */
  predicate IdOf(name: string, id: string) {
    && |id| == 16 + |name| && id[..16] == "SPDXRef-Package-"
    && forall i :: 0 <= i < |name| ==>
         id[16 + i] == if 'A' <= name[i] <= 'Z' || 'a' <= name[i] <= 'z' || '0' <= name[i] <= '9' || name[i] == '.'
                       then name[i] else '-'
  }

  method SpdxDocumentPackages(items: seq<Fields>) returns (packages: seq<Json>, raised: bool)
    ensures raised <==> exists i :: 0 <= i < |items| && !PackageReadable(items[i])
    ensures !raised ==> packages == SpdxPackages(items, Str("NOASSERTION"))
    ensures !raised ==>
      |packages| == |items| && forall i :: 0 <= i < |items| ==> packages[i].Obj? && PackageOf(items[i], packages[i].fields)
  {
    packages, raised := [], false;
    for i := 0 to |items|
      invariant packages == SpdxPackages(items[..i], Str("NOASSERTION"))
      invariant forall k :: 0 <= k < i ==> PackageReadable(items[k])
    {
      PackageableExactly(items[i]);
      if !Packageable(items[i]) {
        return packages, true;
      }
      packages := packages + [Object(SpdxPackage(items[i], Str("NOASSERTION")))];
      assert items[..i + 1][..i] == items[..i] && items[..i + 1][i] == items[i];
    }
    assert items[..|items|] == items;
    PackagesAreOf(items);
  }

  lemma {:induction false} PackageKeysDiffer()
    ensures "name" != "versionInfo" && "name" != "licenseDeclared" && "name" != "licenseConcluded" && "name" != "checksums"
    ensures "versionInfo" != "licenseDeclared" && "versionInfo" != "licenseConcluded" && "versionInfo" != "checksums"
    ensures "licenseDeclared" != "licenseConcluded" && "licenseDeclared" != "checksums" && "licenseConcluded" != "checksums"
  {
    assert |"name"| == 4 && |"versionInfo"| == 11 && |"licenseDeclared"| == 15 && |"licenseConcluded"| == 16 && |"checksums"| == 9;
  }

  /** The fields of a generated package that the gate compares. */
  lemma {:induction false} PackageFields(item: Fields, concluded: Json)
    requires IsDigest(GetText(item, "digest"))
    ensures var p := SpdxPackage(item, concluded);
      && Get(p, "name", Str("")) == Get(item, "name", Null)
      && Get(p, "versionInfo", Str("")) == Get(item, "revision", Null)
      && Get(p, "licenseDeclared", Null) == Get(item, "license_spdx", Null)
      && Get(p, "licenseConcluded", Null) == concluded
      && Get(p, "checksums", Null) == List([Checksum(WithoutPrefix(GetText(item, "digest")))])
  {
    PackageKeysDiffer();
  }

  lemma {:induction false} OriginKeysDiffer()
    ensures "SPDXID" !in {"name", "versionInfo", "licenseDeclared", "licenseConcluded", "checksums", "externalRefs"}
    ensures "downloadLocation" !in {"name", "versionInfo", "licenseDeclared", "licenseConcluded", "checksums", "externalRefs"}
    ensures "SPDXID" != "downloadLocation" && "SPDXID" != "filesAnalyzed" && "SPDXID" != "copyrightText"
    ensures "downloadLocation" != "filesAnalyzed" && "downloadLocation" != "copyrightText"
  {
    assert |"SPDXID"| == 6 && |"downloadLocation"| == 16 && |"filesAnalyzed"| == |"copyrightText"| == 13 && |"externalRefs"| == 12;
    assert |"name"| == 4 && |"versionInfo"| == 11 && |"licenseDeclared"| == 15 && |"licenseConcluded"| == 16 && |"checksums"| == 9;
    assert "downloadLocation"[0] == 'd' && "licenseConcluded"[0] == 'l';
  }

  lemma {:induction false} PackageOrigin(item: Fields, concluded: Json)
    ensures var p, repository := SpdxPackage(item, concluded), GetText(item, "repository");
      && Get(p, "SPDXID", Null) == Str(SpdxId(GetText(item, "name")))
      && Get(p, "downloadLocation", Null)
         == Str(if "http://" <= repository || "https://" <= repository then repository else "NOASSERTION")
  {
    OriginIs(item);
    OriginKeysDiffer();
    PackageKeepsOrigin(item, concluded, "SPDXID");
    PackageKeepsOrigin(item, concluded, "downloadLocation");
  }

  lemma {:induction false} OriginIs(item: Fields)
    ensures var origin, repository := Origin(item), GetText(item, "repository");
      && Get(origin, "SPDXID", Null) == Str(SpdxId(GetText(item, "name")))
      && Get(origin, "downloadLocation", Null)
         == Str(if "http://" <= repository || "https://" <= repository then repository else "NOASSERTION")
  {
    OriginKeysDiffer();
  }

  lemma {:induction false} PackageKeepsOrigin(item: Fields, concluded: Json, key: string)
    requires key !in {"name", "versionInfo", "licenseDeclared", "licenseConcluded", "checksums"}
    ensures Get(SpdxPackage(item, concluded), key, Null) == Get(Origin(item), key, Null)
  {
  }

  lemma {:induction false} PackageRefers(item: Fields, concluded: Json)
    ensures var p, purl := SpdxPackage(item, concluded), Get(item, "purl", Null);
      && (Truthy(purl) ==> Get(p, "externalRefs", Null) == List([Object(map[
            "referenceCategory" := Str("PACKAGE-MANAGER"), "referenceType" := Str("purl"), "referenceLocator" := purl])]))
      && Get(p, "filesAnalyzed", Null) == Bool(false) && Get(p, "copyrightText", Null) == Str("NOASSERTION")
  {
    ReferenceKeysDiffer();
    PackageKeepsOrigin(item, concluded, "externalRefs");
    PackageKeepsOrigin(item, concluded, "filesAnalyzed");
    PackageKeepsOrigin(item, concluded, "copyrightText");
  }

  lemma {:induction false} ReferenceKeysDiffer()
    ensures "externalRefs" !in {"name", "versionInfo", "licenseDeclared", "licenseConcluded", "checksums", "filesAnalyzed", "copyrightText"}
    ensures "filesAnalyzed" !in {"name", "versionInfo", "licenseDeclared", "licenseConcluded", "checksums", "copyrightText"}
    ensures "copyrightText" !in {"name", "versionInfo", "licenseDeclared", "licenseConcluded", "checksums"}
  {
    assert |"filesAnalyzed"| == |"copyrightText"| == 13 && |"externalRefs"| == 12 && "filesAnalyzed"[0] == 'f' && "copyrightText"[0] == 'c';
    assert |"name"| == 4 && |"versionInfo"| == 11 && |"licenseDeclared"| == 15 && |"licenseConcluded"| == 16 && |"checksums"| == 9;
  }

  lemma {:induction false} IdIs(name: string)
    ensures IdOf(name, SpdxId(name))
  {
  }

  lemma {:induction false} PackageIsOf(item: Fields)
    ensures PackageOf(item, SpdxPackage(item, Str("NOASSERTION")))
  {
    PackageCompared(item, Str("NOASSERTION"));
    PackageOrigin(item, Str("NOASSERTION"));
    PackageRefers(item, Str("NOASSERTION"));
    IdIs(GetText(item, "name"));
  }

  lemma {:induction false} PackageCompared(item: Fields, concluded: Json)
    ensures var p, digest := SpdxPackage(item, concluded), GetText(item, "digest");
      && Get(p, "name", Null) == Get(item, "name", Null) && Get(p, "versionInfo", Null) == Get(item, "revision", Null)
      && Get(p, "licenseDeclared", Null) == Get(item, "license_spdx", Null) && Get(p, "licenseConcluded", Null) == concluded
      && (IsDigest(digest) ==>
            Get(p, "checksums", Null) == List([Object(map["algorithm" := Str("SHA256"), "checksumValue" := Str(digest[7..])])]))
  {
    PackageKeysDiffer();
  }

  lemma {:induction false} PackagesAreOf(items: seq<Fields>)
    ensures var packages := SpdxPackages(items, Str("NOASSERTION"));
      forall i :: 0 <= i < |items| ==> packages[i].Obj? && PackageOf(items[i], packages[i].fields)
  {
    forall i | 0 <= i < |items|
      ensures PackageOf(items[i], SpdxPackage(items[i], Str("NOASSERTION")))
    {
      PackageIsOf(items[i]);
    }
  }

  lemma {:induction false} ChecksumIsListed(t: Texts, package: Fields, digest: string)
    requires Get(package, "checksums", Null) == List([Checksum(digest)])
    ensures digest in Hashes(t, Spdx, package)
  {
    assert |"algorithm"| == 9 && |"checksumValue"| == 13;
    assert Checksum(digest) in Items(Get(package, "checksums", Null));
    assert Get(Checksum(digest).fields, "algorithm", Null) == Str("SHA256") && GetText(Checksum(digest).fields, "checksumValue") == digest;
  }

  /** A generated package agrees with its lock component, and its license is resolved exactly when the conclusion is. */
  lemma {:induction false} PackageAgrees(t: Texts, item: Json, index: nat, concluded: Json)
    requires Lawful(t) && LockItemOk(t, item, index)
    ensures var p := SpdxPackage(item.fields, concluded);
      && Agrees(t, Spdx, item.fields, p) && GetText(p, "name") == GetText(item.fields, "name")
      && (LicensesResolved(t, p) <==> concluded == Null || !Unresolved(t, concluded))
  {
    LockFieldsPresent(t, item, index);
    PackageFields(item.fields, concluded);
    ChecksumIsListed(t, SpdxPackage(item.fields, concluded), WithoutPrefix(GetText(item.fields, "digest")));
  }

  lemma {:induction false} PackagesAgree(t: Texts, lock: Fields, concluded: Json)
    requires Lawful(t) && LockOk(t, lock)
    ensures var ps := Objects(SpdxPackages(Locks(lock), concluded));
      && UniqueNames(t, ps) && LockMatches(t, Spdx, Some(lock), ps) && |ps| == |Locks(lock)|
      && forall i :: 0 <= i < |ps| ==> (LicensesResolved(t, ps[i]) <==> concluded == Null || !Unresolved(t, concluded))
  {
    LockIsDistinct(t, lock);
    var items, cs := Components(lock), Locks(lock);
    var ps := Objects(SpdxPackages(cs, concluded));
    ObjectsOfAll(SpdxPackages(cs, concluded));
    forall i | 0 <= i < |ps|
      ensures Agrees(t, Spdx, cs[i], ps[i]) && GetText(ps[i], "name") == GetText(cs[i], "name")
      ensures LicensesResolved(t, ps[i]) <==> concluded == Null || !Unresolved(t, concluded)
    {
      assert LockItemOk(t, items[i], i);
      PackageAgrees(t, items[i], i, concluded);
    }
    EntriesMatch(t, Spdx, lock, ps);
  }

  lemma {:induction false} SpdxVerdict(t: Texts, lock: Fields, sbom: Fields, packages: seq<Json>, resolved: bool)
    requires SpdxHeaderOk(sbom) && Get(sbom, "packages", Null) == List(packages) && packages != []
    requires UniqueNames(t, Objects(packages)) && LockMatches(t, Spdx, Some(lock), Objects(packages)) && Objects(packages) != []
    requires forall i :: 0 <= i < |Objects(packages)| ==> (LicensesResolved(t, Objects(packages)[i]) <==> resolved)
    ensures SpdxOk(t, Some(lock), Some(sbom)) <==> resolved
  {
    assert Objects(packages)[0] in Entries(sbom, "packages");
  }

  /**
   For every lock the gate accepts, the SPDX document generated from it with some license
   conclusion is accepted against that lock exactly when the conclusion is resolved.
   */
  lemma {:induction false} GeneratedSpdxVerdict(t: Texts, lock: Fields, sbom: Fields, concluded: Json)
    requires Lawful(t) && LockOk(t, lock)
    requires SpdxHeaderOk(sbom) && Get(sbom, "packages", Null) == List(SpdxPackages(Locks(lock), concluded))
    ensures SpdxOk(t, Some(lock), Some(sbom)) <==> concluded == Null || !Unresolved(t, concluded)
  {
    AcceptedLockIsNotEmpty(t, lock);
    LockIsDistinct(t, lock);
    PackagesAgree(t, lock, concluded);
    SpdxVerdict(t, lock, sbom, SpdxPackages(Locks(lock), concluded), concluded == Null || !Unresolved(t, concluded));
  }

  // ----------------------------------------------------- license gap report

  /** One unknown license declaration of one image. */
  datatype Finding = Finding(image: string, package: Fields)

  /** `str(item.get("purl") or item.get("name", "<unknown>"))` and `str(item.get("version") or "")`. */
  function GroupKey(f: Finding): (string, string) {
    var purl, version := Get(f.package, "purl", Null), Get(f.package, "version", Null);
    (Text(if Truthy(purl) then purl else Get(f.package, "name", Str("<unknown>"))),
     if Truthy(version) then Text(version) else "")
  }

  datatype Group = Group(name: string, images: set<string>, occurrences: nat)

  type Groups = map<(string, string), Group>

  function Findings(image: string, raws: seq<Json>): seq<Finding> {
    seq(|raws|, i requires 0 <= i < |raws| =>
      Finding(image, if raws[i].Obj? then raws[i].fields else map["name" := Str(Text(raws[i])), "version" := Str(""), "purl" := Null]))
  }

  /**
   Each declaration counts for its own image, in the group of its package URL, or of its name
   without one, and its version; one that is only a text is a name without version.
   */
  lemma {:induction false} GroupsByIdentity(image: string, raws: seq<Json>, i: nat)
    requires i < |raws|
    ensures |Findings(image, raws)| == |raws| && Findings(image, raws)[i].image == image
    ensures var key := GroupKey(Findings(image, raws)[i]);
      && (raws[i].Str? ==> key == (raws[i].chars, ""))
      && (raws[i].Obj? ==>
            var purl, name, version := Get(raws[i].fields, "purl", Null), Get(raws[i].fields, "name", Null), Get(raws[i].fields, "version", Null);
            && (purl.Str? && purl.chars != "" ==> key.0 == purl.chars)
            && (purl in {Null, Str("")} && name.Str? ==> key.0 == name.chars)
            && (purl in {Null, Str("")} && "name" !in raws[i].fields ==> key.0 == "<unknown>")
            && (version.Str? ==> key.1 == version.chars)
            && (version == Null ==> key.1 == ""))
  {
    assert |"name"| == |"purl"| == 4 && |"version"| == 7 && "name"[0] == 'n' && "purl"[0] == 'p';
  }

  function AllFindings(images: seq<(string, seq<Json>)>): seq<Finding> {
    if images == [] then [] else AllFindings(images[..|images| - 1]) + Findings(images[|images| - 1].0, images[|images| - 1].1)
  }

  function Count(fs: seq<Finding>, key: (string, string)): nat {
    if fs == [] then 0 else Count(fs[..|fs| - 1], key) + if GroupKey(fs[|fs| - 1]) == key then 1 else 0
  }

  predicate OccursIn(fs: seq<Finding>, image: string, key: (string, string)) {
    exists i :: 0 <= i < |fs| && fs[i].image == image && GroupKey(fs[i]) == key
  }

  /** The group of one key counts its findings and names exactly the images they come from. */
  ghost predicate GroupOk(groups: Groups, fs: seq<Finding>, key: (string, string)) {
    && (key in groups <==> Count(fs, key) > 0)
    && (key in groups ==> groups[key].occurrences == Count(fs, key))
    && (key in groups ==> forall image :: image in groups[key].images <==> OccursIn(fs, image, key))
  }

  ghost function Occurrences(groups: Groups): int {
    Total(map key | key in groups :: groups[key].occurrences)
  }

  ghost predicate Grouped(groups: Groups, fs: seq<Finding>) {
    Occurrences(groups) == |fs| && forall key :: GroupOk(groups, fs, key)
  }

  function AddFinding(groups: Groups, f: Finding): Groups {
    var key := GroupKey(f);
    var entry := if key in groups then groups[key] else Group(Text(Get(f.package, "name", Str("<unknown>"))), {}, 0);
    groups[key := entry.(images := entry.images + {f.image}, occurrences := entry.occurrences + 1)]
  }

  lemma {:induction false} AddedTotal(groups: Groups, f: Finding)
    ensures Occurrences(AddFinding(groups, f)) == Occurrences(groups) + 1
  {
    var after, key := AddFinding(groups, f), GroupKey(f);
    var a, b: map<(string, string), int> := map k | k in after :: after[k].occurrences, map k | k in groups :: groups[k].occurrences;
    TotalRemove(a, key);
    if key in groups {
      TotalRemove(b, key);
      assert a - {key} == b - {key};
    } else {
      assert a - {key} == b;
    }
  }

  lemma {:induction false} CountSnoc(fs: seq<Finding>, f: Finding, key: (string, string))
    ensures Count(fs + [f], key) == Count(fs, key) + if GroupKey(f) == key then 1 else 0
  {
    assert (fs + [f])[..|fs|] == fs;
  }

  lemma {:induction false} OccursSnoc(fs: seq<Finding>, f: Finding, image: string, key: (string, string))
    ensures OccursIn(fs + [f], image, key) <==> OccursIn(fs, image, key) || (f.image == image && GroupKey(f) == key)
  {
    var longer := fs + [f];
    assert forall i :: 0 <= i < |fs| ==> longer[i] == fs[i];
    assert longer[|fs|] == f;
  }

  lemma {:induction false} AddedGroup(groups: Groups, fs: seq<Finding>, f: Finding, key: (string, string))
    requires GroupOk(groups, fs, key)
    ensures GroupOk(AddFinding(groups, f), fs + [f], key)
  {
    CountSnoc(fs, f, key);
    forall image
      ensures OccursIn(fs + [f], image, key) <==> OccursIn(fs, image, key) || (f.image == image && GroupKey(f) == key)
      ensures OccursIn(fs, image, key) ==> Count(fs, key) > 0
    {
      OccursSnoc(fs, f, image, key);
      if OccursIn(fs, image, key) {
        var i :| 0 <= i < |fs| && fs[i].image == image && GroupKey(fs[i]) == key;
        CountHas(fs, i);
      }
    }
  }

  lemma {:induction false} AddedGroups(groups: Groups, fs: seq<Finding>, f: Finding)
    requires Grouped(groups, fs)
    ensures Grouped(AddFinding(groups, f), fs + [f])
  {
    AddedTotal(groups, f);
    forall key
      ensures GroupOk(AddFinding(groups, f), fs + [f], key)
    {
      assert GroupOk(groups, fs, key);
      AddedGroup(groups, fs, f, key);
    }
  }

  lemma {:induction false} CountHas(fs: seq<Finding>, i: nat)
    requires i < |fs|
    ensures Count(fs, GroupKey(fs[i])) > 0
    decreases |fs|
  {
    if i < |fs| - 1 {
      CountHas(fs[..|fs| - 1], i);
    }
  }

  method AddImage(groups: Groups, findings: seq<Finding>, ghost before: seq<Finding>) returns (grouped: Groups)
    requires Grouped(groups, before)
    ensures Grouped(grouped, before + findings)
  {
    grouped := groups;
    assert before + findings[..0] == before;
    for j := 0 to |findings|
      invariant Grouped(grouped, before + findings[..j])
    {
      AddedGroups(grouped, before + findings[..j], findings[j]);
      assert before + findings[..j] + [findings[j]] == before + findings[..j + 1];
      grouped := AddFinding(grouped, findings[j]);
    }
    assert findings[..|findings|] == findings;
  }

  /**
   The report counts every declaration once: the total is the number of declarations and
   the sum of the groups' occurrences, and each group names exactly the images it occurs in.
   */
  method ImageLicenseGaps(images: seq<(string, seq<Json>)>) returns (total: nat, grouped: Groups)
    ensures total == |AllFindings(images)| && Grouped(grouped, AllFindings(images))
  {
    total, grouped := 0, map[];
    for i := 0 to |images|
      invariant total == |AllFindings(images[..i])| && Grouped(grouped, AllFindings(images[..i]))
    {
      assert images[..i + 1][..i] == images[..i];
      var findings := Findings(images[i].0, images[i].1);
      grouped := AddImage(grouped, findings, AllFindings(images[..i]));
      total := total + |findings|;
    }
    assert images[..|images|] == images;
  }
}
