/**
 What the release gate (tools/compliance_gate.py) demands, spelled out on the JSON documents
 themselves: the words, fields and formats, and what a document that has them gets.
 */
module GateExactly {
  import opened Common
  import opened Json
  import opened Gate
  import opened GateAgreement
  import opened GateImages
  import opened GateApprovals
  import opened Candidate

  // ---------------------------------------------------------------- licenses

  /** A license text that, stripped and in upper case, is one of the seven words for an unknown one. */
  predicate Marked(t: Texts, license: Json) {
    license.Str? && Marker(t.upper(t.strip(license.chars)))
  }

  predicate Marker(text: string) {
    text in {"NOASSERTION", "NONE", "UNKNOWN", "TBD", "LICENSEREF-GENERIC-OPENSOURCE", "LICENSEREF-UNKNOWN",
             "LICENSEREF-UNSPECIFIED"}
  }

  lemma {:induction false} MarkersAre(text: string)
    ensures text in FORBIDDEN_LICENSE_MARKERS <==> Marker(text)
  {
    var ms := FORBIDDEN_LICENSE_MARKERS;
    assert ms[0] in ms && ms[1] in ms && ms[2] in ms && ms[3] in ms && ms[4] in ms && ms[5] in ms && ms[6] in ms;
  }

  lemma {:induction false} MarkersAreNotEmpty()
    ensures "" !in FORBIDDEN_LICENSE_MARKERS
  {
    MarkersAre("");
  }

  /** Of texts exactly the marked ones are unresolved; a missing or null license is not. */
  lemma {:induction false} MarkedIsUnresolved(t: Texts, license: Json)
    requires Lawful(t)
    ensures license.Str? ==> (Unresolved(t, license) <==> Marked(t, license))
    ensures license == Null ==> !Unresolved(t, license)
  {
    MarkersAreNotEmpty();
    if license.Str? {
      MarkersAre(t.upper(t.strip(license.chars)));
    }
  }

  /** No accepted lock has a component with a marked license. */
  lemma {:induction false} MarkedLockIsRefused(t: Texts, lock: Fields, i: nat)
    requires Lawful(t) && i < |Components(lock)| && Components(lock)[i].Obj?
    requires Marked(t, Get(Components(lock)[i].fields, "license_spdx", Null))
    ensures !LockOk(t, lock)
  {
    MarkedIsUnresolved(t, Get(Components(lock)[i].fields, "license_spdx", Null));
    assert LockOk(t, lock) ==> LockItemOk(t, Components(lock)[i], i);
  }

  /** No accepted SPDX list has a package whose declared or concluded license is marked. */
  lemma {:induction false} MarkedPackageIsRefused(t: Texts, lock: Option<Fields>, sbom: Fields, p: Fields)
    requires Lawful(t) && p in Entries(sbom, "packages")
    requires Marked(t, Get(p, "licenseDeclared", Null)) || Marked(t, Get(p, "licenseConcluded", Null))
    ensures !SpdxOk(t, lock, Some(sbom))
  {
    MarkedIsUnresolved(t, Get(p, "licenseDeclared", Null));
    MarkedIsUnresolved(t, Get(p, "licenseConcluded", Null));
    assert !LicensesResolved(t, p);
  }

  /** The entry an accepted manifest has for an image of the lock. */
  lemma {:induction false} ImageIsScanned(t: Texts, lock: Fields, manifest: Fields, files: Files, c: Fields)
    requires Lawful(t) && LockOk(t, lock) && ImagesOk(t, Some(lock), Some(manifest), files)
    requires c in Locks(lock) && Get(c, "kind", Null) == Str("oci-image")
    ensures var entries := ByName(t, Entries(manifest, "images"));
      NameKey(t, c) in entries && ImageOk(t, c, entries[NameKey(t, c)], files)
  {
    AcceptedLockIsNotEmpty(t, lock);
    LockIsDistinct(t, lock);
    OciImagesDistinct(t, Locks(lock));
    var cs := OciImages(Locks(lock));
    OciImagesAre(Locks(lock), c);
    var i :| 0 <= i < |cs| && cs[i] == c;
    ByNameIs(t, cs, i);
  }

  /** The SPDX file an accepted manifest names for an image of the lock has no package with a marked license. */
  lemma {:induction false} ImageLicenses(t: Texts, lock: Fields, manifest: Fields, files: Files, c: Fields, p: Fields)
    requires Lawful(t) && LockOk(t, lock) && ImagesOk(t, Some(lock), Some(manifest), files)
    requires c in Locks(lock) && Get(c, "kind", Null) == Str("oci-image")
    ensures var entries := ByName(t, Entries(manifest, "images"));
      && NameKey(t, c) in entries
      && var descriptor := Get(entries[NameKey(t, c)], "spdx", Null);
         && descriptor.Obj? && var file := files(GetText(descriptor.fields, "path"));
         && file.Present? && file.content.Some?
         && (p in Entries(file.content.value, "packages") ==> !Marked(t, Get(p, "licenseDeclared", Null)))
  {
    ImageIsScanned(t, lock, manifest, files, c);
    MarkedIsUnresolved(t, Get(p, "licenseDeclared", Null));
  }

  /** A package that states no license, or null, gets no error for it. */
  lemma {:induction false} MissingLicenseIsNoError(t: Texts, p: Fields)
    requires Lawful(t) && Get(p, "licenseDeclared", Null) == Null && Get(p, "licenseConcluded", Null) == Null
    ensures LicensesResolved(t, p)
  {
    MarkedIsUnresolved(t, Null);
  }

  /** A release that passes has no marked license in its lock or its SPDX list. */
  lemma {:induction false} PassingLicenses(t: Texts, k: Checks, e: Evidence)
    requires Lawful(t) && GateOk(t, k, e)
    ensures forall i :: 0 <= i < |Components(e.lock.value)| ==>
      && Components(e.lock.value)[i].Obj?
      && !Marked(t, Get(Components(e.lock.value)[i].fields, "license_spdx", Null))
    ensures forall p :: p in Entries(e.spdx.value, "packages") ==>
      !Marked(t, Get(p, "licenseDeclared", Null)) && !Marked(t, Get(p, "licenseConcluded", Null))
  {
    forall i | 0 <= i < |Components(e.lock.value)|
      ensures Components(e.lock.value)[i].Obj? && !Marked(t, Get(Components(e.lock.value)[i].fields, "license_spdx", Null))
    {
      assert LockItemOk(t, Components(e.lock.value)[i], i);
      MarkedIsUnresolved(t, Get(Components(e.lock.value)[i].fields, "license_spdx", Null));
    }
    forall p | p in Entries(e.spdx.value, "packages")
      ensures !Marked(t, Get(p, "licenseDeclared", Null)) && !Marked(t, Get(p, "licenseConcluded", Null))
    {
      assert LicensesResolved(t, p);
      MarkedIsUnresolved(t, Get(p, "licenseDeclared", Null));
      MarkedIsUnresolved(t, Get(p, "licenseConcluded", Null));
    }
  }

  /** The SPDX document the generator builds with its own NOASSERTION conclusion is refused for every accepted lock. */
  lemma {:induction false} NoAssertionIsRefused(t: Texts, lock: Fields, sbom: Fields)
    requires Lawful(t) && Standard(t) && LockOk(t, lock)
    requires SpdxHeaderOk(sbom) && Get(sbom, "packages", Null) == List(SpdxPackages(Locks(lock), Str("NOASSERTION")))
    ensures !SpdxOk(t, Some(lock), Some(sbom))
  {
    GeneratedSpdxVerdict(t, lock, sbom, Str("NOASSERTION"));
    MarkedIsUnresolved(t, Str("NOASSERTION"));
  }

  // ------------------------------------------------------------------- lock

  /** The field has a text that is none of the placeholders. */
  predicate Fixed(t: Texts, o: Fields, field: string) {
    t.upper(t.strip(GetText(o, field))) !in {"", "TBD", "UNSET", "UNKNOWN", "LATEST", "MAIN-LATEST"}
  }

  lemma {:induction false} PendingAre(text: string)
    ensures text in PENDING <==> text in {"", "TBD", "UNSET", "UNKNOWN", "LATEST", "MAIN-LATEST"}
  {
    var ps := PENDING;
    assert ps[0] in ps && ps[1] in ps && ps[2] in ps && ps[3] in ps && ps[4] in ps && ps[5] in ps;
  }

  lemma {:induction false} PinnedIsFixed(t: Texts, o: Fields, i: nat)
    requires i < |LOCK_FIELDS|
    ensures Pinned(t, o, LOCK_FIELDS[i]) <==> Fixed(t, o, LOCK_FIELDS[i])
  {
    PendingAre(t.upper(t.strip(GetText(o, LOCK_FIELDS[i]))));
  }

  /** The twelve fields every component must fix. */
  lemma {:induction false} TwelveFields(t: Texts, o: Fields)
    ensures AllPinned(t, o, |LOCK_FIELDS|) <==>
      && Fixed(t, o, "name") && Fixed(t, o, "kind") && Fixed(t, o, "repository") && Fixed(t, o, "revision")
      && Fixed(t, o, "artifact") && Fixed(t, o, "digest") && Fixed(t, o, "license_spdx")
      && Fixed(t, o, "license_text_sha256") && Fixed(t, o, "license_path") && Fixed(t, o, "owner")
      && Fixed(t, o, "distribution_mode") && Fixed(t, o, "source_obligation")
  {
    assert |LOCK_FIELDS| == 12;
    forall i | 0 <= i < 12
      ensures Pinned(t, o, LOCK_FIELDS[i]) <==> Fixed(t, o, LOCK_FIELDS[i])
    {
      PinnedIsFixed(t, o, i);
    }
    FieldNames();
  }

  lemma {:induction false} FieldNames()
    ensures LOCK_FIELDS[0] == "name" && LOCK_FIELDS[1] == "kind" && LOCK_FIELDS[2] == "repository"
    ensures LOCK_FIELDS[3] == "revision" && LOCK_FIELDS[4] == "artifact" && LOCK_FIELDS[5] == "digest"
    ensures LOCK_FIELDS[6] == "license_spdx" && LOCK_FIELDS[7] == "license_text_sha256" && LOCK_FIELDS[8] == "license_path"
    ensures LOCK_FIELDS[9] == "owner" && LOCK_FIELDS[10] == "distribution_mode" && LOCK_FIELDS[11] == "source_obligation"
  {
  }

  /** 64 hexadecimal digits in lower case. */
  predicate Sha(text: string) {
    |text| == 64 && forall i :: 0 <= i < 64 ==> text[i] in {'0', '1', '2', '3', '4', '5', '6', '7', '8', '9', 'a', 'b', 'c', 'd', 'e', 'f'}
  }

  lemma {:induction false} HexIsSha(text: string)
    ensures IsHex64(text) <==> Sha(text)
    ensures IsDigest("sha256:" + text) <==> Sha(text)
    ensures IsDigest(text) ==> text == "sha256:" + text[7..]
  {
    assert ("sha256:" + text)[7..] == text && ("sha256:" + text)[..7] == "sha256:";
  }

  predicate ShaDigest(text: string) {
    |text| == 71 && text[..7] == "sha256:" && Sha(text[7..])
  }

  /** What the gate demands of one component of the lock. */
  ghost predicate ComponentGood(t: Texts, item: Json) {
    item.Obj? && var o := item.fields;
    && Fixed(t, o, "name") && Fixed(t, o, "kind") && Fixed(t, o, "repository") && Fixed(t, o, "revision")
    && Fixed(t, o, "artifact") && Fixed(t, o, "digest") && Fixed(t, o, "license_spdx")
    && Fixed(t, o, "license_text_sha256") && Fixed(t, o, "license_path") && Fixed(t, o, "owner")
    && Fixed(t, o, "distribution_mode") && Fixed(t, o, "source_obligation")
    && ShaDigest(GetText(o, "digest"))
    && (t.upper(GetText(o, "license_text_sha256")) in {"", "TBD", "UNSET", "UNKNOWN", "LATEST", "MAIN-LATEST"}
        || Sha(GetText(o, "license_text_sha256")))
    && (Truthy(Get(o, "license_spdx", Null)) ==> !Marker(t.upper(t.strip(GetText(o, "license_spdx")))))
    && (Get(o, "kind", Null) == Str("oci-image") && "atlantis-" <= t.fold(t.strip(GetText(o, "name"))) ==>
          t.published(GetText(o, "repository")))
    && !t.latest(o) && !Mentions(t, item)
  }

  lemma {:induction false} FixedIsPresent(t: Texts, o: Fields, field: string)
    requires Lawful(t) && Fixed(t, o, field)
    ensures field in o && GetText(o, field) != "" && GetText(o, field) == Text(o[field])
  {
  }

  lemma {:induction false} LicenseOfComponent(t: Texts, o: Fields)
    requires Lawful(t) && "license_spdx" in o
    ensures Unresolved(t, Get(o, "license_spdx", Null))
       <==> Truthy(Get(o, "license_spdx", Null)) && Marker(t.upper(t.strip(GetText(o, "license_spdx"))))
  {
    MarkersAre(t.upper(t.strip(GetText(o, "license_spdx"))));
    MarkersAreNotEmpty();
  }

  lemma {:induction false} DigestOfComponent(o: Fields)
    requires GetText(o, "digest") != ""
    ensures (GetText(o, "digest") != "" ==> IsDigest(GetText(o, "digest"))) <==> ShaDigest(GetText(o, "digest"))
  {
    var digest := GetText(o, "digest");
    if |digest| == 71 {
      HexIsSha(digest[7..]);
    }
  }

  lemma {:induction false} LicenseDigestOfComponent(t: Texts, o: Fields)
    requires Lawful(t)
    ensures LicenseDigestOk(t, o) <==>
      || t.upper(GetText(o, "license_text_sha256")) in {"", "TBD", "UNSET", "UNKNOWN", "LATEST", "MAIN-LATEST"}
      || Sha(GetText(o, "license_text_sha256"))
  {
    PendingAre(t.upper(GetText(o, "license_text_sha256")));
    HexIsSha(GetText(o, "license_text_sha256"));
  }

  /** The gate reports nothing about a component exactly when it is good. */
  lemma {:induction false} ComponentGoodExactly(t: Texts, item: Json, index: nat)
    requires Lawful(t)
    ensures LockItemOk(t, item, index) <==> ComponentGood(t, item)
  {
    if item.Obj? {
      var o := item.fields;
      TwelveFields(t, o);
      if Fixed(t, o, "name") && Fixed(t, o, "digest") && Fixed(t, o, "license_spdx") {
        FixedIsPresent(t, o, "name");
        FixedIsPresent(t, o, "digest");
        FixedIsPresent(t, o, "license_spdx");
        LicenseOfComponent(t, o);
        DigestOfComponent(o);
        LicenseDigestOfComponent(t, o);
      }
    }
  }

  /** The lock is accepted exactly when it says approved and holds good components of distinct stripped, case-folded names. */
  lemma {:induction false} LockGoodExactly(t: Texts, lock: Fields)
    requires Lawful(t)
    ensures LockOk(t, lock) <==>
      && Get(lock, "release_status", Null) == Str("approved")
      && Get(lock, "components", Null).Arr? && var items := lock["components"].items;
      && items != [] && (forall i :: 0 <= i < |items| ==> ComponentGood(t, items[i]))
      && forall i, j :: 0 <= i < j < |items| ==>
           t.fold(t.strip(GetText(items[i].fields, "name"))) != t.fold(t.strip(GetText(items[j].fields, "name")))
  {
    if Get(lock, "components", Null).Arr? {
      var items := lock["components"].items;
      assert Components(lock) == items;
      forall i | 0 <= i < |items|
        ensures LockItemOk(t, items[i], i) <==> ComponentGood(t, items[i])
        ensures ComponentGood(t, items[i]) ==> LockKey(t, items[i], i) == t.fold(t.strip(GetText(items[i].fields, "name")))
      {
        ComponentGoodExactly(t, items[i], i);
        if ComponentGood(t, items[i]) {
          FixedIsPresent(t, items[i].fields, "name");
        }
      }
    }
  }

  // -------------------------------------------------------------- both lists

  lemma {:induction false} AgreeingEntryMatches(t: Texts, format: Format, cs: seq<Fields>, es: seq<Fields>, i: nat)
    requires Lawful(t) && i < |cs| && Named(cs[i])
    requires DistinctNames(t, es) && SameNames(t, cs, es) && EntriesAgree(t, format, cs, es)
    ensures Matched(t, format, cs[i], es)
  {
    assert HasName(t, cs, NameKey(t, cs[i]));
    var j :| 0 <= j < |es| && Named(es[j]) && NameKey(t, es[j]) == NameKey(t, cs[i]);
    ByNameIs(t, es, j);
  }

  lemma {:induction false} AgreeingListIsAccepted(t: Texts, format: Format, lock: Fields, es: seq<Fields>)
    requires Lawful(t) && LockOk(t, lock)
    requires DistinctNames(t, es) && SameNames(t, Locks(lock), es) && EntriesAgree(t, format, Locks(lock), es)
    ensures Matches(t, format, Components(lock), es)
  {
    LockIsDistinct(t, lock);
    var cs, items := Locks(lock), Components(lock);
    forall i | 0 <= i < |items|
      ensures items[i].Obj? && Matched(t, format, items[i].fields, es)
    {
      AgreeingEntryMatches(t, format, cs, es, i);
    }
    forall j | 0 <= j < |es|
      ensures Gate.Locked(t, cs, es[j])
    {
      if Named(es[j]) {
        assert HasName(t, es, NameKey(t, es[j]));
      }
    }
  }

  /** Against an accepted lock a list is accepted exactly when its names are distinct, are the lock's, and its entries agree. */
  lemma {:induction false} ListGoodExactly(t: Texts, format: Format, lock: Fields, es: seq<Fields>)
    requires Lawful(t) && LockOk(t, lock)
    ensures UniqueNames(t, es) && LockMatches(t, format, Some(lock), es) <==>
      DistinctNames(t, es) && SameNames(t, Locks(lock), es) && EntriesAgree(t, format, Locks(lock), es)
  {
    AcceptedLockIsNotEmpty(t, lock);
    UniqueExactly(t, es);
    if UniqueNames(t, es) && Matches(t, format, Components(lock), es) {
      ListAgreesWithLock(t, format, lock, es);
    }
    if DistinctNames(t, es) && SameNames(t, Locks(lock), es) && EntriesAgree(t, format, Locks(lock), es) {
      AgreeingListIsAccepted(t, format, lock, es);
    }
  }

  /** A CycloneDX entry states its component: its version, one SHA-256 hash and one declared license are the component's. */
  ghost predicate CdxStates(t: Texts, c: Fields, e: Fields) {
    && GetText(e, "version") == GetText(c, "revision")
    && (exists x :: x in Items(Get(e, "hashes", Null)) && HashIs(t, x, "alg", "content", c))
    && (exists x :: x in Items(Get(e, "licenses", Null)) && Declares(x, GetText(c, "license_spdx")))
  }

  lemma {:induction false} CdxEntryAgrees(t: Texts, c: Fields, e: Fields)
    ensures Agrees(t, CycloneDx, c, e) <==> CdxStates(t, c, e)
  {
    var hashes := Items(Get(e, "hashes", Null));
    DeclaredAre(Items(Get(e, "licenses", Null)), GetText(c, "license_spdx"));
    assert DigestAgrees(t, CycloneDx, c, e) <==> exists x :: x in hashes && HashIs(t, x, "alg", "content", c);
  }

  /** The value is an object naming SHA-256 and holding the component's digest without its prefix. */
  predicate HashIs(t: Texts, x: Json, algorithm: string, value: string, c: Fields) {
    && x.Obj? && t.upper(GetText(x.fields, algorithm)) in {"SHA-256", "SHA_256"}
    && GetText(x.fields, value) == (if "sha256:" <= GetText(c, "digest") then GetText(c, "digest")[7..] else GetText(c, "digest"))
  }

  /** The license choice has this expression, or this identifier. */
  predicate Declares(x: Json, license: string) {
    x.Obj? && (
      || (Truthy(Get(x.fields, "expression", Null)) && GetText(x.fields, "expression") == license)
      || (Get(x.fields, "license", Null).Obj? && Truthy(Get(x.fields["license"].fields, "id", Null))
          && GetText(x.fields["license"].fields, "id") == license))
  }

  lemma {:induction false} DeclaredAre(choices: seq<Json>, license: string)
    ensures license in Declared(choices) <==> exists x :: x in choices && Declares(x, license)
    decreases |choices|
  {
    if choices != [] {
      var rest, last := choices[..|choices| - 1], choices[|choices| - 1];
      DeclaredAre(rest, license);
      assert forall x :: x in choices <==> x in rest || x == last by {
        assert choices == rest + [last];
      }
      assert license in Declared(choices) <==> license in Declared(rest) || Declares(last, license);
    }
  }

  /** An SPDX package states its component: its version, one SHA256 checksum and the declared license are the component's. */
  ghost predicate SpdxStates(c: Fields, p: Fields) {
    && GetText(p, "versionInfo") == GetText(c, "revision")
    && (exists x :: x in Items(Get(p, "checksums", Null)) && ChecksumIs(x, c))
    && Get(p, "licenseDeclared", Null) == Get(c, "license_spdx", Null)
  }

  lemma {:induction false} SpdxEntryAgrees(t: Texts, c: Fields, p: Fields)
    ensures Agrees(t, Spdx, c, p) <==> SpdxStates(c, p)
  {
    var checksums := Items(Get(p, "checksums", Null));
    assert DigestAgrees(t, Spdx, c, p) <==> exists x :: x in checksums && ChecksumIs(x, c);
  }

  predicate ChecksumIs(x: Json, c: Fields) {
    && x.Obj? && Get(x.fields, "algorithm", Null) == Str("SHA256")
    && GetText(x.fields, "checksumValue")
       == (if "sha256:" <= GetText(c, "digest") then GetText(c, "digest")[7..] else GetText(c, "digest"))
  }

  /** The entries are those of these components: the same names, each once, and each states its component. */
  ghost predicate CdxDescribes(t: Texts, cs: seq<Fields>, es: seq<Fields>) {
    && DistinctNames(t, es) && SameNames(t, cs, es)
    && forall i, j :: 0 <= i < |cs| && 0 <= j < |es| && Named(es[j]) && NameKey(t, cs[i]) == NameKey(t, es[j]) ==>
         CdxStates(t, cs[i], es[j])
  }

  ghost predicate SpdxDescribes(t: Texts, cs: seq<Fields>, ps: seq<Fields>) {
    && DistinctNames(t, ps) && SameNames(t, cs, ps)
    && forall i, j :: 0 <= i < |cs| && 0 <= j < |ps| && Named(ps[j]) && NameKey(t, cs[i]) == NameKey(t, ps[j]) ==>
         SpdxStates(cs[i], ps[j])
  }

  lemma {:induction false} DescribesExactly(t: Texts, cs: seq<Fields>, es: seq<Fields>)
    ensures CdxDescribes(t, cs, es) <==> DistinctNames(t, es) && SameNames(t, cs, es) && EntriesAgree(t, CycloneDx, cs, es)
    ensures SpdxDescribes(t, cs, es) <==> DistinctNames(t, es) && SameNames(t, cs, es) && EntriesAgree(t, Spdx, cs, es)
  {
    forall i, j | 0 <= i < |cs| && 0 <= j < |es|
      ensures Agrees(t, CycloneDx, cs[i], es[j]) <==> CdxStates(t, cs[i], es[j])
      ensures Agrees(t, Spdx, cs[i], es[j]) <==> SpdxStates(cs[i], es[j])
    {
      CdxEntryAgrees(t, cs[i], es[j]);
      SpdxEntryAgrees(t, cs[i], es[j]);
    }
  }

  /** The CycloneDX list is accepted against an accepted lock exactly when it has the format's header and describes the lock. */
  lemma {:induction false} CdxGoodExactly(t: Texts, lock: Fields, sbom: Fields)
    requires Lawful(t) && LockOk(t, lock)
    ensures CdxOk(t, Some(lock), Some(sbom)) <==>
      && Get(sbom, "bomFormat", Null) == Str("CycloneDX") && Get(sbom, "specVersion", Null) == Str("1.6")
      && Items(Get(sbom, "components", Null)) != [] && !Mentions(t, Get(sbom, "components", Null))
      && CdxDescribes(t, Locks(lock), Entries(sbom, "components"))
  {
    ListGoodExactly(t, CycloneDx, lock, Entries(sbom, "components"));
    DescribesExactly(t, Locks(lock), Entries(sbom, "components"));
  }

  /** No package leaves a license open. */
  predicate AllStated(t: Texts, ps: seq<Fields>) {
    forall p :: p in ps ==> Stated(t, Get(p, "licenseDeclared", Null)) && Stated(t, Get(p, "licenseConcluded", Null))
  }

  lemma {:induction false} AllStatedExactly(t: Texts, ps: seq<Fields>)
    requires Lawful(t)
    ensures AllStated(t, ps) <==> forall p :: p in ps ==> LicensesResolved(t, p)
  {
    forall p | p in ps
      ensures LicensesResolved(t, p) <==> Stated(t, Get(p, "licenseDeclared", Null)) && Stated(t, Get(p, "licenseConcluded", Null))
    {
      StatedIsResolved(t, Get(p, "licenseDeclared", Null));
      StatedIsResolved(t, Get(p, "licenseConcluded", Null));
    }
  }

  lemma {:induction false} SpdxListExactly(t: Texts, lock: Fields, ps: seq<Fields>)
    requires Lawful(t) && LockOk(t, lock)
    ensures UniqueNames(t, ps) && LockMatches(t, Spdx, Some(lock), ps) <==> SpdxDescribes(t, Locks(lock), ps)
  {
    ListGoodExactly(t, Spdx, lock, ps);
    DescribesExactly(t, Locks(lock), ps);
  }

  /** Likewise the SPDX list, which also must not leave a license open. */
  lemma {:induction false} SpdxGoodExactly(t: Texts, lock: Fields, sbom: Fields)
    requires Lawful(t) && LockOk(t, lock)
    ensures SpdxOk(t, Some(lock), Some(sbom)) <==>
      && Get(sbom, "spdxVersion", Null) == Str("SPDX-2.3") && Get(sbom, "dataLicense", Null) == Str("CC0-1.0")
      && Get(sbom, "SPDXID", Null) == Str("SPDXRef-DOCUMENT")
      && Items(Get(sbom, "packages", Null)) != []
      && SpdxDescribes(t, Locks(lock), Entries(sbom, "packages")) && AllStated(t, Entries(sbom, "packages"))
  {
    SpdxListExactly(t, lock, Entries(sbom, "packages"));
    AllStatedExactly(t, Entries(sbom, "packages"));
  }

  /** A license value that is missing or false in Python's sense, or whose text is no marker. */
  predicate Stated(t: Texts, license: Json) {
    Truthy(license) ==> !Marker(t.upper(t.strip(Text(license))))
  }

  lemma {:induction false} StatedIsResolved(t: Texts, license: Json)
    requires Lawful(t)
    ensures !Unresolved(t, license) <==> Stated(t, license)
  {
    MarkersAreNotEmpty();
    MarkersAre(t.upper(t.strip(Text(license))));
  }

  // ------------------------------------------------------------------ images

  /** The file the descriptor names is there, has the recorded digest and is a list of this format without the forbidden word. */
  ghost predicate FileGood(t: Texts, entry: Fields, format: string, header: string, version: string, collection: string, files: Files) {
    var descriptor := Get(entry, format, Null);
    descriptor.Obj? && var file := files(GetText(descriptor.fields, "path"));
    && file.Present? && Get(descriptor.fields, "sha256", Null) == Str(file.sha256)
    && file.content.Some? && var data := file.content.value;
    && Get(data, header, Null) == Str(version)
    && Items(Get(data, collection, Null)) != [] && !Mentions(t, Get(data, collection, Null))
    && (format == "spdx" ==> forall p :: p in Entries(data, "packages") ==> Stated(t, Get(p, "licenseDeclared", Null)))
  }

  ghost predicate ImageGood(t: Texts, c: Fields, entry: Fields, files: Files) {
    && Get(entry, "image_id", Null) == Get(c, "digest", Null)
    && FileGood(t, entry, "cyclonedx", "bomFormat", "CycloneDX", "components", files)
    && FileGood(t, entry, "spdx", "spdxVersion", "SPDX-2.3", "packages", files)
  }

  lemma {:induction false} ImageGoodExactly(t: Texts, c: Fields, entry: Fields, files: Files)
    requires Lawful(t)
    ensures ImageOk(t, c, entry, files) <==> ImageGood(t, c, entry, files)
  {
    CdxFileExactly(t, entry, files);
    SpdxFileExactly(t, entry, files);
  }

  lemma {:induction false} CdxFileExactly(t: Texts, entry: Fields, files: Files)
    ensures DescriptorOk(t, CycloneDx, entry, files)
       <==> FileGood(t, entry, "cyclonedx", "bomFormat", "CycloneDX", "components", files)
  {
  }

  lemma {:induction false} SpdxFileExactly(t: Texts, entry: Fields, files: Files)
    requires Lawful(t)
    ensures DescriptorOk(t, Spdx, entry, files)
       <==> FileGood(t, entry, "spdx", "spdxVersion", "SPDX-2.3", "packages", files)
  {
    var descriptor := Get(entry, "spdx", Null);
    if descriptor.Obj? && files(GetText(descriptor.fields, "path")).Present?
       && files(GetText(descriptor.fields, "path")).content.Some?
    {
      var data := files(GetText(descriptor.fields, "path")).content.value;
      forall p | p in Entries(data, "packages")
        ensures !Unresolved(t, Get(p, "licenseDeclared", Null)) <==> Stated(t, Get(p, "licenseDeclared", Null))
      {
        StatedIsResolved(t, Get(p, "licenseDeclared", Null));
      }
    }
  }

  predicate ScannerGood(t: Texts, manifest: Fields) {
    var scanner := Get(manifest, "scanner", Null);
    && scanner.Obj? && t.strip(GetText(scanner.fields, "name")) != ""
    && t.upper(GetText(scanner.fields, "version")) !in {"", "TBD", "UNSET", "UNKNOWN", "LATEST", "MAIN-LATEST"}
    && Sha(GetText(scanner.fields, "sha256"))
  }

  /** The component of the lock is an image. */
  predicate IsOci(c: Fields) {
    Get(c, "kind", Null) == Str("oci-image")
  }

  /** One of the entries is for this component and good. */
  ghost predicate WellScanned(t: Texts, c: Fields, es: seq<Fields>, files: Files) {
    exists e :: e in es && NameKey(t, e) == NameKey(t, c) && ImageGood(t, c, e, files)
  }

  /** The entry is for an image of the lock. */
  ghost predicate OfImage(t: Texts, cs: seq<Fields>, e: Fields) {
    exists c :: c in cs && IsOci(c) && NameKey(t, e) == NameKey(t, c)
  }

  /**
   Against an accepted lock the image manifest is accepted exactly when a fixed scanner wrote
   it, its entries have distinct names, each image of the lock has a good entry, and each
   entry is of an image of the lock.
   */
  lemma {:induction false} ImagesGoodExactly(t: Texts, lock: Fields, manifest: Fields, files: Files)
    requires Lawful(t) && LockOk(t, lock)
    ensures ImagesOk(t, Some(lock), Some(manifest), files) <==>
      && ScannerGood(t, manifest) && Get(manifest, "images", Null).Arr?
      && var es := Entries(manifest, "images");
         && DistinctNames(t, es)
         && (forall c :: c in Locks(lock) && IsOci(c) ==> WellScanned(t, c, es, files))
         && (forall e :: e in es ==> OfImage(t, Locks(lock), e))
  {
    var es := Entries(manifest, "images");
    AcceptedLockIsNotEmpty(t, lock);
    UniqueExactly(t, es);
    ScannerExactly(t, manifest);
    if DistinctNames(t, es) {
      EntriesExactly(t, lock, es, files);
    }
  }

  lemma {:induction false} UniqueExactly(t: Texts, es: seq<Fields>)
    requires Lawful(t)
    ensures UniqueNames(t, es) <==> DistinctNames(t, es)
  {
  }

  lemma {:induction false} ScannerExactly(t: Texts, manifest: Fields)
    ensures ScannerOk(t, manifest) <==> ScannerGood(t, manifest)
  {
    var scanner := Get(manifest, "scanner", Null);
    if scanner.Obj? {
      PendingAre(t.upper(GetText(scanner.fields, "version")));
      HexIsSha(GetText(scanner.fields, "sha256"));
    }
  }

  /** The two dictionaries the gate compares say the same as the entries do. */
  lemma {:induction false} EntriesExactly(t: Texts, lock: Fields, es: seq<Fields>, files: Files)
    requires Lawful(t) && LockOk(t, lock) && DistinctNames(t, es)
    ensures var oci, scanned := ByName(t, OciImages(Locks(lock))), ByName(t, es);
      EachScanned(t, oci, scanned, files) && scanned.Keys <= oci.Keys <==>
        && (forall c :: c in Locks(lock) && IsOci(c) ==> WellScanned(t, c, es, files))
        && (forall e :: e in es ==> OfImage(t, Locks(lock), e))
  {
    ScannedExactly(t, lock, es, files);
    NoStrangersExactly(t, lock, es);
  }

  lemma {:induction false} ScannedExactly(t: Texts, lock: Fields, es: seq<Fields>, files: Files)
    requires Lawful(t) && LockOk(t, lock) && DistinctNames(t, es)
    ensures EachScanned(t, ByName(t, OciImages(Locks(lock))), ByName(t, es), files)
       <==> forall c :: c in Locks(lock) && IsOci(c) ==> WellScanned(t, c, es, files)
  {
    var oci, scanned := ByName(t, OciImages(Locks(lock))), ByName(t, es);
    forall c | c in Locks(lock) && IsOci(c)
      ensures NameKey(t, c) in oci && oci[NameKey(t, c)] == c
      ensures WellScanned(t, c, es, files) <==> NameKey(t, c) in scanned && ImageOk(t, c, scanned[NameKey(t, c)], files)
    {
      LockedImage(t, lock, c);
      WellScannedExactly(t, c, es, files);
    }
    forall key
      ensures key in oci ==> oci[key] in Locks(lock) && IsOci(oci[key]) && NameKey(t, oci[key]) == key
    {
      KeyOfImage(t, lock, key);
    }
  }

  lemma {:induction false} NoStrangersExactly(t: Texts, lock: Fields, es: seq<Fields>)
    requires Lawful(t) && LockOk(t, lock)
    ensures ByName(t, es).Keys <= ByName(t, OciImages(Locks(lock))).Keys <==> forall e :: e in es ==> OfImage(t, Locks(lock), e)
  {
    var oci, scanned := ByName(t, OciImages(Locks(lock))), ByName(t, es);
    forall e | e in es
      ensures NameKey(t, e) in scanned && (OfImage(t, Locks(lock), e) <==> NameKey(t, e) in oci)
    {
      OfImageExactly(t, lock, e);
      ByNameHolds(t, es, NameKey(t, e));
    }
    forall key | key in scanned
      ensures exists e :: e in es && NameKey(t, e) == key
    {
      ByNameHolds(t, es, key);
    }
  }

  lemma {:induction false} LockedImage(t: Texts, lock: Fields, c: Fields)
    requires Lawful(t) && LockOk(t, lock) && c in Locks(lock) && IsOci(c)
    ensures var oci := ByName(t, OciImages(Locks(lock))); NameKey(t, c) in oci && oci[NameKey(t, c)] == c && Named(c)
  {
    LockIsDistinct(t, lock);
    OciImagesDistinct(t, Locks(lock));
    var cs := OciImages(Locks(lock));
    OciImagesAre(Locks(lock), c);
    var i :| 0 <= i < |cs| && cs[i] == c;
    ByNameIs(t, cs, i);
  }

  lemma {:induction false} KeyOfImage(t: Texts, lock: Fields, key: string)
    ensures var oci := ByName(t, OciImages(Locks(lock)));
      key in oci ==> oci[key] in Locks(lock) && IsOci(oci[key]) && NameKey(t, oci[key]) == key
  {
    var cs := OciImages(Locks(lock));
    ByNameHolds(t, cs, key);
    if key in ByName(t, cs) {
      OciImagesAre(Locks(lock), ByName(t, cs)[key]);
    }
  }

  lemma {:induction false} WellScannedExactly(t: Texts, c: Fields, es: seq<Fields>, files: Files)
    requires Lawful(t) && DistinctNames(t, es) && Named(c)
    ensures WellScanned(t, c, es, files)
       <==> NameKey(t, c) in ByName(t, es) && ImageOk(t, c, ByName(t, es)[NameKey(t, c)], files)
  {
    var scanned, key := ByName(t, es), NameKey(t, c);
    ByNameHolds(t, es, key);
    if key in scanned {
      ImageGoodExactly(t, c, scanned[key], files);
    }
    if e :| e in es && NameKey(t, e) == key && ImageGood(t, c, e, files) {
      var j :| 0 <= j < |es| && es[j] == e;
      ByNameIs(t, es, j);
    }
  }

  lemma {:induction false} OfImageExactly(t: Texts, lock: Fields, e: Fields)
    requires Lawful(t) && LockOk(t, lock)
    ensures OfImage(t, Locks(lock), e) <==> NameKey(t, e) in ByName(t, OciImages(Locks(lock)))
  {
    KeyOfImage(t, lock, NameKey(t, e));
    if c :| c in Locks(lock) && IsOci(c) && NameKey(t, e) == NameKey(t, c) {
      LockedImage(t, lock, c);
    }
  }

  // ------------------------------------------------------------- attestation

  /** One approval: a known role and a signer, signed in time with a trusted key over subject and artifacts. */
  predicate ApprovalGood(t: Texts, k: Checks, a: Fields, attestation: Fields) {
    var (role, signedAt, encoded) := (t.fold(GetText(a, "role")), t.strip(GetText(a, "signed_at")), t.strip(GetText(a, "signature_base64")));
    && role in {"release", "security", "legal"} && t.strip(GetText(a, "signer")) != "" && signedAt != "" && encoded != ""
    && k.timestamp(signedAt) && k.trusted(role) && k.base64(encoded)
    && k.signed(role, encoded, GateApprovals.Payload(Get(attestation, "subject", Null), Get(attestation, "artifacts", Null)))
  }

  lemma {:induction false} ApprovalGoodExactly(t: Texts, k: Checks, a: Fields, attestation: Fields)
    ensures ApprovalOk(t, k, a, PayloadOf(attestation)) <==> ApprovalGood(t, k, a, attestation)
  {
  }

  /** Three good approvals in different roles, by different signers. */
  predicate ThreeGood(t: Texts, k: Checks, es: seq<Fields>, attestation: Fields) {
    && |es| == 3 && (forall i :: 0 <= i < 3 ==> ApprovalGood(t, k, es[i], attestation))
    && (forall i, j :: 0 <= i < j < 3 ==> t.fold(GetText(es[i], "role")) != t.fold(GetText(es[j], "role")))
    && (forall i, j :: 0 <= i < j < 3 ==> t.fold(t.strip(GetText(es[i], "signer"))) != t.fold(t.strip(GetText(es[j], "signer"))))
  }

  /** The approvals are accepted exactly when there are three good ones, one for each role, by distinct signers. */
  lemma {:induction false} ApprovalsGoodExactly(t: Texts, k: Checks, attestation: Fields)
    requires Lawful(t)
    ensures ApprovalListOk(t, k, attestation) <==>
      Get(attestation, "approvals", Null).Arr? && ThreeGood(t, k, Entries(attestation, "approvals"), attestation)
  {
    var es := Entries(attestation, "approvals");
    if ApprovalListOk(t, k, attestation) {
      ExactlyThreeApprovals(t, k, attestation);
      forall i | 0 <= i < 3
        ensures ApprovalGood(t, k, es[i], attestation)
      {
        ApprovalGoodExactly(t, k, es[i], attestation);
      }
    }
    if ThreeGood(t, k, es, attestation) {
      ThreeGoodAreAccepted(t, k, es, attestation);
    }
  }

  lemma {:induction false} ThreeGoodAreAccepted(t: Texts, k: Checks, es: seq<Fields>, attestation: Fields)
    requires ThreeGood(t, k, es, attestation)
    ensures ApprovalsOk(t, k, es, PayloadOf(attestation))
  {
    forall i | 0 <= i < 3
      ensures ApprovalOk(t, k, es[i], PayloadOf(attestation)) && Roles(t, es)[i] == Role(t, es[i])
    {
      ApprovalGoodExactly(t, k, es[i], attestation);
    }
    AllRolesThere(Roles(t, es));
  }

  lemma {:induction false} AllRolesThere(roles: seq<string>)
    requires |roles| == 3 && forall i :: 0 <= i < 3 ==> roles[i] in {"release", "security", "legal"}
    requires forall i, j :: 0 <= i < j < 3 ==> roles[i] != roles[j]
    ensures forall role :: role in APPROVAL_ROLES ==> role in roles
  {
    assert "release" in roles by {
      assert roles[0] == "release" || roles[1] == "release" || roles[2] == "release";
    }
    assert "security" in roles by {
      assert roles[0] == "security" || roles[1] == "security" || roles[2] == "security";
    }
    assert "legal" in roles by {
      assert roles[0] == "legal" || roles[1] == "legal" || roles[2] == "legal";
    }
  }

  /** The attestation records the file once, with the digest it has. */
  predicate RecordsOnce(es: seq<Fields>, path: string, digests: string -> string) {
    exists i :: 0 <= i < |es| && Text(Get(es[i], "path", Null)) == path && Get(es[i], "sha256", Null) == Str(digests(path))
  }

  lemma {:induction false} ByPathHolds(es: seq<Fields>, path: string)
    ensures path in ByPath(es) <==> exists i :: 0 <= i < |es| && Path(es[i]) == path
    ensures path in ByPath(es) ==> exists i :: 0 <= i < |es| && Path(es[i]) == path && es[i] == ByPath(es)[path]
    decreases |es|
  {
    if es != [] {
      var before, last := es[..|es| - 1], es[|es| - 1];
      ByPathHolds(before, path);
      assert forall i :: 0 <= i < |before| ==> before[i] == es[i];
      assert es[|es| - 1] == last;
    }
  }

  lemma {:induction false} BoundExactly(es: seq<Fields>, path: string, digests: string -> string)
    requires UniqueTexts(Paths(es), {})
    ensures Bound(ByPath(es), path, digests) <==> RecordsOnce(es, path, digests)
  {
    ByPathHolds(es, path);
    forall i, j | 0 <= i < |es| && 0 <= j < |es| && Path(es[i]) == Path(es[j])
      ensures i == j
    {
      assert Paths(es)[i] == Paths(es)[j];
    }
  }

  /** No path is recorded twice, and each of the seven evidence files is, with its digest. */
  predicate AllRecorded(es: seq<Fields>, digests: string -> string) {
    && (forall i, j :: 0 <= i < j < |es| ==> Text(Get(es[i], "path", Null)) != Text(Get(es[j], "path", Null)))
    && SevenRecorded(es, digests)
  }

  predicate SevenRecorded(es: seq<Fields>, digests: string -> string) {
    && RecordsOnce(es, "sbom.cdx.json", digests) && RecordsOnce(es, "sbom.spdx.json", digests)
    && RecordsOnce(es, "image-sboms", digests) && RecordsOnce(es, "THIRD_PARTY_NOTICES.md", digests)
    && RecordsOnce(es, "LICENSES", digests) && RecordsOnce(es, "corresponding-source", digests)
    && RecordsOnce(es, "component-lock.json", digests)
  }

  lemma {:induction false} ArtifactsGoodExactly(attestation: Fields, digests: string -> string)
    ensures ArtifactsOk(attestation, digests) <==>
      Get(attestation, "artifacts", Null).Arr? && AllRecorded(Entries(attestation, "artifacts"), digests)
  {
    var es := Entries(attestation, "artifacts");
    PathsUnique(es);
    if UniqueTexts(Paths(es), {}) {
      SevenFiles(es, digests);
    }
  }

  lemma {:induction false} PathsUnique(es: seq<Fields>)
    ensures UniqueTexts(Paths(es), {})
       <==> forall i, j :: 0 <= i < j < |es| ==> Text(Get(es[i], "path", Null)) != Text(Get(es[j], "path", Null))
  {
    forall i | 0 <= i < |es|
      ensures Paths(es)[i] == Text(Get(es[i], "path", Null))
    {
    }
  }

  lemma {:induction false} SevenFiles(es: seq<Fields>, digests: string -> string)
    requires UniqueTexts(Paths(es), {})
    ensures (forall i :: 0 <= i < |EVIDENCE_FILES| ==> Bound(ByPath(es), EVIDENCE_FILES[i], digests)) <==> SevenRecorded(es, digests)
  {
    assert |EVIDENCE_FILES| == 7;
    forall i | 0 <= i < 7
      ensures Bound(ByPath(es), EVIDENCE_FILES[i], digests) <==> RecordsOnce(es, EVIDENCE_FILES[i], digests)
    {
      BoundExactly(es, EVIDENCE_FILES[i], digests);
    }
    SevenNames(es, digests);
  }

  lemma {:induction false} SevenNames(es: seq<Fields>, digests: string -> string)
    ensures |EVIDENCE_FILES| == 7
    ensures (forall i :: 0 <= i < 7 ==> RecordsOnce(es, EVIDENCE_FILES[i], digests)) <==> SevenRecorded(es, digests)
  {
    FileNames();
  }

  lemma {:induction false} FileNames()
    ensures EVIDENCE_FILES[0] == "sbom.cdx.json" && EVIDENCE_FILES[1] == "sbom.spdx.json" && EVIDENCE_FILES[2] == "image-sboms"
    ensures EVIDENCE_FILES[3] == "THIRD_PARTY_NOTICES.md" && EVIDENCE_FILES[4] == "LICENSES"
    ensures EVIDENCE_FILES[5] == "corresponding-source" && EVIDENCE_FILES[6] == "component-lock.json"
  {
  }

  /** Its named subject is the artifact supplied. */
  predicate SubjectGood(t: Texts, attestation: Fields, artifact: Artifact) {
    artifact.Supplied? && var subject := Get(attestation, "subject", Null);
    && subject.Obj? && t.strip(GetText(subject.fields, "name")) != ""
    && Get(subject.fields, "sha256", Null) == Str(artifact.sha256)
  }

  lemma {:induction false} SubjectExactly(t: Texts, attestation: Fields, artifact: Artifact)
    ensures SubjectOk(t, attestation, artifact) <==> SubjectGood(t, attestation, artifact)
    ensures SchemaOk(attestation) <==> Get(attestation, "schema_version", Null) in {Num("1"), Num("1.0"), Bool(true)}
  {
  }

  /**
   The attestation is accepted exactly when it has schema version one, its named subject is the
   artifact supplied, it records the seven evidence files, and it has its three approvals.
   */
  lemma {:induction false} AttestationGoodExactly(t: Texts, k: Checks, attestation: Fields, artifact: Artifact, digests: string -> string)
    requires Lawful(t)
    ensures AttestationOk(t, k, Some(attestation), artifact, digests) <==>
      && Get(attestation, "schema_version", Null) in {Num("1"), Num("1.0"), Bool(true)}
      && SubjectGood(t, attestation, artifact)
      && Get(attestation, "artifacts", Null).Arr? && AllRecorded(Entries(attestation, "artifacts"), digests)
      && Get(attestation, "approvals", Null).Arr? && ThreeGood(t, k, Entries(attestation, "approvals"), attestation)
  {
    SubjectExactly(t, attestation, artifact);
    ApprovalsGoodExactly(t, k, attestation);
    ArtifactsGoodExactly(attestation, digests);
  }
}
