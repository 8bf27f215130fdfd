/**
 The image manifest of the release gate (tools/compliance_gate.py): every OCI component of
 the lock has its two scanned SBOM files.
 */
module GateImages {
  import opened Common
  import opened Json
  import opened Gate
  import opened GateAgreement

  /** What is at a path below the evidence directory. `content` is `None` when it is not a JSON object. */
  datatype File = Escapes | MissingOrEmpty | Present(sha256: string, content: Option<Fields>)

  type Files = string -> File

  function FormatName(format: Format): string {
    if format.CycloneDx? then "cyclonedx" else "spdx"
  }

  function Collection(format: Format): string {
    if format.CycloneDx? then "components" else "packages"
  }

  predicate HeaderOk(format: Format, data: Fields) {
    match format
    case CycloneDx => Get(data, "bomFormat", Null) == Str("CycloneDX")
    case Spdx => Get(data, "spdxVersion", Null) == Str("SPDX-2.3")
  }

  ghost predicate ContentOk(t: Texts, format: Format, data: Fields) {
    && HeaderOk(format, data) && Items(Get(data, Collection(format), Null)) != []
    && !Mentions(t, Get(data, Collection(format), Null))
    && (format.Spdx? ==> forall p :: p in Entries(data, "packages") ==> !Unresolved(t, Get(p, "licenseDeclared", Null)))
  }

  ghost predicate DescriptorOk(t: Texts, format: Format, entry: Fields, files: Files) {
    var descriptor := Get(entry, FormatName(format), Null);
    descriptor.Obj? && var file := files(GetText(descriptor.fields, "path"));
    && file.Present? && Get(descriptor.fields, "sha256", Null) == Str(file.sha256)
    && file.content.Some? && ContentOk(t, format, file.content.value)
  }

  ghost predicate ImageOk(t: Texts, c: Fields, entry: Fields, files: Files) {
    && Get(entry, "image_id", Null) == Get(c, "digest", Null)
    && DescriptorOk(t, CycloneDx, entry, files) && DescriptorOk(t, Spdx, entry, files)
  }

  predicate IsImage(c: Fields) {
    Get(c, "kind", Null) == IMAGE_KIND
  }

  function OciImages(cs: seq<Fields>): seq<Fields> {
    if cs == [] then []
    else OciImages(cs[..|cs| - 1]) + if IsImage(cs[|cs| - 1]) then [cs[|cs| - 1]] else []
  }

  predicate ScannerOk(t: Texts, manifest: Fields) {
    var scanner := Get(manifest, "scanner", Null);
    scanner.Obj? && t.strip(GetText(scanner.fields, "name")) != ""
    && t.upper(GetText(scanner.fields, "version")) !in PENDING && IsHex64(GetText(scanner.fields, "sha256"))
  }

  ghost predicate EachScanned(t: Texts, oci: map<string, Fields>, scanned: map<string, Fields>, files: Files) {
    forall key :: key in oci ==> key in scanned && ImageOk(t, oci[key], scanned[key], files)
  }

  ghost predicate ImagesOk(t: Texts, lock: Option<Fields>, document: Option<Fields>, files: Files) {
    document.Some? && (lock.Some? && lock.value != map[] ==>
      var oci, scanned := ByName(t, OciImages(Locks(lock.value))), ByName(t, Entries(document.value, "images"));
      && ScannerOk(t, document.value)
      && Get(document.value, "images", Null).Arr?
      && UniqueNames(t, Entries(document.value, "images"))
      && HasComponents(lock.value)
      && EachScanned(t, oci, scanned, files)
      && scanned.Keys <= oci.Keys)
  }

  method CollectImages(cs: seq<Fields>) returns (images: seq<Fields>)
    ensures images == OciImages(cs)
  {
    images := [];
    for i := 0 to |cs|
      invariant images == OciImages(cs[..i])
    {
      assert cs[..i + 1][..i] == cs[..i];
      if IsImage(cs[i]) {
        images := images + [cs[i]];
      }
    }
    assert cs[..|cs|] == cs;
  }

  method CheckContent(t: Texts, format: Format, data: Fields, name: string, before: seq<string>)
    returns (errors: seq<string>, raised: bool)
    ensures before <= errors
    ensures !raised && |errors| == |before| <==> ContentOk(t, format, data)
  {
    var items := Get(data, Collection(format), Null);
    raised := false;
    errors := Report(before, !HeaderOk(format, data) || Items(items) == [], "Invalid image SBOM content: " + name);
    var forbidden := MentionsWord(t, items);
    errors := Report(errors, forbidden, "Forbidden component in image SBOM: " + name);
    if format.Spdx? {
      raised := Elements(Get(data, "packages", Arr([], "[]"))).None?;
      var packages := CollectObjects(Items(items));
      for i := 0 to |packages|
        invariant before <= errors
        invariant |errors| == |before| <==>
          && HeaderOk(format, data) && Items(items) != [] && !Mentions(t, items)
          && forall k :: 0 <= k < i ==> !Unresolved(t, Get(packages[k], "licenseDeclared", Null))
      {
        errors := Report(errors, Unresolved(t, Get(packages[i], "licenseDeclared", Null)),
                         "Unknown package license in image SBOM: " + name);
      }
    }
  }

  method CheckDescriptor(t: Texts, format: Format, entry: Fields, files: Files, name: string, before: seq<string>)
    returns (errors: seq<string>, raised: bool)
    ensures before <= errors
    ensures !raised && |errors| == |before| <==> DescriptorOk(t, format, entry, files)
  {
    var descriptor := Get(entry, FormatName(format), Null);
    if !descriptor.Obj? {
      return before + ["Missing image SBOM descriptor: " + name], false;
    }
    match files(GetText(descriptor.fields, "path")) {
      case Escapes => return before + ["Image SBOM path escapes evidence directory: " + name], false;
      case MissingOrEmpty => return before + ["Missing image SBOM: " + name], false;
      case Present(sha256, content) =>
        if Get(descriptor.fields, "sha256", Null) != Str(sha256) {
          return before + ["Image SBOM file digest mismatch: " + name], false;
        }
        if content.None? {
          return before + ["Invalid image SBOM: " + name], false;
        }
        errors, raised := CheckContent(t, format, content.value, name, before);
    }
  }

  method CheckImage(t: Texts, c: Fields, entry: Fields, files: Files, before: seq<string>)
    returns (errors: seq<string>, raised: bool)
    ensures before <= errors
    ensures !raised && |errors| == |before| <==> ImageOk(t, c, entry, files)
  {
    var name := GetText(c, "name");
    errors := Report(before, Get(entry, "image_id", Null) != Get(c, "digest", Null), "Image SBOM digest mismatch: " + name);
    errors, raised := CheckDescriptor(t, CycloneDx, entry, files, name, errors);
    if !raised {
      errors, raised := CheckDescriptor(t, Spdx, entry, files, name, errors);
    }
  }

  method CheckEach(t: Texts, oci: map<string, Fields>, scanned: map<string, Fields>, files: Files, before: seq<string>)
    returns (errors: seq<string>, raised: bool)
    ensures before <= errors
    ensures !raised && |errors| == |before| <==> EachScanned(t, oci, scanned, files)
  {
    errors, raised := before, false;
    var todo := oci.Keys;
    while todo != {}
      invariant todo <= oci.Keys && before <= errors && !raised
      invariant |errors| == |before| <==>
        forall key :: key in oci && key !in todo ==> key in scanned && ImageOk(t, oci[key], scanned[key], files)
      decreases |todo|
    {
      var key :| key in todo;
      if key !in scanned {
        errors := errors + ["OCI component missing image SBOMs: " + key];
      } else {
        errors, raised := CheckImage(t, oci[key], scanned[key], files, errors);
        if raised {
          return;
        }
      }
      todo := todo - {key};
    }
  }

  method ReportUnknown(oci: map<string, Fields>, scanned: map<string, Fields>, before: seq<string>) returns (errors: seq<string>)
    ensures before <= errors && (|errors| == |before| <==> scanned.Keys <= oci.Keys)
  {
    errors := before;
    var todo := scanned.Keys - oci.Keys;
    while todo != {}
      invariant before <= errors && todo <= scanned.Keys - oci.Keys
      invariant |errors| == |before| <==> todo == scanned.Keys - oci.Keys
      decreases |todo|
    {
      var key :| key in todo;
      errors, todo := errors + ["Image SBOM is absent from component lock: " + key], todo - {key};
    }
  }

  method ValidateImages(t: Texts, lock: Option<Fields>, document: Option<Fields>, files: Files, before: seq<string>)
    returns (errors: seq<string>, raised: bool)
    ensures before <= errors
    ensures !raised && |errors| == |before| <==> ImagesOk(t, lock, document, files)
  {
    if document.None? {
      return before + ["Invalid image SBOM manifest"], false;
    }
    if lock.None? || lock.value == map[] {
      return before, false;
    }
    var manifest := document.value;
    errors := Report(before, !ScannerOk(t, manifest), "Image SBOM manifest lacks a fixed scanner version");
    var images := Get(manifest, "images", Null);
    if !images.Arr? {
      return errors + ["Image SBOM manifest images must be an array"], false;
    }
    var es := CollectObjects(images.items);
    errors := ReportDuplicates(t, es, "Duplicate image in SBOM manifest: ", errors);
    if !HasComponents(lock.value) {
      return errors, true;
    }
    var scanned := IndexByName(t, es);
    var locked := CollectObjects(Components(lock.value));
    var found := CollectImages(locked);
    var oci := IndexByName(t, found);
    errors, raised := CheckEach(t, oci, scanned, files, errors);
    if !raised {
      errors := ReportUnknown(oci, scanned, errors);
    }
  }

  // -------------------------------------------------------------- bijection

  lemma {:induction false} OciImagesAre(cs: seq<Fields>, c: Fields)
    ensures c in OciImages(cs) <==> c in cs && IsImage(c)
    decreases |cs|
  {
    if cs != [] {
      OciImagesAre(cs[..|cs| - 1], c);
      assert cs == cs[..|cs| - 1] + [cs[|cs| - 1]];
    }
  }

  lemma {:induction false} OciImagesDistinct(t: Texts, cs: seq<Fields>)
    requires DistinctNames(t, cs) && forall c :: c in cs ==> Named(c)
    ensures DistinctNames(t, OciImages(cs)) && forall c :: c in OciImages(cs) ==> Named(c)
    decreases |cs|
  {
    if cs != [] {
      var rest := cs[..|cs| - 1];
      OciImagesDistinct(t, rest);
      forall i | 0 <= i < |OciImages(rest)|
        ensures OciImages(rest)[i] in rest
      {
        OciImagesAre(rest, OciImages(rest)[i]);
      }
      assert forall i :: 0 <= i < |rest| ==> NameKey(t, rest[i]) != NameKey(t, cs[|cs| - 1]);
    }
  }

  /** As many keys as named entries, when names are distinct. */
  lemma {:induction false} KeyCount(t: Texts, es: seq<Fields>)
    requires DistinctNames(t, es) && forall e :: e in es ==> Named(e)
    ensures |ByName(t, es).Keys| == |es|
    decreases |es|
  {
    if es != [] {
      var rest, last := es[..|es| - 1], es[|es| - 1];
      KeyCount(t, rest);
      ByNameHolds(t, rest, NameKey(t, last));
      assert forall i :: 0 <= i < |rest| ==> rest[i] == es[i];
      assert last in es;
      assert ByName(t, es).Keys == ByName(t, rest).Keys + {NameKey(t, last)};
    }
  }

  /**
   When the gate accepts the manifest, its image entries and the lock's OCI components are
   in bijection by case-folded name, and each entry's image id is the component's digest.
   */
  lemma {:induction false} ImagesMatchLock(t: Texts, lock: Fields, manifest: Fields, files: Files)
    requires Lawful(t) && LockOk(t, lock) && ImagesOk(t, Some(lock), Some(manifest), files)
    ensures var cs, es := OciImages(Locks(lock)), Entries(manifest, "images");
      && DistinctNames(t, cs) && DistinctNames(t, es) && (forall e :: e in es ==> Named(e))
      && |es| == |cs| && SameNames(t, cs, es)
      && forall i, j :: 0 <= i < |cs| && 0 <= j < |es| && NameKey(t, cs[i]) == NameKey(t, es[j]) ==>
           Get(es[j], "image_id", Null) == Get(cs[i], "digest", Null)
  {
    AcceptedLockIsNotEmpty(t, lock);
    LockIsDistinct(t, lock);
    OciImagesDistinct(t, Locks(lock));
    var cs, es := OciImages(Locks(lock)), Entries(manifest, "images");
    UniqueIsDistinct(t, es);
    forall key
      ensures key in ByName(t, es) <==> key in ByName(t, cs)
    {
    }
    NamesAreKeys(t, cs, es);
    KeyCount(t, cs);
    KeyCount(t, es);
    assert ByName(t, cs).Keys == ByName(t, es).Keys;
    forall i, j | 0 <= i < |cs| && 0 <= j < |es| && NameKey(t, cs[i]) == NameKey(t, es[j])
      ensures Get(es[j], "image_id", Null) == Get(cs[i], "digest", Null)
    {
      ByNameIs(t, cs, i);
      ByNameIs(t, es, j);
      assert ImageOk(t, ByName(t, cs)[NameKey(t, cs[i])], ByName(t, es)[NameKey(t, cs[i])], files);
    }
  }

  lemma {:induction false} NamesAreKeys(t: Texts, cs: seq<Fields>, es: seq<Fields>)
    requires Lawful(t) && (forall c :: c in cs ==> Named(c))
    requires forall key :: key in ByName(t, es) <==> key in ByName(t, cs)
    ensures (forall e :: e in es ==> Named(e)) && SameNames(t, cs, es)
  {
    forall key
      ensures HasName(t, cs, key) <==> HasName(t, es, key)
    {
      ByNameHolds(t, cs, key);
      ByNameHolds(t, es, key);
    }
    forall e | e in es
      ensures Named(e)
    {
      ByNameHolds(t, es, NameKey(t, e));
      ByNameHolds(t, cs, NameKey(t, e));
      var i :| 0 <= i < |cs| && NameKey(t, cs[i]) == NameKey(t, e);
      assert Named(cs[i]) && NameKey(t, cs[i]) != "";
    }
  }
}
