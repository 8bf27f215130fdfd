/** A release that passes the gate: the smallest documents that agree with each other. */
module ReleaseScenario {
  import opened Common
  import opened Json
  import opened Gate
  import opened GateAgreement
  import opened GateImages
  import opened GateApprovals
  import opened Candidate

  /** Text in which no operation changes anything and nothing forbidden occurs. */
  const PLAIN := Texts(Same, Same, Same, No, NotLatest, Yes)

  const ALL_GOOD := Checks(Yes, Yes, Yes, Signed)

  function Same(s: string): string { s }

  predicate Yes(s: string) { true }

  predicate No(s: string) { false }

  predicate NotLatest(o: Fields) { false }

  predicate Signed(role: string, encoded: string, payload: Payload) { true }

  function Fixed(path: string): string { "s" }

  function Nowhere(path: string): File { MissingOrEmpty }

  function Hex(): (s: string)
    ensures IsHex64(s)
  {
    seq(64, i => 'a')
  }

  /** What each field of the one component holds. */
  function Value(field: string): string {
    if field == "digest" then PREFIX + Hex() else if field == "license_text_sha256" then Hex() else "x"
  }

  const ITEM: Fields := map field | field in LOCK_FIELDS :: Str(Value(field))

  /** A component whose fields hold those values. */
  predicate Sample(o: Fields) {
    forall i :: 0 <= i < |LOCK_FIELDS| ==> LOCK_FIELDS[i] in o && o[LOCK_FIELDS[i]] == Str(Value(LOCK_FIELDS[i]))
  }

  lemma {:induction false} ItemIsSample()
    ensures Sample(ITEM)
  {
  }

  lemma {:induction false} NothingMentioned(j: Json)
    ensures !Mentions(PLAIN, j)
    decreases j
  {
    match j
    case Arr(items, _) =>
      forall i | 0 <= i < |items|
        ensures !Mentions(PLAIN, items[i])
      {
        NothingMentioned(items[i]);
      }
    case Obj(fields, _) =>
      forall k | k in fields
        ensures !Mentions(PLAIN, fields[k])
      {
        NothingMentioned(fields[k]);
      }
    case _ =>
  }

  lemma {:induction false} PlainIsLawful()
    ensures Lawful(PLAIN) && Standard(PLAIN) && WordsAreClean(PLAIN)
  {
  }

  lemma {:induction false} PlainText(s: string)
    ensures PLAIN.fold(s) == s && PLAIN.upper(s) == s && PLAIN.strip(s) == s
  {
  }

  lemma {:induction false} NotPending(s: string)
    requires |s| == 1 || |s| > 20
    ensures s !in PENDING
  {
    assert forall i :: 0 <= i < |PENDING| ==> |PENDING[i]| < 20 && |PENDING[i]| != 1;
  }

  lemma {:induction false} LicenseIsResolved()
    ensures !Unresolved(PLAIN, Str("x"))
  {
    assert forall i :: 0 <= i < |FORBIDDEN_LICENSE_MARKERS| ==> |FORBIDDEN_LICENSE_MARKERS[i]| > 1;
    PlainText("x");
  }

  lemma {:induction false} DigestIsOk()
    ensures IsDigest(PREFIX + Hex()) && WithoutPrefix(PREFIX + Hex()) == Hex()
  {
    var digest := PREFIX + Hex();
    assert |PREFIX| == 7 && digest[..7] == PREFIX && digest[7..] == Hex();
  }

  lemma {:induction false} SampleText(o: Fields, i: nat)
    requires Sample(o) && i < |LOCK_FIELDS|
    ensures Get(o, LOCK_FIELDS[i], Null) == Str(Value(LOCK_FIELDS[i])) && GetText(o, LOCK_FIELDS[i]) == Value(LOCK_FIELDS[i])
  {
  }

  lemma {:induction false} SampleTexts(o: Fields)
    requires Sample(o)
    ensures GetText(o, "name") == "x" && Get(o, "kind", Null) == Str("x") && GetText(o, "revision") == "x"
    ensures Get(o, "license_spdx", Null) == Str("x") && Get(o, "digest", Null).Str?
    ensures GetText(o, "digest") == PREFIX + Hex() && GetText(o, "license_text_sha256") == Hex()
  {
    assert LOCK_FIELDS[0] == "name" && LOCK_FIELDS[1] == "kind" && LOCK_FIELDS[3] == "revision" && LOCK_FIELDS[5] == "digest";
    assert LOCK_FIELDS[6] == "license_spdx" && LOCK_FIELDS[7] == "license_text_sha256";
    SampleText(o, 0);
    SampleText(o, 1);
    SampleText(o, 3);
    SampleText(o, 5);
    SampleText(o, 6);
    SampleText(o, 7);
    assert |"name"| == 4 && |"kind"| == 4 && |"revision"| == 8 && |"digest"| == 6 && |"license_spdx"| == 12
      && |"license_text_sha256"| == 19;
  }

  lemma {:induction false} ValueIsPinned(field: string)
    ensures PLAIN.upper(PLAIN.strip(Value(field))) !in PENDING
  {
    NotPending(Value(field));
    PlainText(Value(field));
  }

  lemma {:induction false} SampleIsPinned(o: Fields)
    requires Sample(o)
    ensures AllPinned(PLAIN, o, |LOCK_FIELDS|)
  {
    forall i | 0 <= i < |LOCK_FIELDS|
      ensures Pinned(PLAIN, o, LOCK_FIELDS[i])
    {
      SampleText(o, i);
      ValueIsPinned(LOCK_FIELDS[i]);
    }
  }

  lemma {:induction false} SampleIsOk(o: Fields)
    requires Sample(o)
    ensures LockItemOk(PLAIN, Obj(o, ""), 0)
  {
    SampleTexts(o);
    SampleIsPinned(o);
    DigestIsOk();
    LicenseIsResolved();
    NothingMentioned(Obj(o, ""));
    assert IMAGE_KIND != Str("x") by {
      assert |"oci-image"| == 9;
    }
  }

  function LockOf(o: Fields): Fields {
    map["release_status" := Str("approved"), "components" := Arr([Obj(o, "")], "")]
  }

  lemma {:induction false} OneObject(o: Fields)
    ensures Objects([Obj(o, "")]) == [o]
  {
    ObjectsOfAll([Obj(o, "")]);
  }

  lemma {:induction false} LockFields(o: Fields)
    ensures Components(LockOf(o)) == [Obj(o, "")] && Locks(LockOf(o)) == [o] && HasComponents(LockOf(o))
    ensures Get(LockOf(o), "release_status", Null) == Str("approved") && Get(LockOf(o), "components", Null).Arr?
  {
    assert |"release_status"| == 14 && |"components"| == 10;
    OneObject(o);
  }

  lemma {:induction false} LockIsOk(o: Fields)
    requires Sample(o)
    ensures LockOk(PLAIN, LockOf(o)) && forall c :: c in Locks(LockOf(o)) ==> Textual(c)
  {
    LockFields(o);
    SampleTexts(o);
    SampleIsOk(o);
  }

  // ------------------------------------------------------------- the lists

  function CdxOf(items: seq<Fields>): Fields {
    map["bomFormat" := Str("CycloneDX"), "specVersion" := Str("1.6"), "components" := List(CdxEntries(items))]
  }

  lemma {:induction false} CdxFields(items: seq<Fields>)
    ensures CdxHeaderOk(CdxOf(items)) && Get(CdxOf(items), "components", Null) == List(CdxEntries(items))
  {
    assert |"bomFormat"| == 9 && |"specVersion"| == 11 && |"components"| == 10;
  }

  function SpdxOf(items: seq<Fields>): Fields {
    map["spdxVersion" := Str("SPDX-2.3"), "dataLicense" := Str("CC0-1.0"), "SPDXID" := Str("SPDXRef-DOCUMENT"),
        "packages" := List(SpdxPackages(items, Str("x")))]
  }

  lemma {:induction false} SpdxFields(items: seq<Fields>)
    ensures SpdxHeaderOk(SpdxOf(items)) && Get(SpdxOf(items), "packages", Null) == List(SpdxPackages(items, Str("x")))
  {
    assert |"spdxVersion"| == 11 && |"dataLicense"| == 11 && |"SPDXID"| == 6 && |"packages"| == 8;
    assert "spdxVersion"[0] == 's' && "dataLicense"[0] == 'd';
  }

  // ------------------------------------------------- images and attestation

  const SCANNER: Fields := map["name" := Str("x"), "version" := Str("x"), "sha256" := Str(Hex())]

  const MANIFEST: Fields := map["scanner" := Obj(SCANNER, ""), "images" := Arr([], "")]

  lemma {:induction false} ManifestFields()
    ensures Get(MANIFEST, "scanner", Null) == Obj(SCANNER, "") && Get(MANIFEST, "images", Null) == Arr([], "")
  {
    assert |"scanner"| == 7 && |"images"| == 6;
  }

  lemma {:induction false} ScannerFields()
    ensures GetText(SCANNER, "name") == "x" && GetText(SCANNER, "version") == "x" && GetText(SCANNER, "sha256") == Hex()
  {
    assert |"name"| == 4 && |"version"| == 7 && |"sha256"| == 6;
  }

  lemma {:induction false} ImagesAreOk(lock: Fields, item: Fields, manifest: Fields)
    requires Locks(lock) == [item] && HasComponents(lock) && !IsImage(item)
    requires Get(manifest, "images", Null) == Arr([], "") && ScannerOk(PLAIN, manifest)
    ensures ImagesOk(PLAIN, Some(lock), Some(manifest), Nowhere)
  {
    assert [item][..0] == [];
    assert OciImages([item]) == [];
    assert Entries(manifest, "images") == [];
  }

  lemma {:induction false} ScannerIsOk(manifest: Fields)
    requires Get(manifest, "scanner", Null) == Obj(SCANNER, "")
    ensures ScannerOk(PLAIN, manifest)
  {
    ScannerFields();
    NotPending("x");
    PlainText("x");
  }

  lemma {:induction false} ImagesPass(o: Fields)
    requires Sample(o)
    ensures ImagesOk(PLAIN, Some(LockOf(o)), Some(MANIFEST), Nowhere)
  {
    LockFields(o);
    SampleTexts(o);
    assert !IsImage(o) by {
      assert |"oci-image"| == 9;
    }
    ManifestFields();
    ScannerIsOk(MANIFEST);
    ImagesAreOk(LockOf(o), o, MANIFEST);
  }

  function Artifact(path: string): Fields {
    map["path" := Str(path), "sha256" := Str("s")]
  }

  const RECORDED: seq<Json> := [
    Obj(Artifact(EVIDENCE_FILES[0]), ""), Obj(Artifact(EVIDENCE_FILES[1]), ""), Obj(Artifact(EVIDENCE_FILES[2]), ""),
    Obj(Artifact(EVIDENCE_FILES[3]), ""), Obj(Artifact(EVIDENCE_FILES[4]), ""), Obj(Artifact(EVIDENCE_FILES[5]), ""),
    Obj(Artifact(EVIDENCE_FILES[6]), "")]

  function Approval(role: string): Fields {
    map["role" := Str(role), "signer" := Str(role), "signed_at" := Str("x"), "signature_base64" := Str("x")]
  }

  const APPROVALS: seq<Json> := [Obj(Approval("release"), ""), Obj(Approval("security"), ""), Obj(Approval("legal"), "")]

  const SUBJECT: Fields := map["name" := Str("x"), "sha256" := Str("s")]

  const ATTESTATION: Fields := map[
    "schema_version" := Num("1"), "subject" := Obj(SUBJECT, ""), "artifacts" := Arr(RECORDED, ""), "approvals" := Arr(APPROVALS, "")]

  lemma {:induction false} ByPathFinds(es: seq<Fields>, i: nat)
    requires UniqueTexts(Paths(es), {}) && i < |es|
    ensures Path(es[i]) in ByPath(es) && ByPath(es)[Path(es[i])] == es[i]
    decreases |es|
  {
    if i < |es| - 1 {
      var rest := es[..|es| - 1];
      assert forall k :: 0 <= k < |rest| ==> Paths(rest)[k] == Paths(es)[k];
      assert Paths(es)[i] != Paths(es)[|es| - 1];
      ByPathFinds(rest, i);
    }
  }

  lemma {:induction false} ArtifactFields(path: string)
    ensures Path(Artifact(path)) == path && Get(Artifact(path), "sha256", Null) == Str("s")
  {
    assert |"path"| == 4 && |"sha256"| == 6;
  }

  lemma {:induction false} RecordedIsOk()
    ensures RecordedOk(Objects(RECORDED), Fixed)
  {
    ObjectsOfAll(RECORDED);
    var es := Objects(RECORDED);
    forall i | 0 <= i < 7
      ensures Paths(es)[i] == EVIDENCE_FILES[i] && Get(es[i], "sha256", Null) == Str("s")
    {
      ArtifactFields(EVIDENCE_FILES[i]);
    }
    FilesDiffer();
    forall i | 0 <= i < 7
      ensures Bound(ByPath(es), EVIDENCE_FILES[i], Fixed)
    {
      ByPathFinds(es, i);
    }
  }

  lemma {:induction false} FilesDiffer()
    ensures forall i, j :: 0 <= i < j < 7 ==> EVIDENCE_FILES[i] != EVIDENCE_FILES[j]
  {
    assert |EVIDENCE_FILES[0]| == 13 && |EVIDENCE_FILES[1]| == 14 && |EVIDENCE_FILES[2]| == 11 && |EVIDENCE_FILES[3]| == 22;
    assert |EVIDENCE_FILES[4]| == 8 && |EVIDENCE_FILES[5]| == 20 && |EVIDENCE_FILES[6]| == 19;
  }

  lemma {:induction false} ApprovalFields(role: string, payload: Payload)
    requires role in APPROVAL_ROLES && role != ""
    ensures Role(PLAIN, Approval(role)) == Signer(PLAIN, Approval(role)) == role
    ensures ApprovalOk(PLAIN, ALL_GOOD, Approval(role), payload)
  {
    assert |"role"| == 4 && |"signer"| == 6 && |"signed_at"| == 9 && |"signature_base64"| == 16;
  }

  lemma {:induction false} ThreeTexts(texts: seq<string>)
    requires texts == ["release", "security", "legal"]
    ensures UniqueTexts(texts, {""}) && forall role :: role in APPROVAL_ROLES ==> role in texts
  {
    assert |"release"| == 7 && |"security"| == 8 && |"legal"| == 5;
    assert texts[0] == "release" && texts[1] == "security" && texts[2] == "legal";
  }

  lemma {:induction false} ApprovalsAreOk(payload: Payload)
    ensures ApprovalsOk(PLAIN, ALL_GOOD, Objects(APPROVALS), payload)
  {
    ObjectsOfAll(APPROVALS);
    var es := Objects(APPROVALS);
    ApprovalFields("release", payload);
    ApprovalFields("security", payload);
    ApprovalFields("legal", payload);
    ThreeTexts(Roles(PLAIN, es));
    ThreeTexts(Signers(PLAIN, es));
  }

  lemma {:induction false} AttestationFields()
    ensures SchemaOk(ATTESTATION) && Get(ATTESTATION, "subject", Null) == Obj(SUBJECT, "")
    ensures Get(ATTESTATION, "artifacts", Null) == Arr(RECORDED, "") && Get(ATTESTATION, "approvals", Null) == Arr(APPROVALS, "")
  {
    assert |"schema_version"| == 14 && |"subject"| == 7 && |"artifacts"| == 9 && |"approvals"| == 9;
    assert "artifacts"[1] == 'r' && "approvals"[1] == 'p';
  }

  lemma {:induction false} SubjectFields()
    ensures GetText(SUBJECT, "name") == "x" && Get(SUBJECT, "sha256", Null) == Str("s")
  {
    assert |"name"| == 4 && |"sha256"| == 6;
  }

  lemma {:induction false} AttestationIsOk(attestation: Fields)
    requires SchemaOk(attestation) && Get(attestation, "subject", Null) == Obj(SUBJECT, "")
    requires Get(attestation, "artifacts", Null) == Arr(RECORDED, "") && Get(attestation, "approvals", Null) == Arr(APPROVALS, "")
    ensures AttestationOk(PLAIN, ALL_GOOD, Some(attestation), Supplied("s"), Fixed)
  {
    SubjectFields();
    RecordedIsOk();
    ApprovalsAreOk(PayloadOf(attestation));
  }

  lemma {:induction false} AttestationPasses()
    ensures AttestationOk(PLAIN, ALL_GOOD, Some(ATTESTATION), Supplied("s"), Fixed)
  {
    AttestationFields();
    AttestationIsOk(ATTESTATION);
  }

  /**
   A lock the gate accepts can be released: with the lists generated from it under a resolved
   license conclusion, an accepted image manifest and an accepted attestation, the gate passes.
   */
  lemma {:induction false} GeneratedReleasePasses(t: Texts, k: Checks, e: Evidence, lock: Fields, cdx: Fields, spdx: Fields, concluded: Json)
    requires Lawful(t) && Standard(t) && WordsAreClean(t) && LockOk(t, lock) && forall c :: c in Locks(lock) ==> Textual(c)
    requires CdxHeaderOk(cdx) && Get(cdx, "components", Null) == List(CdxEntries(Locks(lock)))
    requires SpdxHeaderOk(spdx) && Get(spdx, "packages", Null) == List(SpdxPackages(Locks(lock), concluded))
    requires concluded == Null || !Unresolved(t, concluded)
    requires e.lock == Some(lock) && e.cdx == Some(cdx) && e.spdx == Some(spdx) && e.missing == [] && e.others == []
    requires ImagesOk(t, e.lock, e.manifest, e.files) && AttestationOk(t, k, e.attestation, e.artifact, e.digests)
    ensures GateOk(t, k, e)
  {
    GeneratedListIsAccepted(t, lock, cdx);
    GeneratedSpdxVerdict(t, lock, spdx, concluded);
  }

  lemma {:induction false} SomePasses(t: Texts, k: Checks, e: Evidence)
    requires Lawful(t) && GateOk(t, k, e)
    ensures exists t', k', e' :: Lawful(t') && GateOk(t', k', e')
  {
  }

  lemma {:induction false} SamplePasses(o: Fields)
    requires Sample(o)
    ensures exists t, k, e :: Lawful(t) && GateOk(t, k, e)
  {
    var lock := LockOf(o);
    var cdx, spdx := CdxOf(Locks(lock)), SpdxOf(Locks(lock));
    var e := Evidence([], Some(lock), Some(cdx), Some(spdx), Some(MANIFEST), Nowhere, [], Some(ATTESTATION), Supplied("s"), Fixed);
    PlainIsLawful();
    LicenseIsResolved();
    LockIsOk(o);
    CdxFields(Locks(lock));
    SpdxFields(Locks(lock));
    ImagesPass(o);
    AttestationPasses();
    GeneratedReleasePasses(PLAIN, ALL_GOOD, e, lock, cdx, spdx, Str("x"));
    SomePasses(PLAIN, ALL_GOOD, e);
  }

  /** The gate can be passed. */
  lemma {:induction false} AReleaseCanPass()
    ensures exists t, k, e :: Lawful(t) && GateOk(t, k, e)
  {
    ItemIsSample();
    SamplePasses(ITEM);
  }
}
