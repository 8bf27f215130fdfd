/**
 The attestation of the release gate and the whole distribution check
 (tools/compliance_gate.py). Key files, base64, timestamps and OpenSSL are parameters.
 */
module GateApprovals {
  import opened Common
  import opened Json
  import opened Gate
  import opened GateAgreement
  import opened GateImages

  const APPROVAL_ROLES: set<string> := {"release", "security", "legal"}

  const EVIDENCE_FILES: seq<string> := [
    "sbom.cdx.json", "sbom.spdx.json", "image-sboms", "THIRD_PARTY_NOTICES.md", "LICENSES",
    "corresponding-source", "component-lock.json"]

  /** What the approvals sign: `subject` and `artifacts`. */
  datatype Payload = Payload(subject: Json, artifacts: Json)

  datatype Checks = Checks(
    timestamp: string -> bool,                  // an aware time that is not in the future
    trusted: string -> bool,                    // the role has a trusted key
    base64: string -> bool,
    signed: (string, string, Payload) -> bool)  // the role's key verifies the signature

  datatype Artifact = NotSupplied | MissingArtifact | Supplied(sha256: string)

  function Role(t: Texts, a: Fields): string {
    t.fold(GetText(a, "role"))
  }

  function Signer(t: Texts, a: Fields): string {
    t.fold(t.strip(GetText(a, "signer")))
  }

  function Stripped(t: Texts, a: Fields, field: string): string {
    t.strip(GetText(a, field))
  }

  predicate ApprovalOk(t: Texts, k: Checks, a: Fields, payload: Payload) {
    var signedAt, encoded := Stripped(t, a, "signed_at"), Stripped(t, a, "signature_base64");
    && Role(t, a) in APPROVAL_ROLES && Stripped(t, a, "signer") != "" && signedAt != "" && encoded != ""
    && k.timestamp(signedAt) && k.trusted(Role(t, a)) && k.base64(encoded) && k.signed(Role(t, a), encoded, payload)
  }

  function Roles(t: Texts, es: seq<Fields>): seq<string> {
    seq(|es|, i requires 0 <= i < |es| => Role(t, es[i]))
  }

  function Signers(t: Texts, es: seq<Fields>): seq<string> {
    seq(|es|, i requires 0 <= i < |es| => Signer(t, es[i]))
  }

  predicate ApprovalsOk(t: Texts, k: Checks, es: seq<Fields>, payload: Payload) {
    && UniqueTexts(Roles(t, es), {""}) && (forall role :: role in APPROVAL_ROLES ==> role in Roles(t, es))
    && UniqueTexts(Signers(t, es), {""})
    && forall i :: 0 <= i < |es| ==> ApprovalOk(t, k, es[i], payload)
  }

  function Path(o: Fields): string {
    Text(Get(o, "path", Null))
  }

  function Paths(es: seq<Fields>): seq<string> {
    seq(|es|, i requires 0 <= i < |es| => Path(es[i]))
  }

  function ByPath(es: seq<Fields>): map<string, Fields> {
    if es == [] then map[] else ByPath(es[..|es| - 1])[Path(es[|es| - 1]) := es[|es| - 1]]
  }

  predicate Bound(m: map<string, Fields>, path: string, digests: string -> string) {
    path in m && Get(m[path], "sha256", Null) == Str(digests(path))
  }

  predicate RecordedOk(es: seq<Fields>, digests: string -> string) {
    UniqueTexts(Paths(es), {}) && forall i :: 0 <= i < |EVIDENCE_FILES| ==> Bound(ByPath(es), EVIDENCE_FILES[i], digests)
  }

  predicate SubjectOk(t: Texts, attestation: Fields, artifact: Artifact) {
    var subject := Get(attestation, "subject", Null);
    && artifact.Supplied? && subject.Obj? && t.strip(GetText(subject.fields, "name")) != ""
    && Get(subject.fields, "sha256", Null) == Str(artifact.sha256)
  }

  function PayloadOf(attestation: Fields): Payload {
    Payload(Get(attestation, "subject", Null), Get(attestation, "artifacts", Null))
  }

  /** `attestation.get("schema_version") == 1`, which the numbers 1 and 1.0 and `true` satisfy. */
  predicate SchemaOk(attestation: Fields) {
    Get(attestation, "schema_version", Null) in [Num("1"), Num("1.0"), Bool(true)]
  }

  predicate AttestationOk(t: Texts, k: Checks, document: Option<Fields>, artifact: Artifact, digests: string -> string) {
    document.Some? && var attestation := document.value;
    && SchemaOk(attestation) && SubjectOk(t, attestation, artifact)
    && ArtifactsOk(attestation, digests) && ApprovalListOk(t, k, attestation)
  }

  predicate ArtifactsOk(attestation: Fields, digests: string -> string) {
    Get(attestation, "artifacts", Null).Arr? && RecordedOk(Entries(attestation, "artifacts"), digests)
  }

  predicate ApprovalListOk(t: Texts, k: Checks, attestation: Fields) {
    && Get(attestation, "approvals", Null).Arr?
    && ApprovalsOk(t, k, Entries(attestation, "approvals"), PayloadOf(attestation))
  }

  method VerifyApproval(t: Texts, k: Checks, a: Fields, payload: Payload, before: seq<string>) returns (errors: seq<string>)
    ensures before <= errors && (|errors| == |before| <==> ApprovalOk(t, k, a, payload))
  {
    var role, signer := Role(t, a), Stripped(t, a, "signer");
    var signedAt, encoded := Stripped(t, a, "signed_at"), Stripped(t, a, "signature_base64");
    if role !in APPROVAL_ROLES || signer == "" || signedAt == "" || encoded == "" {
      return before + ["Invalid " + (if role == "" then "unknown" else role) + " approval metadata"];
    }
    if !k.timestamp(signedAt) {
      return before + ["Invalid signed_at timestamp for " + role];
    }
    if !k.trusted(role) {
      return before + ["Missing trusted signer key: " + role];
    }
    if !k.base64(encoded) {
      return before + ["Invalid base64 signature for " + role];
    }
    errors := Report(before, !k.signed(role, encoded, payload), "Invalid cryptographic signature for " + role);
  }

  method ReportMissingRoles(roles: seq<string>, before: seq<string>) returns (errors: seq<string>)
    ensures before <= errors
    ensures |errors| == |before| <==> forall role :: role in APPROVAL_ROLES ==> role in roles
  {
    errors := before;
    var todo := APPROVAL_ROLES;
    while todo != {}
      invariant before <= errors && todo <= APPROVAL_ROLES
      invariant |errors| == |before| <==> forall role :: role in APPROVAL_ROLES - todo ==> role in roles
      decreases |todo|
    {
      var role :| role in todo;
      errors, todo := Report(errors, role !in roles, "Missing attestation approval: " + role), todo - {role};
    }
  }

  method CheckApprovals(t: Texts, k: Checks, es: seq<Fields>, payload: Payload, before: seq<string>) returns (errors: seq<string>)
    ensures before <= errors && (|errors| == |before| <==> ApprovalsOk(t, k, es, payload))
  {
    errors := ReportRepeated(Roles(t, es), {""}, "Duplicate attestation approval: ", before);
    errors := ReportMissingRoles(Roles(t, es), errors);
    errors := ReportRepeated(Signers(t, es), {""}, "Signer cannot approve multiple independent roles: ", errors);
    ghost var header := errors;
    for i := 0 to |es|
      invariant header <= errors
      invariant |errors| == |header| <==> forall j :: 0 <= j < i ==> ApprovalOk(t, k, es[j], payload)
    {
      errors := VerifyApproval(t, k, es[i], payload, errors);
    }
  }

  method CheckRecorded(es: seq<Fields>, digests: string -> string, before: seq<string>) returns (errors: seq<string>)
    ensures before <= errors && (|errors| == |before| <==> RecordedOk(es, digests))
  {
    errors := ReportRepeated(Paths(es), {}, "Duplicate artifact in attestation: ", before);
    var byPath := map[];
    for i := 0 to |es|
      invariant byPath == ByPath(es[..i])
    {
      assert es[..i + 1][..i] == es[..i];
      byPath := byPath[Path(es[i]) := es[i]];
    }
    assert es[..|es|] == es;
    ghost var header := errors;
    for i := 0 to |EVIDENCE_FILES|
      invariant header <= errors
      invariant |errors| == |header| <==> forall j :: 0 <= j < i ==> Bound(byPath, EVIDENCE_FILES[j], digests)
    {
      var path := EVIDENCE_FILES[i];
      if path !in byPath {
        errors := errors + ["Attestation does not bind artifact: " + path];
      } else {
        errors := Report(errors, Get(byPath[path], "sha256", Null) != Str(digests(path)), "Attestation digest mismatch: " + path);
      }
    }
  }

  method CheckSubject(t: Texts, attestation: Fields, artifact: Artifact, before: seq<string>) returns (errors: seq<string>)
    ensures before <= errors && (|errors| == |before| <==> SubjectOk(t, attestation, artifact))
  {
    match artifact {
      case NotSupplied => errors := before + ["Final distribution artifact was not supplied with --artifact"];
      case MissingArtifact => errors := before + ["Final distribution artifact is missing or empty"];
      case Supplied(_) =>
        errors := Report(before, !SubjectOk(t, attestation, artifact),
                         "Attestation subject digest does not match final distribution artifact");
    }
  }

  method CheckArtifacts(attestation: Fields, digests: string -> string, before: seq<string>) returns (errors: seq<string>)
    ensures before <= errors && (|errors| == |before| <==> ArtifactsOk(attestation, digests))
  {
    var recorded := Get(attestation, "artifacts", Null);
    if !recorded.Arr? {
      return before + ["Attestation artifacts must be an array"];
    }
    var es := CollectObjects(recorded.items);
    errors := CheckRecorded(es, digests, before);
  }

  method CheckApprovalList(t: Texts, k: Checks, attestation: Fields, before: seq<string>) returns (errors: seq<string>)
    ensures before <= errors && (|errors| == |before| <==> ApprovalListOk(t, k, attestation))
  {
    var approvals := Get(attestation, "approvals", Null);
    if !approvals.Arr? {
      return before + ["Attestation approvals must be an array"];
    }
    var es := CollectObjects(approvals.items);
    errors := CheckApprovals(t, k, es, PayloadOf(attestation), before);
  }

  method ValidateAttestation(t: Texts, k: Checks, document: Option<Fields>, artifact: Artifact, digests: string -> string,
                             before: seq<string>) returns (errors: seq<string>)
    ensures before <= errors && (|errors| == |before| <==> AttestationOk(t, k, document, artifact, digests))
  {
    if document.None? {
      return before + ["Invalid attestation"];
    }
    var attestation := document.value;
    errors := Report(before, !SchemaOk(attestation), "Invalid attestation schema_version");
    errors := CheckSubject(t, attestation, artifact, errors);
    errors := CheckArtifacts(attestation, digests, errors);
    errors := CheckApprovalList(t, k, attestation, errors);
  }

  // --------------------------------------------------------- three approvals

  /** Distinct texts are as many as the set of them. */
  lemma {:induction false} DistinctCount(texts: seq<string>)
    requires forall i, j :: 0 <= i < j < |texts| ==> texts[i] != texts[j]
    ensures |(set x | x in texts)| == |texts|
    decreases |texts|
  {
    if texts != [] {
      var rest, last := texts[..|texts| - 1], texts[|texts| - 1];
      DistinctCount(rest);
      assert (set x | x in texts) == (set x | x in rest) + {last} by {
        assert texts == rest + [last];
      }
    }
  }

  lemma {:induction false} ApprovalIsNamed(t: Texts, k: Checks, a: Fields, payload: Payload)
    requires Lawful(t) && ApprovalOk(t, k, a, payload)
    ensures Role(t, a) in APPROVAL_ROLES && Role(t, a) != "" && Signer(t, a) != ""
  {
  }

  lemma {:induction false} Distinct(texts: seq<string>)
    requires UniqueTexts(texts, {""}) && "" !in texts
    ensures forall i, j :: 0 <= i < j < |texts| ==> texts[i] != texts[j]
  {
    forall i, j | 0 <= i < j < |texts|
      ensures texts[i] != texts[j]
    {
      assert texts[i] in texts;
    }
  }

  lemma {:induction false} ThreeApprovals(t: Texts, k: Checks, es: seq<Fields>, payload: Payload)
    requires Lawful(t) && ApprovalsOk(t, k, es, payload)
    ensures |es| == 3 && (set x | x in Roles(t, es)) == APPROVAL_ROLES
    ensures forall i, j :: 0 <= i < j < 3 ==> Roles(t, es)[i] != Roles(t, es)[j] && Signers(t, es)[i] != Signers(t, es)[j]
  {
    var roles, signers := Roles(t, es), Signers(t, es);
    forall i | 0 <= i < |es|
      ensures roles[i] in APPROVAL_ROLES && roles[i] != "" && signers[i] != ""
    {
      ApprovalIsNamed(t, k, es[i], payload);
    }
    Distinct(roles);
    Distinct(signers);
    ThreeRoles(roles);
  }

  lemma {:induction false} ThreeRoles(roles: seq<string>)
    requires forall i, j :: 0 <= i < j < |roles| ==> roles[i] != roles[j]
    requires forall i :: 0 <= i < |roles| ==> roles[i] in APPROVAL_ROLES
    requires forall role :: role in APPROVAL_ROLES ==> role in roles
    ensures |roles| == 3 && (set x | x in roles) == APPROVAL_ROLES
  {
    DistinctCount(roles);
    assert (set x | x in roles) == APPROVAL_ROLES;
    assert |APPROVAL_ROLES| == 3;
  }

  /**
   An accepted attestation carries exactly three approvals, one for each of release,
   security and legal, by three distinct signers, each verified over the same subject and artifacts.
   */
  lemma {:induction false} ExactlyThreeApprovals(t: Texts, k: Checks, attestation: Fields)
    requires Lawful(t) && ApprovalListOk(t, k, attestation)
    ensures var es := Entries(attestation, "approvals");
      && |es| == 3 && (set x | x in Roles(t, es)) == APPROVAL_ROLES
      && (forall i, j :: 0 <= i < j < 3 ==> Role(t, es[i]) != Role(t, es[j]) && Signer(t, es[i]) != Signer(t, es[j]))
      && forall i :: 0 <= i < 3 ==>
           k.signed(Role(t, es[i]), Stripped(t, es[i], "signature_base64"), PayloadOf(attestation))
  {
    var es := Entries(attestation, "approvals");
    ThreeApprovals(t, k, es, PayloadOf(attestation));
    assert forall i :: 0 <= i < 3 ==> Role(t, es[i]) == Roles(t, es)[i] && Signer(t, es[i]) == Signers(t, es)[i];
    assert forall i :: 0 <= i < |es| ==> ApprovalOk(t, k, es[i], PayloadOf(attestation));
  }

  // ------------------------------------------------------ the whole check

  /**
   What the gate reads. `missing` are the presence errors and `others` the errors of the
   license, notice and corresponding-source checks, which are not part of this model.
   */
  datatype Evidence = Evidence(
    missing: seq<string>, lock: Option<Fields>, cdx: Option<Fields>, spdx: Option<Fields>, manifest: Option<Fields>,
    files: Files, others: seq<string>, attestation: Option<Fields>, artifact: Artifact, digests: string -> string)

  ghost predicate GateOk(t: Texts, k: Checks, e: Evidence) {
    && e.missing == [] && e.others == []
    && e.lock.Some? && LockOk(t, e.lock.value)
    && CdxOk(t, e.lock, e.cdx) && SpdxOk(t, e.lock, e.spdx) && ImagesOk(t, e.lock, e.manifest, e.files)
    && AttestationOk(t, k, e.attestation, e.artifact, e.digests)
  }

  method DistributionErrors(t: Texts, k: Checks, e: Evidence) returns (errors: seq<string>, raised: bool)
    ensures !raised && errors == [] <==> GateOk(t, k, e)
  {
    errors, raised := e.missing, false;
    if errors != [] {
      return;
    }
    errors := ValidateLock(t, e.lock, errors);
    errors, raised := ValidateSbom(t, e.lock, e.cdx, errors);
    if raised {
      return;
    }
    errors, raised := ValidateSpdx(t, e.lock, e.spdx, errors);
    if raised {
      return;
    }
    errors, raised := ValidateImages(t, e.lock, e.manifest, e.files, errors);
    if raised {
      return;
    }
    errors := ValidateAttestation(t, k, e.attestation, e.artifact, e.digests, errors + e.others);
  }

  /**
   A release that passes the gate: the lock and both lists agree name by name, the images
   are in bijection with the OCI components, and there are exactly three independent approvals.
   */
  lemma {:induction false} PassingTheGate(t: Texts, k: Checks, e: Evidence)
    requires Lawful(t) && GateOk(t, k, e)
    ensures e.missing == [] && e.others == []
    ensures var cs, xs, ps := Locks(e.lock.value), Entries(e.cdx.value, "components"), Entries(e.spdx.value, "packages");
      && SameNames(t, cs, xs) && SameNames(t, cs, ps)
      && DistinctNames(t, cs) && DistinctNames(t, xs) && DistinctNames(t, ps)
      && EntriesAgree(t, CycloneDx, cs, xs) && EntriesAgree(t, Spdx, cs, ps)
      && |Entries(e.manifest.value, "images")| == |OciImages(cs)|
      && SameNames(t, OciImages(cs), Entries(e.manifest.value, "images"))
      && |Entries(e.attestation.value, "approvals")| == 3
  {
    AcceptedDocumentsAgree(t, e.lock.value, e.cdx.value, e.spdx.value);
    ImagesMatchLock(t, e.lock.value, e.manifest.value, e.files);
    ExactlyThreeApprovals(t, k, e.attestation.value);
  }
}
