/**
 The CRM store of services/crm_api/app/domain.py: campaign versions with hash-bound
 approval, suppression, consent, and one audit hash chain per tenant.
 */
module Crm {
  import opened Common

  // ------------------------------------------------------------- data model

  datatype Manifest = Manifest(
    contentHashes: map<string, string>,
    repepEnabled: bool, exemptionType: Option<string>, exemptionApproved: bool, evidenceRef: Option<string>,
    rest: string)

  /** SHA-256 of a canonical manifest, symbolically injective, or any other text. */
  datatype ManifestHash = ManifestSha(manifest: Manifest) | OtherHash(text: string)

  datatype CampaignStatus = PENDING_APPROVAL | APPROVED

  datatype Campaign = Campaign(
    campaignId: string, manifest: Manifest, manifestHash: ManifestHash,
    status: CampaignStatus, approvedHash: Option<ManifestHash>, version: nat)

  datatype Event = Event(id: string, tenant: string, kind: string, aggregateId: string, payload: string, occurredAt: string)

  datatype AuditBody = AuditBody(sequenceNo: int, previousHash: Option<Digest>, event: Event)

  /** SHA-256 of an audit body, symbolically injective, or any other text in its place. */
  datatype Digest = Sha256(body: AuditBody) | OtherText(text: string)

  datatype AuditEvent = AuditEvent(body: AuditBody, eventHash: Digest)

  datatype Store = Store(
    contacts: set<(string, string)>,
    campaigns: map<(string, string), Campaign>,
    suppressed: set<(string, string)>,
    consents: set<(string, string, string)>,
    audit: seq<AuditEvent>,
    heads: map<string, AuditEvent>)

  datatype Error = TenantRequired | CampaignUnknown | ApprovalHashMismatch | ContactNotFound

  const EMPTY_STORE := Store({}, map[], {}, {}, [], map[])

  // -------------------------------------------------------------- audit chain

  function NextBody(s: Store, event: Event): AuditBody {
    if event.tenant in s.heads
    then AuditBody(s.heads[event.tenant].body.sequenceNo + 1, Some(s.heads[event.tenant].eventHash), event)
    else AuditBody(1, None, event)
  }

  function Append(s: Store, event: Event): Store {
    var entry := AuditEvent(NextBody(s, event), Sha256(NextBody(s, event)));
    s.(audit := s.audit + [entry], heads := s.heads[event.tenant := entry])
  }

  function Export(audit: seq<AuditEvent>, tenant: string): seq<AuditEvent> {
    if audit == [] then []
    else
      var last := audit[|audit| - 1];
      Export(audit[..|audit| - 1], tenant) + if last.body.event.tenant == tenant then [last] else []
  }

  /** What an unbroken chain is: numbered from 1, each entry naming the hash before it, each hash its own body's. */
  predicate Verifies(events: seq<AuditEvent>) {
    forall i :: 0 <= i < |events| ==> Follows(events[i], events[..i])
  }

  predicate Follows(entry: AuditEvent, before: seq<AuditEvent>) {
    && entry.body.sequenceNo == |before| + 1
    && entry.body.previousHash == (if before == [] then None else Some(before[|before| - 1].eventHash))
    && entry.eventHash == Sha256(entry.body)
  }

  lemma {:induction false} VerifiesSnoc(events: seq<AuditEvent>, entry: AuditEvent)
    ensures Verifies(events + [entry]) <==> Verifies(events) && Follows(entry, events)
  {
    var all := events + [entry];
    assert all[..|events|] == events;
    assert forall i :: 0 <= i < |events| ==> all[..i] == events[..i];
    if Verifies(all) {
      assert Follows(all[|events|], all[..|events|]);
      forall i | 0 <= i < |events|
        ensures Follows(events[i], events[..i])
      {
        assert Follows(all[i], all[..i]);
      }
    }
  }

  lemma {:induction false} ExportSnoc(audit: seq<AuditEvent>, entry: AuditEvent, tenant: string)
    ensures Export(audit + [entry], tenant)
         == if entry.body.event.tenant == tenant then Export(audit, tenant) + [entry] else Export(audit, tenant)
  {
    assert (audit + [entry])[..|audit|] == audit;
  }

  /** Every tenant's export verifies and its recorded head is the export's last entry. */
  predicate AuditSoundFor(s: Store, tenant: string) {
    var events := Export(s.audit, tenant);
    && Verifies(events)
    && (tenant in s.heads <==> events != [])
    && (tenant in s.heads ==> s.heads[tenant] == events[|events| - 1])
  }

  ghost predicate AuditSound(s: Store) {
    forall tenant :: AuditSoundFor(s, tenant)
  }

  lemma {:induction false} NextBodyFollows(s: Store, event: Event)
    requires AuditSoundFor(s, event.tenant)
    ensures Follows(AuditEvent(NextBody(s, event), Sha256(NextBody(s, event))), Export(s.audit, event.tenant))
  {
    if event.tenant in s.heads {
      LastNumber(Export(s.audit, event.tenant));
    }
  }

  lemma {:induction false} AppendOwn(s: Store, event: Event)
    requires AuditSoundFor(s, event.tenant)
    ensures AuditSoundFor(Append(s, event), event.tenant)
  {
    var entry := AuditEvent(NextBody(s, event), Sha256(NextBody(s, event)));
    var events := Export(s.audit, event.tenant);
    ExportSnoc(s.audit, entry, event.tenant);
    NextBodyFollows(s, event);
    VerifiesSnoc(events, entry);
    assert Export(Append(s, event).audit, event.tenant) == events + [entry];
  }

  lemma {:induction false} AppendOther(s: Store, event: Event, tenant: string)
    requires AuditSoundFor(s, tenant) && tenant != event.tenant
    ensures AuditSoundFor(Append(s, event), tenant)
  {
    ExportSnoc(s.audit, AuditEvent(NextBody(s, event), Sha256(NextBody(s, event))), tenant);
    assert Export(Append(s, event).audit, tenant) == Export(s.audit, tenant);
  }

  lemma {:induction false} AppendSoundFor(s: Store, event: Event, tenant: string)
    requires AuditSoundFor(s, tenant)
    ensures AuditSoundFor(Append(s, event), tenant)
  {
    if tenant == event.tenant {
      AppendOwn(s, event);
    } else {
      AppendOther(s, event, tenant);
    }
  }

  lemma {:induction false} LastNumber(events: seq<AuditEvent>)
    requires Verifies(events) && events != []
    ensures events[|events| - 1].body.sequenceNo == |events|
  {
    assert Follows(events[|events| - 1], events[..|events| - 1]);
  }

  /** Entries with the same hash are the same entry, and so name the same hash before them. */
  lemma {:induction false} SameEntry(e: AuditEvent, before: seq<AuditEvent>, f: AuditEvent, before': seq<AuditEvent>)
    requires Follows(e, before) && Follows(f, before') && e.eventHash == f.eventHash
    ensures e == f && |before| == |before'|
    ensures before != [] ==> before[|before| - 1].eventHash == before'[|before'| - 1].eventHash
  {
    assert Sha256(e.body) == Sha256(f.body);
    assert e.body == f.body;
  }

  lemma {:induction false} SameEntries(a: seq<AuditEvent>, b: seq<AuditEvent>, i: nat)
    requires Verifies(a) && Verifies(b) && i < |a| == |b|
    requires a[|a| - 1].eventHash == b[|b| - 1].eventHash
    ensures a[i] == b[i]
    decreases |a| - i
  {
    assert Follows(a[i], a[..i]) && Follows(b[i], b[..i]);
    if i + 1 < |a| {
      SameEntries(a, b, i + 1);
      assert Follows(a[i + 1], a[..i + 1]) && Follows(b[i + 1], b[..i + 1]);
    }
    SameEntry(a[i], a[..i], b[i], b[..i]);
  }

  /** Two lists that verify and end in the same hash are the same list. */
  lemma {:induction false} SameHeadSameHistory(a: seq<AuditEvent>, b: seq<AuditEvent>)
    requires Verifies(a) && Verifies(b) && a != [] && b != []
    requires a[|a| - 1].eventHash == b[|b| - 1].eventHash
    ensures a == b
  {
    var m, n := |a| - 1, |b| - 1;
    assert Follows(a[m], a[..m]) && Follows(b[n], b[..n]);
    SameEntry(a[m], a[..m], b[n], b[..n]);
    forall i | 0 <= i < |a|
      ensures a[i] == b[i]
    {
      SameEntries(a, b, i);
    }
  }

  /** Entries picked from a verified chain, in any order and number, verify only as one of its prefixes. */
  lemma {:induction false} PickedVerifiesOnlyAsPrefix(chain: seq<AuditEvent>, picked: seq<AuditEvent>)
    requires Verifies(chain) && Verifies(picked) && forall e :: e in picked ==> e in chain
    ensures picked <= chain
  {
    forall i | 0 <= i < |picked|
      ensures i < |chain| && picked[i] == chain[i]
    {
      assert picked[i] in chain && Follows(picked[i], picked[..i]);
      var j :| 0 <= j < |chain| && chain[j] == picked[i];
      assert Follows(chain[j], chain[..j]);
    }
    if picked != [] {
      var last := |picked| - 1;
      assert picked[last] in chain && last < |chain|;
    }
    assert |picked| <= |chain| && picked == chain[..|picked|];
  }

  /** Nothing but the export itself verifies up to the recorded head of a tenant. */
  lemma {:induction false} HeadPinsTheExport(s: Store, tenant: string, presented: seq<AuditEvent>)
    requires AuditSound(s) && tenant in s.heads
    requires presented != [] && presented[|presented| - 1].eventHash == s.heads[tenant].eventHash
    ensures Verifies(presented) <==> presented == Export(s.audit, tenant)
  {
    assert AuditSoundFor(s, tenant);
    if Verifies(presented) {
      SameHeadSameHistory(presented, Export(s.audit, tenant));
    }
  }

  /** `verify_audit`: the loop with the hash of the previous entry. */
  method VerifyAudit(events: seq<AuditEvent>) returns (ok: bool)
    ensures ok <==> Verifies(events)
  {
    var previous: Option<Digest> := None;
    for i := 0 to |events|
      invariant previous == if i == 0 then None else Some(events[i - 1].eventHash)
      invariant Verifies(events[..i])
    {
      assert events[..i + 1] == events[..i] + [events[i]];
      VerifiesSnoc(events[..i], events[i]);
      assert Verifies(events) ==> Follows(events[i], events[..i]);
      var body, supplied := events[i].body, events[i].eventHash;
      if body.sequenceNo != i + 1 || body.previousHash != previous {
        return false;
      }
      if supplied != Sha256(body) {
        return false;
      }
      previous := Some(supplied);
    }
    assert events[..|events|] == events;
    return true;
  }

  // -------------------------------------------------------------- operations

  datatype Op =
    | CreateContact(tenant: string, contact: string, payload: string, eventId: string, at: string)
    | CreateCampaign(tenant: string, versionId: string, campaignId: string, manifest: Manifest, eventId: string, at: string)
    | Approve(tenant: string, versionId: string, approver: string, subject: ManifestHash, eventId: string, at: string)
    | Amend(tenant: string, versionId: string, manifest: Manifest, eventId: string, at: string)
    | Suppress(tenant: string, contact: string, reason: string, eventId: string, at: string)
    | GrantConsent(tenant: string, contact: string, channel: string, eventId: string, at: string)
      // interactions, opportunities, memory facts and privacy requests: one event each
    | Record(tenant: string, kind: string, id: string, payload: string, eventId: string, at: string)

  /** The event an operation logs when it goes through. */
  function EventOf(op: Op): Event {
    match op
    case CreateContact(tenant, contact, payload, id, at) => Event(id, tenant, "contact.created", contact, payload, at)
    case CreateCampaign(tenant, versionId, _, _, id, at) => Event(id, tenant, "campaign.version.created", versionId, "", at)
    case Approve(tenant, versionId, approver, _, id, at) => Event(id, tenant, "campaign.version.approved", versionId, approver, at)
    case Amend(tenant, versionId, _, id, at) => Event(id, tenant, "campaign.version.amended", versionId, "", at)
    case Suppress(tenant, contact, reason, id, at) => Event(id, tenant, "contact.suppressed", contact, reason, at)
    case GrantConsent(tenant, contact, channel, id, at) => Event(id, tenant, "consent.granted", contact, channel, at)
    case Record(tenant, kind, aggregateId, payload, id, at) => Event(id, tenant, kind, aggregateId, payload, at)
  }

  /** What an operation does to the rows it keeps, or why it refuses. */
  function Write(s: Store, op: Op): Result<Store, Error> {
    match op
    case CreateContact(tenant, contact, _, _, _) => Ok(s.(contacts := s.contacts + {(tenant, contact)}))
    case CreateCampaign(tenant, versionId, campaignId, manifest, _, _) =>
      var row := Campaign(campaignId, manifest, ManifestSha(manifest), PENDING_APPROVAL, None, 1);
      Ok(s.(campaigns := s.campaigns[(tenant, versionId) := row]))
    case Approve(tenant, versionId, _, subject, _, _) =>
      if (tenant, versionId) !in s.campaigns then Err(CampaignUnknown)
      else if s.campaigns[(tenant, versionId)].manifestHash != subject then Err(ApprovalHashMismatch)
      else
        var row := s.campaigns[(tenant, versionId)].(status := APPROVED, approvedHash := Some(subject));
        Ok(s.(campaigns := s.campaigns[(tenant, versionId) := row]))
    case Amend(tenant, versionId, manifest, _, _) =>
      if (tenant, versionId) !in s.campaigns then Err(CampaignUnknown)
      else
        var old' := s.campaigns[(tenant, versionId)];
        var row := Campaign(old'.campaignId, manifest, ManifestSha(manifest), PENDING_APPROVAL, None, old'.version + 1);
        Ok(s.(campaigns := s.campaigns[(tenant, versionId) := row]))
    case Suppress(tenant, contact, _, _, _) => Ok(s.(suppressed := s.suppressed + {(tenant, contact)}))
    case GrantConsent(tenant, contact, channel, _, _) => Ok(s.(consents := s.consents + {(tenant, contact, channel)}))
    case Record(_, _, _, _, _, _) => Ok(s)
  }

  /** One public method; an exception leaves the store as it was. */
  function Apply(s: Store, op: Op): (Store, Option<Error>) {
    if op.tenant == "" && !op.GrantConsent? then (s, Some(TenantRequired))
    else
      match Write(s, op)
      case Ok(written) => (Append(written, EventOf(op)), None)
      case Err(e) => (s, Some(e))
  }

  function After(ops: seq<Op>): Store {
    if ops == [] then EMPTY_STORE else Apply(After(ops[..|ops| - 1]), ops[|ops| - 1]).0
  }

  lemma {:induction false} WriteKeepsAudit(s: Store, op: Op)
    ensures Write(s, op).Ok? ==> Write(s, op).value.audit == s.audit && Write(s, op).value.heads == s.heads
  {
  }

  lemma {:induction false} StepAudit(s: Store, op: Op)
    requires AuditSound(s)
    ensures AuditSound(Apply(s, op).0)
  {
    forall tenant
      ensures AuditSoundFor(Apply(s, op).0, tenant)
    {
      assert AuditSoundFor(s, tenant);
      if Write(s, op).Ok? {
        var written := Write(s, op).value;
        WriteKeepsAudit(s, op);
        assert AuditSoundFor(written, tenant);
        AppendSoundFor(written, EventOf(op), tenant);
      }
    }
  }

  /** However tenants interleave, each one's exported audit verifies in every reachable store. */
  lemma {:induction false} EveryExportVerifies(ops: seq<Op>)
    ensures AuditSound(After(ops))
    decreases |ops|
  {
    if ops != [] {
      EveryExportVerifies(ops[..|ops| - 1]);
      StepAudit(After(ops[..|ops| - 1]), ops[|ops| - 1]);
    }
  }

  // ------------------------------------------------------- approval, by history

  ghost predicate CampaignsSound(s: Store) {
    forall key :: key in s.campaigns ==>
      && s.campaigns[key].manifestHash == ManifestSha(s.campaigns[key].manifest)
      && s.campaigns[key].approvedHash == if s.campaigns[key].status == APPROVED then Some(s.campaigns[key].manifestHash) else None
  }

  lemma {:induction false} StepCampaigns(s: Store, op: Op)
    requires CampaignsSound(s)
    ensures CampaignsSound(Apply(s, op).0)
  {
  }

  /** The operation writes a manifest for the campaign version. */
  predicate Rewrites(op: Op, tenant: string, versionId: string) {
    (op.CreateCampaign? || op.Amend?) && op.tenant == tenant && op.versionId == versionId
  }

  /** The operation approves the version with the hash of the manifest it has in `s`. */
  predicate ApprovesCurrent(s: Store, op: Op, tenant: string, versionId: string) {
    && op.Approve? && op.tenant == tenant && op.versionId == versionId && tenant != ""
    && (tenant, versionId) in s.campaigns && op.subject == ManifestSha(s.campaigns[(tenant, versionId)].manifest)
  }

  predicate IsApproved(s: Store, tenant: string, versionId: string) {
    (tenant, versionId) in s.campaigns && s.campaigns[(tenant, versionId)].status == APPROVED
  }

  /** Step `j` of the history approved the manifest the version still has at its end. */
  ghost predicate ApprovedAt(ops: seq<Op>, j: nat, tenant: string, versionId: string) {
    && j < |ops| && ApprovesCurrent(After(ops[..j]), ops[j], tenant, versionId)
    && forall i :: j < i < |ops| ==> !Rewrites(ops[i], tenant, versionId)
  }

  lemma {:induction false} ApprovalStep(s: Store, op: Op, tenant: string, versionId: string)
    requires CampaignsSound(s)
    ensures var after := Apply(s, op).0;
      && (IsApproved(after, tenant, versionId)
          <==> ApprovesCurrent(s, op, tenant, versionId)
               || (IsApproved(s, tenant, versionId) && (!Rewrites(op, tenant, versionId) || tenant == "")))
      && ((tenant, versionId) in s.campaigns && (!Rewrites(op, tenant, versionId) || tenant == "") ==>
            && (tenant, versionId) in after.campaigns
            && after.campaigns[(tenant, versionId)].manifest == s.campaigns[(tenant, versionId)].manifest)
  {
  }

  lemma {:induction false} ApprovedAtSnoc(before: seq<Op>, op: Op, j: nat, tenant: string, versionId: string)
    ensures ApprovedAt(before + [op], j, tenant, versionId) <==>
      || (j == |before| && ApprovesCurrent(After(before), op, tenant, versionId))
      || (j < |before| && ApprovedAt(before, j, tenant, versionId) && !Rewrites(op, tenant, versionId))
  {
    var ops := before + [op];
    if j < |before| {
      assert ops[..j] == before[..j];
      assert ops[|before|] == op;
      assert forall i :: j < i < |before| ==> ops[i] == before[i];
    } else if j == |before| {
      assert ops[..j] == before;
    }
  }

  ghost predicate EverApproved(ops: seq<Op>, tenant: string, versionId: string) {
    exists j: nat :: ApprovedAt(ops, j, tenant, versionId)
  }

  /**
   A campaign version counts as approved exactly when some step of the history approved it
   with the hash of its manifest of that moment and no later step wrote another manifest.
   */
  lemma {:induction false} ApprovedExactlyByLastApproval(ops: seq<Op>, tenant: string, versionId: string)
    requires tenant != ""
    ensures CampaignsSound(After(ops))
    ensures IsApproved(After(ops), tenant, versionId) <==> EverApproved(ops, tenant, versionId)
    decreases |ops|
  {
    if ops != [] {
      var before, op := ops[..|ops| - 1], ops[|ops| - 1];
      assert ops == before + [op];
      ApprovedExactlyByLastApproval(before, tenant, versionId);
      StepCampaigns(After(before), op);
      ApprovalStep(After(before), op, tenant, versionId);
      forall j: nat {
        ApprovedAtSnoc(before, op, j, tenant, versionId);
      }
      if ApprovesCurrent(After(before), op, tenant, versionId) {
        assert ApprovedAt(ops, |before|, tenant, versionId);
      } else if EverApproved(before, tenant, versionId) && !Rewrites(op, tenant, versionId) {
        var j: nat :| ApprovedAt(before, j, tenant, versionId);
        assert ApprovedAt(ops, j, tenant, versionId);
      }
    }
  }

  /** The manifest approved is the one the version still has. */
  lemma {:induction false} ApprovedManifestIsCurrent(ops: seq<Op>, j: nat, tenant: string, versionId: string)
    requires tenant != "" && ApprovedAt(ops, j, tenant, versionId)
    ensures (tenant, versionId) in After(ops).campaigns
    ensures ops[j].subject == ManifestSha(After(ops).campaigns[(tenant, versionId)].manifest)
    decreases |ops|
  {
    var before, op := ops[..|ops| - 1], ops[|ops| - 1];
    assert ops == before + [op];
    ApprovedExactlyByLastApproval(before, tenant, versionId);
    ApprovedAtSnoc(before, op, j, tenant, versionId);
    ApprovalStep(After(before), op, tenant, versionId);
    if j < |before| {
      ApprovedManifestIsCurrent(before, j, tenant, versionId);
    }
  }

  /** A suppression is never taken back. */
  lemma {:induction false} SuppressionIsForGood(ops: seq<Op>, upTo: nat)
    requires upTo <= |ops|
    ensures After(ops[..upTo]).suppressed <= After(ops).suppressed
    decreases |ops|
  {
    if upTo < |ops| {
      var before := ops[..|ops| - 1];
      assert before[..upTo] == ops[..upTo];
      SuppressionIsForGood(before, upTo);
    } else {
      assert ops[..upTo] == ops;
    }
  }

  // ---------------------------------------------------- the store, by history

  predicate Creates(op: Op, tenant: string, contact: string) {
    op.CreateContact? && op.tenant == tenant && op.contact == contact && tenant != ""
  }

  predicate Suppressing(op: Op, tenant: string, contact: string) {
    op.Suppress? && op.tenant == tenant && op.contact == contact && tenant != ""
  }

  predicate Grants(op: Op, tenant: string, contact: string, channel: string) {
    op.GrantConsent? && op.tenant == tenant && op.contact == contact && op.channel == channel
  }

  /**
   A contact is known, suppressed, or has consented to a channel exactly when a step of the
   history said so; consents alone are also taken for an empty tenant.
   */
  lemma {:induction false} RowsAreHistory(ops: seq<Op>, tenant: string, contact: string, channel: string)
    ensures (tenant, contact) in After(ops).contacts <==> exists k :: 0 <= k < |ops| && Creates(ops[k], tenant, contact)
    ensures (tenant, contact) in After(ops).suppressed <==> exists k :: 0 <= k < |ops| && Suppressing(ops[k], tenant, contact)
    ensures (tenant, contact, channel) in After(ops).consents <==>
      exists k :: 0 <= k < |ops| && Grants(ops[k], tenant, contact, channel)
    decreases |ops|
  {
    if ops != [] {
      var before, last := ops[..|ops| - 1], ops[|ops| - 1];
      RowsAreHistory(before, tenant, contact, channel);
      assert forall k :: 0 <= k < |before| ==> before[k] == ops[k];
      RowStep(After(before), last, tenant, contact, channel);
    }
  }

  lemma {:induction false} RowStep(s: Store, op: Op, tenant: string, contact: string, channel: string)
    ensures var (after, who, what) := (Apply(s, op).0, (tenant, contact), (tenant, contact, channel));
      && (who in after.contacts <==> who in s.contacts || Creates(op, tenant, contact))
      && (who in after.suppressed <==> who in s.suppressed || Suppressing(op, tenant, contact))
      && (what in after.consents <==> what in s.consents || Grants(op, tenant, contact, channel))
  {
  }

  /**
   When an operation refuses, and that it then changes nothing; when it goes through it logs
   one event of its own tenant, under its own id, at the end of the list.
   */
  lemma {:induction false} RefusesExactly(s: Store, op: Op)
    ensures var (after, error) := Apply(s, op);
      var anonymous := op.tenant == "" && !op.GrantConsent?;
      var unknown := (op.Approve? || op.Amend?) && (op.tenant, op.versionId) !in s.campaigns;
      var mismatch := op.Approve? && (op.tenant, op.versionId) in s.campaigns
                      && s.campaigns[(op.tenant, op.versionId)].manifestHash != op.subject;
      && error == (if anonymous then Some(TenantRequired)
                   else if unknown then Some(CampaignUnknown)
                   else if mismatch then Some(ApprovalHashMismatch)
                   else None)
      && (error != None ==> after == s)
      && (error == None ==>
            && |after.audit| == |s.audit| + 1 && after.audit[..|s.audit|] == s.audit
            && var event := after.audit[|s.audit|].body.event;
               event.tenant == op.tenant && event.id == op.eventId && event.occurredAt == op.at)
  {
  }

  /** The event names the operation: whose, under which id, when, what was done, to what, and with what. */
  predicate Tells(event: Event, op: Op) {
    && event.tenant == op.tenant && event.id == op.eventId && event.occurredAt == op.at
    && match op
       case CreateContact(_, contact, payload, _, _) => (event.kind, event.aggregateId, event.payload) == ("contact.created", contact, payload)
       case CreateCampaign(_, versionId, _, _, _, _) => event.kind == "campaign.version.created" && event.aggregateId == versionId
       case Approve(_, versionId, approver, _, _, _) =>
         (event.kind, event.aggregateId, event.payload) == ("campaign.version.approved", versionId, approver)
       case Amend(_, versionId, _, _, _) => event.kind == "campaign.version.amended" && event.aggregateId == versionId
       case Suppress(_, contact, reason, _, _) => (event.kind, event.aggregateId, event.payload) == ("contact.suppressed", contact, reason)
       case GrantConsent(_, contact, channel, _, _) => (event.kind, event.aggregateId, event.payload) == ("consent.granted", contact, channel)
       case Record(_, kind, id, payload, _, _) => (event.kind, event.aggregateId, event.payload) == (kind, id, payload)
  }

  /** The tenant's operations that went through, in order. */
  function Done(ops: seq<Op>, tenant: string): seq<Op> {
    if ops == [] then []
    else
      var before, last := ops[..|ops| - 1], ops[|ops| - 1];
      Done(before, tenant) + if last.tenant == tenant && Apply(After(before), last).1 == None then [last] else []
  }

  /** A tenant's export tells exactly its operations that went through, one entry each, in order. */
  lemma {:induction false} ExportTellsHistory(ops: seq<Op>, tenant: string)
    ensures var events, done := Export(After(ops).audit, tenant), Done(ops, tenant);
      |events| == |done| && forall i :: 0 <= i < |events| ==> Tells(events[i].body.event, done[i])
    decreases |ops|
  {
    if ops != [] {
      var before, last := ops[..|ops| - 1], ops[|ops| - 1];
      ExportTellsHistory(before, tenant);
      StepTells(After(before), last, tenant);
    }
  }

  lemma {:induction false} StepTells(s: Store, op: Op, tenant: string)
    ensures var (after, error) := Apply(s, op);
      && (error != None || op.tenant != tenant ==> Export(after.audit, tenant) == Export(s.audit, tenant))
      && (error == None && op.tenant == tenant ==>
            && |Export(after.audit, tenant)| == |Export(s.audit, tenant)| + 1
            && Export(after.audit, tenant)[..|Export(s.audit, tenant)|] == Export(s.audit, tenant)
            && Tells(Export(after.audit, tenant)[|Export(s.audit, tenant)|].body.event, op))
  {
    if Apply(s, op).1 == None {
      WriteKeepsAudit(s, op);
      var written := Write(s, op).value;
      ExportSnoc(s.audit, AuditEvent(NextBody(written, EventOf(op)), Sha256(NextBody(written, EventOf(op)))), tenant);
    }
  }

  /** What creating and amending write: a pending version of that very manifest, under the old campaign with the next number. */
  lemma {:induction false} ManifestIsPending(s: Store, op: Op)
    requires (op.CreateCampaign? || op.Amend?) && Apply(s, op).1 == None
    ensures var (key, after) := ((op.tenant, op.versionId), Apply(s, op).0);
      && key in after.campaigns
      && after.campaigns[key].manifest == op.manifest && after.campaigns[key].manifestHash == ManifestSha(op.manifest)
      && after.campaigns[key].status == PENDING_APPROVAL && after.campaigns[key].approvedHash == None
      && (op.CreateCampaign? ==> after.campaigns[key].campaignId == op.campaignId && after.campaigns[key].version == 1)
      && (op.Amend? ==>
            && key in s.campaigns && after.campaigns[key].campaignId == s.campaigns[key].campaignId
            && after.campaigns[key].version == s.campaigns[key].version + 1)
      && (forall other :: other != key ==> (other in after.campaigns <==> other in s.campaigns))
      && (forall other :: other != key && other in s.campaigns ==> after.campaigns[other] == s.campaigns[other])
  {
  }

  // ---------------------------------------------------------------- evidence

  datatype Evidence = Evidence(
    suppressed: bool, consentActive: bool, campaignApproved: bool, approvedContentHash: Option<string>,
    repepSnapshotValid: bool, repepListed: Option<bool>,
    repepEnabled: bool, exemptionType: Option<string>, exemptionApproved: bool, evidenceRef: Option<string>)

  /** What is asked; `channelKey` is the lower-case channel name under which a manifest stores its content hash. */
  datatype Question = Question(tenant: string, contact: string, channel: string, channelKey: string, versionId: string)

  /** The answer of a store that knows the contact. */
  function Answer(s: Store, q: Question): Evidence {
    var suppressed := (q.tenant, q.contact) in s.suppressed;
    var consent := (q.tenant, q.contact, q.channel) in s.consents;
    if (q.tenant, q.versionId) !in s.campaigns then
      Evidence(suppressed, consent, false, None, false, None, false, None, false, None)
    else
      var c := s.campaigns[(q.tenant, q.versionId)];
      var m := c.manifest;
      Evidence(suppressed, consent, c.status == APPROVED && c.approvedHash.Some?,
               if q.channelKey in m.contentHashes then Some(m.contentHashes[q.channelKey]) else None,
               false, None, m.repepEnabled, m.exemptionType, m.exemptionApproved, m.evidenceRef)
  }

  function ContactabilityEvidence(s: Store, q: Question): Result<Evidence, Error> {
    if q.tenant == "" then Err(TenantRequired)
    else if (q.tenant, q.contact) !in s.contacts then Err(ContactNotFound)
    else Ok(Answer(s, q))
  }

  /**
   What is answered, and about what: the contact's suppression and its consent to that channel,
   and of the campaign version whether its manifest is approved, the content hash for that
   channel and the registry fields. Registry readings are never answered.
   */
  lemma {:induction false} EvidenceIsOfTheStore(s: Store, q: Question)
    requires CampaignsSound(s)
    ensures var answer := ContactabilityEvidence(s, q);
      && (q.tenant == "" ==> answer == Err(TenantRequired))
      && (q.tenant != "" && (q.tenant, q.contact) !in s.contacts ==> answer == Err(ContactNotFound))
      && (q.tenant != "" && (q.tenant, q.contact) in s.contacts ==>
            && answer.Ok? && var e := answer.value;
            && (e.suppressed <==> (q.tenant, q.contact) in s.suppressed)
            && (e.consentActive <==> (q.tenant, q.contact, q.channel) in s.consents)
            && (e.campaignApproved <==> (q.tenant, q.versionId) in s.campaigns && s.campaigns[(q.tenant, q.versionId)].status == APPROVED)
            && !e.repepSnapshotValid && e.repepListed == None
            && ((q.tenant, q.versionId) !in s.campaigns ==>
                  e.approvedContentHash == None && !e.repepEnabled && e.exemptionType == None && !e.exemptionApproved
                  && e.evidenceRef == None)
            && ((q.tenant, q.versionId) in s.campaigns ==>
                  var m := s.campaigns[(q.tenant, q.versionId)].manifest;
                  && (q.channelKey in m.contentHashes ==> e.approvedContentHash == Some(m.contentHashes[q.channelKey]))
                  && (q.channelKey !in m.contentHashes ==> e.approvedContentHash == None)
                  && (e.repepEnabled, e.exemptionType, e.exemptionApproved, e.evidenceRef)
                     == (m.repepEnabled, m.exemptionType, m.exemptionApproved, m.evidenceRef)))
  {
  }

  // ------------------------------------------------------------------- store

  /** `CRMStore` on its own dictionaries and lists. */
  class CRMStore {
    var contacts: set<(string, string)>
    var campaigns: map<(string, string), Campaign>
    var suppressed: set<(string, string)>
    var consents: set<(string, string, string)>
    var audit: seq<AuditEvent>
    var heads: map<string, AuditEvent>

    function Value(): Store
      reads this
    {
      Store(contacts, campaigns, suppressed, consents, audit, heads)
    }

    constructor ()
      ensures Value() == EMPTY_STORE
    {
      contacts, campaigns, suppressed, consents, audit, heads := {}, map[], {}, {}, [], map[];
    }

    method AppendEvent(event: Event)
      modifies this`audit, this`heads
      ensures Value() == Append(old(Value()), event)
    {
      var previous: Option<Digest>, sequenceNo := None, 1;
      if event.tenant in heads {
        previous, sequenceNo := Some(heads[event.tenant].eventHash), heads[event.tenant].body.sequenceNo + 1;
      }
      var body := AuditBody(sequenceNo, previous, event);
      var entry := AuditEvent(body, Sha256(body));
      audit := audit + [entry];
      heads := heads[event.tenant := entry];
    }

    method DoCreateCampaign(tenant: string, versionId: string, campaignId: string, manifest: Manifest,
                            eventId: string, at: string) returns (error: Option<Error>)
      modifies this
      ensures (Value(), error) == Apply(old(Value()), CreateCampaign(tenant, versionId, campaignId, manifest, eventId, at))
    {
      if tenant == "" {
        return Some(TenantRequired);
      }
      campaigns := campaigns[(tenant, versionId) :=
        Campaign(campaignId, manifest, ManifestSha(manifest), PENDING_APPROVAL, None, 1)];
      AppendEvent(Event(eventId, tenant, "campaign.version.created", versionId, "", at));
      error := None;
    }

    method DoApprove(tenant: string, versionId: string, approver: string, subject: ManifestHash,
                     eventId: string, at: string) returns (error: Option<Error>)
      modifies this
      ensures (Value(), error) == Apply(old(Value()), Approve(tenant, versionId, approver, subject, eventId, at))
    {
      if tenant == "" {
        return Some(TenantRequired);
      }
      var key := (tenant, versionId);
      if key !in campaigns {
        return Some(CampaignUnknown);
      }
      if campaigns[key].manifestHash != subject {
        return Some(ApprovalHashMismatch);
      }
      campaigns := campaigns[key := campaigns[key].(status := APPROVED, approvedHash := Some(subject))];
      AppendEvent(Event(eventId, tenant, "campaign.version.approved", versionId, approver, at));
      error := None;
    }

    method DoAmend(tenant: string, versionId: string, manifest: Manifest, eventId: string, at: string)
      returns (error: Option<Error>)
      modifies this
      ensures (Value(), error) == Apply(old(Value()), Amend(tenant, versionId, manifest, eventId, at))
    {
      if tenant == "" {
        return Some(TenantRequired);
      }
      var key := (tenant, versionId);
      if key !in campaigns {
        return Some(CampaignUnknown);
      }
      var row := campaigns[key].(manifest := manifest, manifestHash := ManifestSha(manifest),
                                 status := PENDING_APPROVAL, approvedHash := None);
      campaigns := campaigns[key := row.(version := row.version + 1)];
      AppendEvent(Event(eventId, tenant, "campaign.version.amended", versionId, "", at));
      error := None;
    }

    method DoSuppress(tenant: string, contact: string, reason: string, eventId: string, at: string)
      returns (error: Option<Error>)
      modifies this
      ensures (Value(), error) == Apply(old(Value()), Suppress(tenant, contact, reason, eventId, at))
    {
      if tenant == "" {
        return Some(TenantRequired);
      }
      suppressed := suppressed + {(tenant, contact)};
      AppendEvent(Event(eventId, tenant, "contact.suppressed", contact, reason, at));
      error := None;
    }

    /** `export_audit`: the tenant's entries of the shared list, in order. */
    method DoExport(tenant: string) returns (events: seq<AuditEvent>)
      ensures events == Export(audit, tenant)
      ensures AuditSound(Value()) ==> Verifies(events)
    {
      events := [];
      for i := 0 to |audit|
        invariant events == Export(audit[..i], tenant)
      {
        assert audit[..i + 1][..i] == audit[..i];
        if audit[i].body.event.tenant == tenant {
          events := events + [audit[i]];
        }
      }
      assert audit[..|audit|] == audit;
      assert AuditSound(Value()) ==> AuditSoundFor(Value(), tenant);
    }
  }
}
