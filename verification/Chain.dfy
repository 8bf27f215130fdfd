/**
 The whole chain from CRM evidence to a contact on the wire, over every run: CRM
 changes, policy decisions, authorizations and dispatches by any number of tenants
 and adapter processes, on one clock that does not go back.

 Requests of the policy gateway and commands of the adapters are threads, interleaved
 between reading the evidence from the CRM, deciding, storing the context, taking it,
 issuing the token, verifying it and consuming it. A thread that dies takes no more steps.

 Sources: services/policy_gateway/app/server.py, with the parts modelled in Crm,
 Policy and Authorization.
 */
module Chain {
  import opened Common
  import opened Authorization
  import Crm
  import Policy

  /**
   `durable`: PostgreSQL keeps the authorizations, shared by all adapters; otherwise each
   adapter process only remembers the tokens it has itself seen.
   */
  datatype Config = Config(issuer: string, maxDecisionAge: int, contextTtl: real, maxContexts: nat, durable: bool)

  type Thread = nat

  /** A request with the CRM's evidence in it, read after `crmSteps` CRM operations at the moment `at`. */
  datatype Reading = Reading(request: Policy.Request, crmSteps: nat, at: real)

  /** What was decided, and on which reading. */
  datatype Record = Record(decision: Decision, basis: Reading)

  /** A token that an adapter has verified and not consumed yet. */
  datatype Checked = Checked(instance: string, channel: Policy.Channel, claims: Claims, at: real)

  /** A contact handed to the transport, right after its token was consumed. */
  datatype Dispatch = Dispatch(instance: string, channel: Policy.Channel, claims: Claims, verifiedAt: real, at: real)

  datatype System = System(
    clock: real,
    crmOps: seq<Crm.Op>, crmAt: seq<real>,
    reading: map<Thread, Reading>,      // evidence read, decision to come
    decided: map<string, Record>,
    unstored: set<string>,              // decided, context to be stored
    contexts: seq<Entry>,
    taken: map<Thread, Entry>,          // context taken, token to be issued
    minted: set<Claims>,
    rows: map<string, Row>,
    checked: map<Thread, Checked>,      // token verified, to be consumed
    seen: map<string, set<string>>,
    sent: seq<Dispatch>)

  datatype Op =
    | DoCrm(crm: Crm.Op, at: real)
    | DoRead(thread: Thread, body: Policy.Request, at: real)
    | DoDecide(thread: Thread, id: string, at: real)
      // the context store reads its clock before it takes its lock
    | DoStore(id: string, read: real, at: real)
    | DoTake(thread: Thread, id: string, tenant: string, read: real, at: real)
    | DoIssue(thread: Thread, audience: Audience, ttl: int, jti: string, at: real)
    | DoVerify(thread: Thread, instance: string, channel: Policy.Channel, token: Token, command: Command, at: real)
    | DoConsume(thread: Thread, at: real)

  const START := System(0.0, [], [], map[], map[], {}, [], map[], {}, map[], map[], map[], [])

  function ChannelName(c: Policy.Channel): string {
    match c
    case VOICE => "VOICE"
    case WHATSAPP => "WHATSAPP"
  }

  function ChannelKey(c: Policy.Channel): string {
    match c
    case VOICE => "voice"
    case WHATSAPP => "whatsapp"
  }

  /** The CRM answers every evidence key. */
  function FromCrm(e: Crm.Evidence): Policy.Evidence {
    Policy.Evidence(Some(e.campaignApproved), e.approvedContentHash, Some(e.suppressed), Some(e.consentActive),
                    Some(e.repepSnapshotValid), e.repepListed, Some(e.repepEnabled), e.exemptionType,
                    Some(e.exemptionApproved), e.evidenceRef)
  }

  function EvidenceFor(store: Crm.Store, body: Policy.Request): Result<Crm.Evidence, Crm.Error> {
    Crm.ContactabilityEvidence(
      store, Crm.Question(body.tenant, body.contact, ChannelName(body.channel), ChannelKey(body.channel), body.versionId))
  }

  /** `evidence_client.resolve`: the CRM answers at this moment, or the request fails. */
  ghost function Read(s: System, thread: Thread, body: Policy.Request, at: real): System {
    match EvidenceFor(Crm.After(s.crmOps), body)
    case Err(_) => s.(clock := at)
    case Ok(e) => s.(clock := at, reading := s.reading[thread := Reading(Policy.Resolve(body, FromCrm(e)), |s.crmOps|, at)])
  }

  /** `engine.decide`, which stamps the decision. */
  ghost function Decide(s: System, thread: Thread, id: string, at: real): System {
    if thread !in s.reading then s
    else
      var basis := s.reading[thread];
      var decision := Decision(id, if Policy.Permitted(basis.request) then Policy.ALLOW else Policy.DENY, at);
      s.(clock := at, reading := s.reading - {thread}, decided := s.decided[id := Record(decision, basis)],
         unstored := s.unstored + {id})
  }

  function Store(s: System, cfg: Config, id: string, read: real, at: real): System {
    if id !in s.unstored || id !in s.decided then s
    else
      var entry := Entry(s.decided[id].decision, s.decided[id].basis.request, read + cfg.contextTtl);
      s.(clock := at, unstored := s.unstored - {id}, contexts := Put(s.contexts, entry, read, cfg.maxContexts))
  }

  function TakeContext(s: System, thread: Thread, id: string, tenant: string, read: real, at: real): System {
    var (contexts, found) := Take(s.contexts, id, tenant, read);
    s.(clock := at, contexts := contexts, taken := if found.Ok? then s.taken[thread := found.value] else s.taken)
  }

  /** `issuer.issue`; the token is only handed out once its row is registered. */
  function IssueToken(s: System, cfg: Config, thread: Thread, audience: Audience, ttl: int, jti: string, at: real)
    : (System, Result<Claims, Error>)
  {
    if thread !in s.taken then (s, Err(ContextNotFound))
    else
      var entry, next := s.taken[thread], s.(clock := at, taken := s.taken - {thread});
      match Issue(cfg.issuer, cfg.maxDecisionAge, entry.decision, entry.request, audience, ttl, at, jti)
      case Err(e) => (next, Err(e))
      case Ok(claims) =>
        if cfg.durable && jti in s.rows then (next, Err(ConstraintViolation))
        else
          (next.(rows := if cfg.durable then s.rows[jti := Row(claims.tenant, claims.decisionId, claims.exp, false)] else s.rows,
                 minted := s.minted + {claims}),
           Ok(claims))
  }

  function VerifyToken(s: System, cfg: Config, thread: Thread, instance: string, channel: Policy.Channel, token: Token,
                       command: Command, at: real): (System, Result<Claims, Error>)
  {
    match Verify(cfg.issuer, token, AdapterFor(channel), command, at)
    case Err(e) => (s.(clock := at), Err(e))
    case Ok(claims) => (s.(clock := at, checked := s.checked[thread := Checked(instance, channel, claims, at)]), Ok(claims))
  }

  function Seen(s: System, instance: string): set<string> {
    if instance in s.seen then s.seen[instance] else {}
  }

  /** The verified token is consumed, its channel checked, and the contact handed to the transport. */
  function ConsumeToken(s: System, cfg: Config, thread: Thread, at: real): (System, Result<Claims, Error>) {
    if thread !in s.checked then (s, Err(InvalidSignature))
    else
      var v, next := s.checked[thread], s.(clock := at, checked := s.checked - {thread});
      var (rows, fresh') := Consume(s.rows, v.claims.jti, v.claims.tenant, at);
      var (seen, unseen) := FirstUse(Seen(s, v.instance), v.claims.jti);
      var consumed := if cfg.durable then next.(rows := rows) else next.(seen := s.seen[v.instance := seen]);
      if !(if cfg.durable then fresh' else unseen) then (next, Err(TokenReplay))
      else if v.claims.channel != v.channel then (consumed, Err(ChannelMismatch))
      else (consumed.(sent := s.sent + [Dispatch(v.instance, v.channel, v.claims, v.at, at)]), Ok(v.claims))
  }

  /**
   The clock does not go back, threads take their steps in order, decision ids are new
   (random UUIDs), and a presented token with the issuer's signature is one the issuer made.
   */
  predicate Enabled(s: System, op: Op) {
    && op.at >= s.clock
    && match op
       case DoCrm(_, _) => true
       case DoRead(thread, _, _) => thread !in s.reading
       case DoDecide(thread, id, _) => thread in s.reading && id !in s.decided
       case DoStore(id, _, _) => id in s.unstored
       case DoTake(thread, _, _, _, _) => thread !in s.taken
       case DoIssue(thread, _, _, _, _) => thread in s.taken
       case DoVerify(thread, _, _, token, _, _) => thread !in s.checked && (token.Signed? ==> token.claims in s.minted)
       case DoConsume(thread, _) => thread in s.checked
  }

  ghost function Step(s: System, cfg: Config, op: Op): System {
    match op
    case DoCrm(crm, at) => s.(clock := at, crmOps := s.crmOps + [crm], crmAt := s.crmAt + [at])
    case DoRead(thread, body, at) => Read(s, thread, body, at)
    case DoDecide(thread, id, at) => Decide(s, thread, id, at)
    case DoStore(id, read, at) => Store(s, cfg, id, read, at)
    case DoTake(thread, id, tenant, read, at) => TakeContext(s, thread, id, tenant, read, at)
    case DoIssue(thread, audience, ttl, jti, at) => IssueToken(s, cfg, thread, audience, ttl, jti, at).0
    case DoVerify(thread, instance, channel, token, command, at) =>
      VerifyToken(s, cfg, thread, instance, channel, token, command, at).0
    case DoConsume(thread, at) => ConsumeToken(s, cfg, thread, at).0
  }

  ghost predicate IsRun(s: System, cfg: Config, ops: seq<Op>)
    decreases |ops|
  {
    ops == [] || (Enabled(s, ops[0]) && IsRun(Step(s, cfg, ops[0]), cfg, ops[1..]))
  }

  ghost function After(s: System, cfg: Config, ops: seq<Op>): System
    decreases |ops|
  {
    if ops == [] then s else After(Step(s, cfg, ops[0]), cfg, ops[1..])
  }

  // -------------------------------------------------------------- invariants

  /** The request carries what the CRM answers after these operations. */
  ghost predicate Answered(history: seq<Crm.Op>, request: Policy.Request) {
    var evidence := EvidenceFor(Crm.After(history), request);
    evidence.Ok? && request == Policy.Resolve(request, FromCrm(evidence.value))
  }

  /** The request carries what the CRM answered after the reading's CRM operations, at the reading's moment. */
  ghost predicate Based(s: System, b: Reading) {
    && b.at <= s.clock
    && b.crmSteps <= |s.crmOps| == |s.crmAt|
    && (forall i :: 0 <= i < b.crmSteps ==> s.crmAt[i] <= b.at)
    && (forall i :: b.crmSteps <= i < |s.crmAt| ==> b.at <= s.crmAt[i])
    && Answered(s.crmOps[..b.crmSteps], b.request)
  }

  ghost predicate RecordOk(s: System, id: string, rec: Record) {
    && rec.decision.id == id
    && Based(s, rec.basis) && rec.basis.at <= rec.decision.decidedAt <= s.clock
    && (rec.decision.outcome == Policy.ALLOW <==> Policy.Permitted(rec.basis.request))
  }

  ghost predicate RecordsOk(s: System) {
    && |s.crmAt| == |s.crmOps|
    && (forall i :: 0 <= i < |s.crmAt| ==> s.crmAt[i] <= s.clock)
    && (forall t :: t in s.reading ==> Based(s, s.reading[t]))
    && forall id :: id in s.decided ==> RecordOk(s, id, s.decided[id])
  }

  predicate NoContext(s: System, id: string) {
    forall e :: e in s.contexts ==> e.decision.id != id
  }

  predicate NoTaken(s: System, id: string) {
    forall t :: t in s.taken ==> s.taken[t].decision.id != id
  }

  /** The context holds a decision as it was made. */
  predicate Backed(s: System, e: Entry) {
    && e.decision.id in s.decided
    && s.decided[e.decision.id].decision == e.decision && s.decided[e.decision.id].basis.request == e.request
  }

  /** A decision waits to be stored, or is in contexts, or is taken by one thread, and in one of these places only. */
  predicate PlacesOk(s: System) {
    && (forall id :: id in s.unstored ==> id in s.decided && NoContext(s, id) && NoTaken(s, id))
    && (forall e :: e in s.contexts ==> Backed(s, e) && NoTaken(s, e.decision.id))
    && (forall t :: t in s.taken ==> Backed(s, s.taken[t]))
    && (forall t, u :: t in s.taken && u in s.taken && s.taken[t].decision.id == s.taken[u].decision.id ==> t == u)
  }

  /** Nothing is left of the decision from which a token could be made. */
  predicate Gone(s: System, id: string) {
    id !in s.unstored && NoContext(s, id) && NoTaken(s, id)
  }

  /** Claims are those of one allowed decision, in its time window. */
  predicate ClaimsOk(s: System, cfg: Config, c: Claims) {
    && c.decisionId in s.decided
    && var rec := s.decided[c.decisionId];
       var request := rec.basis.request;
       && rec.decision.outcome == Policy.ALLOW
       && c.iss == cfg.issuer && c.aud == AdapterFor(c.channel)
       && c.tenant == request.tenant && c.contact == request.contact
       && c.versionId == request.versionId && c.contentHash == request.contentHash
       && c.channel == request.channel && c.purpose == request.purpose
       && c.iat <= rec.decision.decidedAt.Floor + cfg.maxDecisionAge
       && c.iat < c.exp <= c.iat + MAX_TTL
  }

  predicate MintedOk(s: System, cfg: Config) {
    && (forall c :: c in s.minted ==> ClaimsOk(s, cfg, c) && Gone(s, c.decisionId))
    && (forall c, d :: c in s.minted && d in s.minted && c.decisionId == d.decisionId ==> c == d)
    && (cfg.durable ==> forall c :: c in s.minted ==>
          c.jti in s.rows && s.rows[c.jti].(consumed := false) == Row(c.tenant, c.decisionId, c.exp, false))
  }

  /** A verified token is one of the issuer, of the adapter's channel, verified after its decision and before its expiry. */
  predicate CheckOk(s: System, v: Checked) {
    && v.claims in s.minted && v.claims.channel == v.channel
    && v.claims.decisionId in s.decided && s.decided[v.claims.decisionId].decision.decidedAt <= v.at <= s.clock
    && v.at.Floor < v.claims.exp
  }

  predicate CheckedOk(s: System) {
    forall t :: t in s.checked ==> CheckOk(s, s.checked[t])
  }

  predicate DispatchOk(s: System, cfg: Config, d: Dispatch) {
    && CheckOk(s, Checked(d.instance, d.channel, d.claims, d.verifiedAt)) && d.verifiedAt <= d.at
    && (cfg.durable ==>
          d.at < d.claims.exp as real && d.claims.jti in s.rows && s.rows[d.claims.jti].consumed)
    && (!cfg.durable ==> d.claims.jti in Seen(s, d.instance))
  }

  predicate SentOk(s: System, cfg: Config) {
    && (forall i :: 0 <= i < |s.sent| ==> DispatchOk(s, cfg, s.sent[i]))
    && (forall i, j :: 0 <= i < j < |s.sent| && s.sent[i].claims == s.sent[j].claims ==>
          !cfg.durable && s.sent[i].instance != s.sent[j].instance)
  }

  ghost predicate Inv(s: System, cfg: Config) {
    RecordsOk(s) && PlacesOk(s) && MintedOk(s, cfg) && CheckedOk(s) && SentOk(s, cfg)
  }

  // -------------------------------------------------- what a step leaves alone

  /** Earlier decisions are still on record, and time has not gone back. */
  predicate Remembers(s: System, after: System) {
    after.clock >= s.clock && forall id :: id in s.decided ==> id in after.decided && after.decided[id] == s.decided[id]
  }

  /** Nothing a token could be made from has appeared for a decision it is gone for. */
  ghost predicate StaysGone(s: System, after: System) {
    forall id :: id in s.decided && Gone(s, id) ==> Gone(after, id)
  }

  lemma {:induction false} BasedLater(s: System, after: System, b: Reading)
    requires Based(s, b) && after.clock >= s.clock && after.crmOps == s.crmOps && after.crmAt == s.crmAt
    ensures Based(after, b)
  {
  }

  lemma {:induction false} RecordLater(s: System, after: System, id: string, rec: Record)
    requires RecordOk(s, id, rec) && after.clock >= s.clock && after.crmOps == s.crmOps && after.crmAt == s.crmAt
    ensures RecordOk(after, id, rec)
  {
    BasedLater(s, after, rec.basis);
  }

  /** A step that leaves the CRM alone and adds only good readings and decisions keeps the records. */
  lemma {:induction false} RecordsKept(s: System, after: System)
    requires RecordsOk(s) && after.clock >= s.clock && after.crmOps == s.crmOps && after.crmAt == s.crmAt
    requires forall t :: t in after.reading ==>
      (t in s.reading && after.reading[t] == s.reading[t]) || Based(after, after.reading[t])
    requires forall id :: id in after.decided ==>
      (id in s.decided && after.decided[id] == s.decided[id]) || RecordOk(after, id, after.decided[id])
    ensures RecordsOk(after)
  {
    forall t | t in after.reading
      ensures Based(after, after.reading[t])
    {
      if t in s.reading && after.reading[t] == s.reading[t] {
        BasedLater(s, after, s.reading[t]);
      }
    }
    forall id | id in after.decided
      ensures RecordOk(after, id, after.decided[id])
    {
      if id in s.decided && after.decided[id] == s.decided[id] {
        RecordLater(s, after, id, s.decided[id]);
      }
    }
  }

  lemma {:induction false} MintedKept(s: System, after: System, cfg: Config)
    requires MintedOk(s, cfg) && Remembers(s, after) && StaysGone(s, after) && after.minted == s.minted
    requires forall jti :: jti in s.rows ==>
      jti in after.rows && after.rows[jti].(consumed := s.rows[jti].consumed) == s.rows[jti]
    ensures MintedOk(after, cfg)
  {
    forall c | c in s.minted
      ensures ClaimsOk(after, cfg, c) && Gone(after, c.decisionId)
    {
      assert ClaimsOk(s, cfg, c) && Gone(s, c.decisionId);
    }
  }

  lemma {:induction false} CheckKept(s: System, after: System, v: Checked)
    requires CheckOk(s, v) && Remembers(s, after) && s.minted <= after.minted
    ensures CheckOk(after, v)
  {
  }

  lemma {:induction false} CheckedKept(s: System, after: System)
    requires CheckedOk(s) && Remembers(s, after) && s.minted <= after.minted
    requires forall t :: t in after.checked ==> t in s.checked && after.checked[t] == s.checked[t]
    ensures CheckedOk(after)
  {
    forall t | t in after.checked
      ensures CheckOk(after, after.checked[t])
    {
      CheckKept(s, after, s.checked[t]);
    }
  }

  lemma {:induction false} SentKept(s: System, after: System, cfg: Config)
    requires SentOk(s, cfg) && Remembers(s, after) && s.minted <= after.minted
    requires after.sent == s.sent && after.seen == s.seen
    requires forall jti :: jti in s.rows ==> jti in after.rows && after.rows[jti] == s.rows[jti]
    ensures SentOk(after, cfg)
  {
    forall i | 0 <= i < |s.sent|
      ensures DispatchOk(after, cfg, s.sent[i])
    {
      var d := s.sent[i];
      assert DispatchOk(s, cfg, d);
      CheckKept(s, after, Checked(d.instance, d.channel, d.claims, d.verifiedAt));
    }
  }

  /** A step that makes no token, consumes none and puts no old decision back keeps tokens and dispatches good. */
  lemma {:induction false} TokensKept(s: System, after: System, cfg: Config)
    requires MintedOk(s, cfg) && CheckedOk(s) && SentOk(s, cfg) && Remembers(s, after) && StaysGone(s, after)
    requires after == s.(clock := after.clock, crmOps := after.crmOps, crmAt := after.crmAt, reading := after.reading,
                         decided := after.decided, unstored := after.unstored, contexts := after.contexts, taken := after.taken)
    ensures MintedOk(after, cfg) && CheckedOk(after) && SentOk(after, cfg)
  {
    MintedKept(s, after, cfg);
    CheckedKept(s, after);
    SentKept(s, after, cfg);
  }

  lemma {:induction false} PlacesKept(s: System, after: System)
    requires PlacesOk(s) && Remembers(s, after)
    requires after.unstored == s.unstored && after.contexts == s.contexts && after.taken == s.taken
    ensures PlacesOk(after) && StaysGone(s, after)
  {
  }

  // ------------------------------------------------------- steps of the CRM

  lemma {:induction false} BasedBeforeMore(s: System, after: System, b: Reading, crm: Crm.Op)
    requires Based(s, b) && after.clock >= s.clock
    requires after.crmOps == s.crmOps + [crm] && after.crmAt == s.crmAt + [after.clock]
    ensures Based(after, b)
  {
    assert after.crmOps[..b.crmSteps] == s.crmOps[..b.crmSteps];
  }

  lemma {:induction false} RecordsBeforeMore(s: System, after: System, crm: Crm.Op)
    requires RecordsOk(s) && after.clock >= s.clock && after.reading == s.reading && after.decided == s.decided
    requires after.crmOps == s.crmOps + [crm] && after.crmAt == s.crmAt + [after.clock]
    ensures RecordsOk(after)
  {
    forall t | t in s.reading
      ensures Based(after, s.reading[t])
    {
      BasedBeforeMore(s, after, s.reading[t], crm);
    }
    forall id | id in s.decided
      ensures RecordOk(after, id, s.decided[id])
    {
      assert RecordOk(s, id, s.decided[id]);
      BasedBeforeMore(s, after, s.decided[id].basis, crm);
    }
  }

  lemma {:induction false} CrmKeeps(s: System, cfg: Config, crm: Crm.Op, at: real)
    requires Inv(s, cfg) && at >= s.clock
    ensures Inv(s.(clock := at, crmOps := s.crmOps + [crm], crmAt := s.crmAt + [at]), cfg)
  {
    var after := s.(clock := at, crmOps := s.crmOps + [crm], crmAt := s.crmAt + [at]);
    RecordsBeforeMore(s, after, crm);
    PlacesKept(s, after);
    TokensKept(s, after, cfg);
  }

  // -------------------------------------------------- steps of a decision

  lemma {:induction false} ResolvedIsAnswered(history: seq<Crm.Op>, body: Policy.Request, e: Crm.Evidence)
    requires EvidenceFor(Crm.After(history), body) == Ok(e)
    ensures Answered(history, Policy.Resolve(body, FromCrm(e)))
  {
  }

  /** What reading does: at most it adds a request that carries the CRM's present answer. */
  lemma {:induction false} ReadWrites(s: System, thread: Thread, body: Policy.Request, at: real)
    ensures var after := Read(s, thread, body, at);
      && after == s.(clock := at, reading := after.reading)
      && forall t :: t in after.reading ==>
           || (t in s.reading && after.reading[t] == s.reading[t])
           || (after.reading[t].at == at && after.reading[t].crmSteps == |s.crmOps| && Answered(s.crmOps, after.reading[t].request))
  {
    var evidence := EvidenceFor(Crm.After(s.crmOps), body);
    if evidence.Ok? {
      ResolvedIsAnswered(s.crmOps, body, evidence.value);
    }
  }

  lemma {:induction false} NewReadingsKeep(s: System, after: System, cfg: Config)
    requires Inv(s, cfg) && after.clock >= s.clock && after == s.(clock := after.clock, reading := after.reading)
    requires forall t :: t in after.reading ==>
      || (t in s.reading && after.reading[t] == s.reading[t])
      || (after.reading[t].at == after.clock && after.reading[t].crmSteps == |s.crmOps| && Answered(s.crmOps, after.reading[t].request))
    ensures Inv(after, cfg)
  {
    assert s.crmOps[..|s.crmOps|] == s.crmOps;
    RecordsKept(s, after);
    PlacesKept(s, after);
    TokensKept(s, after, cfg);
  }

  lemma {:induction false} ReadKeeps(s: System, cfg: Config, thread: Thread, body: Policy.Request, at: real)
    requires Inv(s, cfg) && at >= s.clock
    ensures Inv(Read(s, thread, body, at), cfg)
  {
    ReadWrites(s, thread, body, at);
    NewReadingsKeep(s, Read(s, thread, body, at), cfg);
  }

  /** What deciding does: it records a decision, on the thread's reading, for an id without one. */
  lemma {:induction false} DecideWrites(s: System, thread: Thread, id: string, at: real)
    requires thread in s.reading
    ensures var after := Decide(s, thread, id, at);
      && id in after.decided
      && after == s.(clock := at, reading := s.reading - {thread}, decided := s.decided[id := after.decided[id]],
                     unstored := s.unstored + {id})
      && var rec := after.decided[id];
         && rec.decision.id == id && rec.decision.decidedAt == at && rec.basis == s.reading[thread]
         && (rec.decision.outcome == Policy.ALLOW <==> Policy.Permitted(rec.basis.request))
  {
  }

  lemma {:induction false} NewIdIsNowhere(s: System, id: string)
    requires PlacesOk(s) && id !in s.decided
    ensures Gone(s, id)
  {
  }

  lemma {:induction false} DecidePlaces(s: System, after: System, id: string)
    requires PlacesOk(s) && id !in s.decided && Remembers(s, after)
    requires id in after.decided && after.unstored == s.unstored + {id} && after.contexts == s.contexts && after.taken == s.taken
    ensures PlacesOk(after) && StaysGone(s, after)
  {
    NewIdIsNowhere(s, id);
  }

  lemma {:induction false} NewRecordKeeps(s: System, after: System, cfg: Config, thread: Thread, id: string, rec: Record)
    requires Inv(s, cfg) && after.clock >= s.clock && id !in s.decided && thread in s.reading && rec.basis == s.reading[thread]
    requires after == s.(clock := after.clock, reading := s.reading - {thread}, decided := s.decided[id := rec],
                         unstored := s.unstored + {id})
    requires rec.decision.id == id && rec.decision.decidedAt == after.clock
    requires rec.decision.outcome == Policy.ALLOW <==> Policy.Permitted(rec.basis.request)
    ensures Inv(after, cfg)
  {
    BasedLater(s, after, rec.basis);
    assert RecordOk(after, id, rec);
    RecordsKept(s, after);
    DecidePlaces(s, after, id);
    TokensKept(s, after, cfg);
  }

  lemma {:induction false} DecideKeeps(s: System, cfg: Config, thread: Thread, id: string, at: real)
    requires Inv(s, cfg) && at >= s.clock && thread in s.reading && id !in s.decided
    ensures Inv(Decide(s, thread, id, at), cfg)
  {
    var after := Decide(s, thread, id, at);
    DecideWrites(s, thread, id, at);
    NewRecordKeeps(s, after, cfg, thread, id, after.decided[id]);
  }

  lemma {:induction false} PutPlaces(s: System, after: System, max: nat, entry: Entry, read: real)
    requires PlacesOk(s) && entry.decision.id in s.unstored && Backed(s, entry) && Remembers(s, after)
    requires after.contexts == Put(s.contexts, entry, read, max)
    requires after.unstored == s.unstored - {entry.decision.id} && after.taken == s.taken
    ensures PlacesOk(after) && StaysGone(s, after)
  {
    forall e | e in after.contexts
      ensures e == entry || e in s.contexts
    {
      PutHolds(s.contexts, entry, read, max, e);
    }
  }

  lemma {:induction false} NewContextKeeps(s: System, after: System, cfg: Config, entry: Entry, read: real)
    requires Inv(s, cfg) && after.clock >= s.clock && entry.decision.id in s.unstored && Backed(s, entry)
    requires after == s.(clock := after.clock, unstored := s.unstored - {entry.decision.id}, contexts := after.contexts)
    requires after.contexts == Put(s.contexts, entry, read, cfg.maxContexts)
    ensures Inv(after, cfg)
  {
    RecordsKept(s, after);
    PutPlaces(s, after, cfg.maxContexts, entry, read);
    TokensKept(s, after, cfg);
  }

  lemma {:induction false} StoreWrites(s: System, cfg: Config, id: string, read: real, at: real, entry: Entry)
    requires id in s.unstored && id in s.decided
    requires entry == Entry(s.decided[id].decision, s.decided[id].basis.request, read + cfg.contextTtl)
    ensures var after := Store(s, cfg, id, read, at);
      && after == s.(clock := at, unstored := s.unstored - {id}, contexts := after.contexts)
      && after.contexts == Put(s.contexts, entry, read, cfg.maxContexts)
  {
  }

  lemma {:induction false} StoreKeeps(s: System, cfg: Config, id: string, read: real, at: real)
    requires Inv(s, cfg) && at >= s.clock && id in s.unstored
    ensures Inv(Store(s, cfg, id, read, at), cfg)
  {
    var entry := Entry(s.decided[id].decision, s.decided[id].basis.request, read + cfg.contextTtl);
    assert RecordOk(s, id, s.decided[id]);
    StoreWrites(s, cfg, id, read, at, entry);
    NewContextKeeps(s, Store(s, cfg, id, read, at), cfg, entry, read);
  }

  // ---------------------------------------------- steps of an authorization

  lemma {:induction false} TakeFacts(contexts: seq<Entry>, id: string, tenant: string, at: real)
    ensures var (after, found) := Take(contexts, id, tenant, at);
      && (forall e :: e in after ==> e in contexts)
      && (found.Ok? ==>
            && found.value in contexts && found.value.decision.id == id && found.value.request.tenant == tenant
            && forall e :: e in after ==> e.decision.id != id)
  {
    TakenIsGone(contexts, id, tenant, at);
    FindFinds(Take(contexts, id, tenant, at).0, id);
  }

  /** Contexts are only lost, or one of them moves to a thread. */
  lemma {:induction false} TakePlaces(s: System, after: System, thread: Thread)
    requires PlacesOk(s) && Remembers(s, after) && after.decided == s.decided && after.unstored == s.unstored && thread !in s.taken
    requires forall e :: e in after.contexts ==> e in s.contexts
    requires after.taken == s.taken
      || (thread in after.taken && after.taken == s.taken[thread := after.taken[thread]] && after.taken[thread] in s.contexts
          && NoContext(after, after.taken[thread].decision.id))
    ensures PlacesOk(after) && StaysGone(s, after)
  {
  }

  lemma {:induction false} TakeKeeps(s: System, cfg: Config, thread: Thread, id: string, tenant: string, read: real, at: real)
    requires Inv(s, cfg) && at >= s.clock && thread !in s.taken
    ensures Inv(TakeContext(s, thread, id, tenant, read, at), cfg)
  {
    var after := TakeContext(s, thread, id, tenant, read, at);
    RecordsKept(s, after);
    TakeFacts(s.contexts, id, tenant, read);
    TakePlaces(s, after, thread);
    TokensKept(s, after, cfg);
  }

  /** What issuing does: it uses the taken context up, and when it succeeds mints the one token of that decision. */
  lemma {:induction false} IssueWrites(s: System, cfg: Config, thread: Thread, audience: Audience, ttl: int, jti: string, at: real)
    requires thread in s.taken
    ensures var (after, result) := IssueToken(s, cfg, thread, audience, ttl, jti, at);
      var entry, dropped := s.taken[thread], s.(clock := at, taken := s.taken - {thread});
      && (result.Err? ==> after == dropped)
      && (result.Ok? ==>
            && Issue(cfg.issuer, cfg.maxDecisionAge, entry.decision, entry.request, audience, ttl, at, jti) == result
            && after == dropped.(minted := s.minted + {result.value}, rows := after.rows)
            && after.rows == (if cfg.durable then s.rows[result.value.jti :=
                                Row(result.value.tenant, result.value.decisionId, result.value.exp, false)] else s.rows)
            && (cfg.durable ==> result.value.jti !in s.rows))
  {
  }

  /** A context that a thread has used up is gone. */
  lemma {:induction false} DropPlaces(s: System, after: System, thread: Thread)
    requires PlacesOk(s) && thread in s.taken && after.decided == s.decided && after.clock >= s.clock
    requires after.unstored == s.unstored && after.contexts == s.contexts && after.taken == s.taken - {thread}
    ensures PlacesOk(after) && StaysGone(s, after) && Gone(after, s.taken[thread].decision.id)
  {
  }

  lemma {:induction false} IssuedClaimsOk(s: System, cfg: Config, entry: Entry, audience: Audience, ttl: int, jti: string, at: real)
    requires Backed(s, entry)
    requires Issue(cfg.issuer, cfg.maxDecisionAge, entry.decision, entry.request, audience, ttl, at, jti).Ok?
    ensures var claims := Issue(cfg.issuer, cfg.maxDecisionAge, entry.decision, entry.request, audience, ttl, at, jti).value;
      ClaimsOk(s, cfg, claims) && claims.decisionId == entry.decision.id
  {
  }

  lemma {:induction false} MintedGrows(dropped: System, after: System, cfg: Config, claims: Claims)
    requires MintedOk(dropped, cfg) && ClaimsOk(dropped, cfg, claims) && Gone(dropped, claims.decisionId)
    requires forall c :: c in dropped.minted ==> c.decisionId != claims.decisionId
    requires after == dropped.(minted := dropped.minted + {claims}, rows := after.rows)
    requires !cfg.durable ==> after.rows == dropped.rows
    requires cfg.durable ==>
      && claims.jti !in dropped.rows
      && after.rows == dropped.rows[claims.jti := Row(claims.tenant, claims.decisionId, claims.exp, false)]
    ensures MintedOk(after, cfg)
  {
    forall c | c in after.minted
      ensures ClaimsOk(after, cfg, c) && Gone(after, c.decisionId)
    {
      assert ClaimsOk(dropped, cfg, c) && Gone(dropped, c.decisionId);
    }
  }

  lemma {:induction false} DropKeeps(s: System, dropped: System, cfg: Config, thread: Thread)
    requires Inv(s, cfg) && thread in s.taken && dropped.clock >= s.clock
    requires dropped == s.(clock := dropped.clock, taken := s.taken - {thread})
    ensures Inv(dropped, cfg) && Gone(dropped, s.taken[thread].decision.id)
  {
    RecordsKept(s, dropped);
    DropPlaces(s, dropped, thread);
    TokensKept(s, dropped, cfg);
  }

  lemma {:induction false} MintKeeps(dropped: System, after: System, cfg: Config, claims: Claims)
    requires Inv(dropped, cfg) && MintedOk(after, cfg)
    requires after == dropped.(minted := dropped.minted + {claims}, rows := after.rows)
    requires forall jti :: jti in dropped.rows ==> jti in after.rows && after.rows[jti] == dropped.rows[jti]
    ensures Inv(after, cfg)
  {
    RecordsKept(dropped, after);
    PlacesKept(dropped, after);
    CheckedKept(dropped, after);
    SentKept(dropped, after, cfg);
  }

  lemma {:induction false} TakenIsNotMinted(s: System, cfg: Config, thread: Thread)
    requires MintedOk(s, cfg) && thread in s.taken
    ensures forall c :: c in s.minted ==> c.decisionId != s.taken[thread].decision.id
  {
    forall c | c in s.minted
      ensures c.decisionId != s.taken[thread].decision.id
    {
      assert Gone(s, c.decisionId);
    }
  }

  lemma {:induction false} IssuedKeeps(s: System, dropped: System, after: System, cfg: Config, thread: Thread, claims: Claims)
    requires Inv(s, cfg) && thread in s.taken && claims.decisionId == s.taken[thread].decision.id
    requires dropped.clock >= s.clock && dropped == s.(clock := dropped.clock, taken := s.taken - {thread})
    requires Inv(dropped, cfg) && Gone(dropped, claims.decisionId) && ClaimsOk(dropped, cfg, claims)
    requires after == dropped.(minted := s.minted + {claims}, rows := after.rows)
    requires after.rows == if cfg.durable then s.rows[claims.jti := Row(claims.tenant, claims.decisionId, claims.exp, false)] else s.rows
    requires cfg.durable ==> claims.jti !in s.rows
    ensures Inv(after, cfg)
  {
    TakenIsNotMinted(s, cfg, thread);
    MintedGrows(dropped, after, cfg, claims);
    MintKeeps(dropped, after, cfg, claims);
  }

  lemma {:induction false} IssueKeeps(s: System, cfg: Config, thread: Thread, audience: Audience, ttl: int, jti: string, at: real)
    requires Inv(s, cfg) && at >= s.clock && thread in s.taken
    ensures Inv(IssueToken(s, cfg, thread, audience, ttl, jti, at).0, cfg)
  {
    var (after, result) := IssueToken(s, cfg, thread, audience, ttl, jti, at);
    var dropped := s.(clock := at, taken := s.taken - {thread});
    IssueWrites(s, cfg, thread, audience, ttl, jti, at);
    DropKeeps(s, dropped, cfg, thread);
    if result.Ok? {
      IssuedClaimsOk(dropped, cfg, s.taken[thread], audience, ttl, jti, at);
      IssuedKeeps(s, dropped, after, cfg, thread, result.value);
    }
  }

  // ---------------------------------------------------- steps of a dispatch

  /** What verifying does: at most it remembers the presented token, within its expiry and for the adapter's audience. */
  lemma {:induction false} VerifyWrites(s: System, cfg: Config, thread: Thread, instance: string, channel: Policy.Channel,
                       token: Token, command: Command, at: real)
    ensures var after := VerifyToken(s, cfg, thread, instance, channel, token, command, at).0;
      && after == s.(clock := at, checked := after.checked)
      && forall t :: t in after.checked ==>
           || (t in s.checked && after.checked[t] == s.checked[t])
           || (token == Signed(after.checked[t].claims) && FreshCheck(after.checked[t], at))
  {
  }

  predicate FreshCheck(v: Checked, at: real) {
    v.claims.aud == AdapterFor(v.channel) && v.at == at && at.Floor < v.claims.exp
  }

  lemma {:induction false} FreshIsOk(s: System, after: System, cfg: Config, v: Checked)
    requires RecordsOk(s) && MintedOk(s, cfg) && v.claims in s.minted && FreshCheck(v, after.clock)
    requires after.clock >= s.clock && after.decided == s.decided && after.minted == s.minted
    ensures CheckOk(after, v)
  {
    assert ClaimsOk(s, cfg, v.claims);
    assert RecordOk(s, v.claims.decisionId, s.decided[v.claims.decisionId]);
  }

  /** A step that adds good checks, or drops some, keeps everything. */
  lemma {:induction false} ChecksKeep(s: System, after: System, cfg: Config)
    requires Inv(s, cfg) && after.clock >= s.clock && after == s.(clock := after.clock, checked := after.checked)
    requires forall t :: t in after.checked ==>
      || (t in s.checked && after.checked[t] == s.checked[t])
      || (after.checked[t].claims in s.minted && FreshCheck(after.checked[t], after.clock))
    ensures Inv(after, cfg)
  {
    RecordsKept(s, after);
    PlacesKept(s, after);
    MintedKept(s, after, cfg);
    SentKept(s, after, cfg);
    forall t | t in after.checked
      ensures CheckOk(after, after.checked[t])
    {
      if t in s.checked && after.checked[t] == s.checked[t] {
        CheckKept(s, after, s.checked[t]);
      } else {
        FreshIsOk(s, after, cfg, after.checked[t]);
      }
    }
  }

  lemma {:induction false} VerifyKeeps(s: System, cfg: Config, thread: Thread, instance: string, channel: Policy.Channel,
                      token: Token, command: Command, at: real)
    requires Inv(s, cfg) && at >= s.clock && (token.Signed? ==> token.claims in s.minted)
    ensures Inv(VerifyToken(s, cfg, thread, instance, channel, token, command, at).0, cfg)
  {
    VerifyWrites(s, cfg, thread, instance, channel, token, command, at);
    ChecksKeep(s, VerifyToken(s, cfg, thread, instance, channel, token, command, at).0, cfg);
  }

  /** What consuming does, when it goes through: the token was unused, and its channel fits. */
  lemma {:induction false} ConsumeWrites(s: System, cfg: Config, thread: Thread, at: real)
    requires thread in s.checked && s.checked[thread].claims.channel == s.checked[thread].channel
    ensures var (after, result) := ConsumeToken(s, cfg, thread, at);
      var v, dropped := s.checked[thread], s.(clock := at, checked := s.checked - {thread});
      var jti := v.claims.jti;
      && result != Err(ChannelMismatch)
      && (result.Err? ==> after == dropped)
      && (result.Ok? ==>
            && result.value == v.claims && after.sent == s.sent + [Dispatch(v.instance, v.channel, v.claims, v.at, at)]
            && (cfg.durable ==>
                  && jti in s.rows && !s.rows[jti].consumed && at < s.rows[jti].expires as real
                  && after == dropped.(sent := after.sent, rows := s.rows[jti := s.rows[jti].(consumed := true)]))
            && (!cfg.durable ==>
                  && jti !in Seen(s, v.instance)
                  && after == dropped.(sent := after.sent, seen := s.seen[v.instance := Seen(s, v.instance) + {jti}])))
  {
  }

  lemma {:induction false} SentGrows(s: System, after: System, cfg: Config, d: Dispatch)
    requires SentOk(s, cfg) && MintedOk(s, cfg) && Remembers(s, after) && after.minted == s.minted
    requires CheckOk(s, Checked(d.instance, d.channel, d.claims, d.verifiedAt)) && d.verifiedAt <= d.at
    requires after.sent == s.sent + [d]
    requires cfg.durable ==>
      && d.claims.jti in s.rows && !s.rows[d.claims.jti].consumed && d.at < s.rows[d.claims.jti].expires as real
      && after.rows == s.rows[d.claims.jti := s.rows[d.claims.jti].(consumed := true)]
    requires !cfg.durable ==>
      && d.claims.jti !in Seen(s, d.instance)
      && after.seen == s.seen[d.instance := Seen(s, d.instance) + {d.claims.jti}]
    ensures SentOk(after, cfg)
  {
    CheckKept(s, after, Checked(d.instance, d.channel, d.claims, d.verifiedAt));
    forall i | 0 <= i < |s.sent|
      ensures DispatchOk(after, cfg, s.sent[i]) && DispatchOk(s, cfg, s.sent[i])
    {
      var old' := s.sent[i];
      assert DispatchOk(s, cfg, old');
      CheckKept(s, after, Checked(old'.instance, old'.channel, old'.claims, old'.verifiedAt));
    }
    assert DispatchOk(after, cfg, d);
  }

  lemma {:induction false} SentKeeps(s: System, after: System, cfg: Config, d: Dispatch)
    requires Inv(s, cfg) && after.clock >= s.clock
    requires after == s.(clock := after.clock, checked := after.checked, rows := after.rows, seen := after.seen, sent := s.sent + [d])
    requires forall t :: t in after.checked ==> t in s.checked && after.checked[t] == s.checked[t]
    requires CheckOk(s, Checked(d.instance, d.channel, d.claims, d.verifiedAt)) && d.verifiedAt <= d.at
    requires cfg.durable ==>
      && d.claims.jti in s.rows && !s.rows[d.claims.jti].consumed && d.at < s.rows[d.claims.jti].expires as real
      && after.rows == s.rows[d.claims.jti := s.rows[d.claims.jti].(consumed := true)]
    requires !cfg.durable ==>
      && d.claims.jti !in Seen(s, d.instance) && after.rows == s.rows
      && after.seen == s.seen[d.instance := Seen(s, d.instance) + {d.claims.jti}]
    ensures Inv(after, cfg)
  {
    RecordsKept(s, after);
    PlacesKept(s, after);
    MintedKept(s, after, cfg);
    CheckedKept(s, after);
    SentGrows(s, after, cfg, d);
  }

  lemma {:induction false} ConsumeKeeps(s: System, cfg: Config, thread: Thread, at: real)
    requires Inv(s, cfg) && at >= s.clock && thread in s.checked
    ensures Inv(ConsumeToken(s, cfg, thread, at).0, cfg)
  {
    var (after, result) := ConsumeToken(s, cfg, thread, at);
    var v := s.checked[thread];
    assert CheckOk(s, v);
    ConsumeWrites(s, cfg, thread, at);
    if result.Ok? {
      SentKeeps(s, after, cfg, Dispatch(v.instance, v.channel, v.claims, v.at, at));
    } else {
      ChecksKeep(s, after, cfg);
    }
  }

  lemma {:induction false} StepKeeps(s: System, cfg: Config, op: Op)
    requires Inv(s, cfg) && Enabled(s, op)
    ensures Inv(Step(s, cfg, op), cfg)
  {
    match op
    case DoCrm(crm, at) => CrmKeeps(s, cfg, crm, at);
    case DoRead(thread, body, at) => ReadKeeps(s, cfg, thread, body, at);
    case DoDecide(thread, id, at) => DecideKeeps(s, cfg, thread, id, at);
    case DoStore(id, read, at) => StoreKeeps(s, cfg, id, read, at);
    case DoTake(thread, id, tenant, read, at) => TakeKeeps(s, cfg, thread, id, tenant, read, at);
    case DoIssue(thread, audience, ttl, jti, at) => IssueKeeps(s, cfg, thread, audience, ttl, jti, at);
    case DoVerify(thread, instance, channel, token, command, at) =>
      VerifyKeeps(s, cfg, thread, instance, channel, token, command, at);
    case DoConsume(thread, at) => ConsumeKeeps(s, cfg, thread, at);
  }

  lemma {:induction false} RunKeeps(s: System, cfg: Config, ops: seq<Op>)
    requires Inv(s, cfg) && IsRun(s, cfg, ops)
    ensures Inv(After(s, cfg, ops), cfg)
    decreases |ops|
  {
    if ops != [] {
      StepKeeps(s, cfg, ops[0]);
      RunKeeps(Step(s, cfg, ops[0]), cfg, ops[1..]);
    }
  }

  /**
   Consuming a verified token in any state: a used one is refused, one of another channel is
   used up but not sent, and any other is sent with its claims, once more on the wire.
   */
  lemma {:induction false} ConsumesInOrder(s: System, cfg: Config, thread: Thread, at: real)
    requires thread in s.checked
    ensures var v := s.checked[thread];
      var (jti, tenant) := (v.claims.jti, v.claims.tenant);
      var open := if cfg.durable then jti in s.rows && s.rows[jti].tenant == tenant && !s.rows[jti].consumed && at < s.rows[jti].expires as real
                  else !(v.instance in s.seen && jti in s.seen[v.instance]);
      var (after, result) := ConsumeToken(s, cfg, thread, at);
      && after.checked == s.checked - {thread}
      && result == (if !open then Err(TokenReplay) else if v.claims.channel != v.channel then Err(ChannelMismatch) else Ok(v.claims))
      && after.sent == (if result.Ok? then s.sent + [Dispatch(v.instance, v.channel, v.claims, v.at, at)] else s.sent)
      && (open && cfg.durable ==> jti in after.rows && after.rows[jti].consumed)
      && (open && !cfg.durable ==> v.instance in after.seen && jti in after.seen[v.instance])
  {
  }

  /** Issuing takes the context in any case; a token is only handed out, and its row only written, for a new token id. */
  lemma {:induction false} RegistersBeforeHandingOut(s: System, cfg: Config, thread: Thread, audience: Audience, ttl: int, jti: string, at: real)
    requires thread in s.taken
    ensures var (after, result) := IssueToken(s, cfg, thread, audience, ttl, jti, at);
      && after.taken == s.taken - {thread}
      && (result.Ok? ==>
            && result.value.jti == jti && after.minted == s.minted + {result.value}
            && (cfg.durable ==>
                  && jti !in s.rows && after.rows.Keys == s.rows.Keys + {jti}
                  && after.rows[jti] == Row(result.value.tenant, result.value.decisionId, result.value.exp, false)))
      && (result.Err? ==> after.minted == s.minted && after.rows == s.rows)
  {
  }

  /** Storing a decision puts its context last, to be taken until the configured time after the reading. */
  lemma {:induction false} StoresItsContext(s: System, cfg: Config, id: string, read: real, at: real)
    requires id in s.unstored && id in s.decided && cfg.maxContexts > 0
    ensures var (after, rec) := (Store(s, cfg, id, read, at), s.decided[id]);
      && after.unstored == s.unstored - {id} && after.contexts != []
      && after.contexts[|after.contexts| - 1] == Entry(rec.decision, rec.basis.request, read + cfg.contextTtl)
      && |after.contexts| <= cfg.maxContexts
      && after == s.(clock := at, unstored := after.unstored, contexts := after.contexts)
  {
    var entry := Entry(s.decided[id].decision, s.decided[id].basis.request, read + cfg.contextTtl);
    PutHolds(s.contexts, entry, read, cfg.maxContexts, entry);
  }

  // ------------------------------------------------------------ main results

  /** Each decision leads to at most one dispatch; without the shared table, to at most one per adapter process. */
  lemma {:induction false} AtMostOneDispatchPerDecision(cfg: Config, ops: seq<Op>, i: nat, j: nat)
    requires IsRun(START, cfg, ops)
    requires var sent := After(START, cfg, ops).sent;
      i < j < |sent| && sent[i].claims.decisionId == sent[j].claims.decisionId
    ensures !cfg.durable
    ensures After(START, cfg, ops).sent[i].instance != After(START, cfg, ops).sent[j].instance
  {
    RunKeeps(START, cfg, ops);
    var s := After(START, cfg, ops);
    assert DispatchOk(s, cfg, s.sent[i]) && DispatchOk(s, cfg, s.sent[j]);
  }

  /** What the CRM held for a permitted request that carries the CRM's own evidence. */
  lemma {:induction false} PermittedMeansApproved(ops: seq<Crm.Op>, request: Policy.Request, e: Crm.Evidence)
    requires Policy.Permitted(request) && request == Policy.Resolve(request, FromCrm(e))
    requires EvidenceFor(Crm.After(ops), request) == Ok(e)
    ensures var store := Crm.After(ops);
      && request.tenant != "" && (request.tenant, request.contact) in store.contacts
      && (request.tenant, request.contact) !in store.suppressed
      && Crm.IsApproved(store, request.tenant, request.versionId)
      && var hashes := store.campaigns[(request.tenant, request.versionId)].manifest.contentHashes;
         ChannelKey(request.channel) in hashes && hashes[ChannelKey(request.channel)] == request.contentHash
  {
    assert !Policy.Applies(Policy.CAMPAIGN_NOT_APPROVED, request);
    assert !Policy.Applies(Policy.CAMPAIGN_CONTENT_CHANGED, request);
    assert !Policy.Applies(Policy.INTERNAL_SUPPRESSION, request);
    Crm.ApprovedExactlyByLastApproval(ops, request.tenant, request.versionId);
  }

  /** The evidence a decision was made on. */
  function BasisOf(s: System, d: Dispatch): Reading
    requires d.claims.decisionId in s.decided
  {
    s.decided[d.claims.decisionId].basis
  }

  function DecidedAt(s: System, d: Dispatch): real
    requires d.claims.decisionId in s.decided
  {
    s.decided[d.claims.decisionId].decision.decidedAt
  }

  /** How long the decision came after its evidence was read. */
  function Gap(s: System, d: Dispatch): real
    requires d.claims.decisionId in s.decided
  {
    DecidedAt(s, d) - BasisOf(s, d).at
  }

  /** The longest a token can still be used after its decision. */
  function Delay(cfg: Config): real {
    cfg.maxDecisionAge as real + MAX_TTL as real
  }

  /**
   Every dispatch carries the tenant, contact, campaign version, content hash and channel
   of one ALLOW decision. Its token was verified after that decision and strictly before
   decision time plus maximum decision age plus the token's lifetime; with the shared table
   it was also consumed before that.
   */
  lemma {:induction false} EveryDispatchIsAuthorized(cfg: Config, ops: seq<Op>, i: nat)
    requires IsRun(START, cfg, ops) && i < |After(START, cfg, ops).sent|
    ensures var s := After(START, cfg, ops);
      var d := s.sent[i];
      && d.claims.decisionId in s.decided
      && var rec, request := s.decided[d.claims.decisionId], BasisOf(s, d).request;
         && rec.decision.outcome == Policy.ALLOW
         && request.channel == d.claims.channel == d.channel
         && Command(request.tenant, request.contact, request.versionId, request.contentHash)
            == Command(d.claims.tenant, d.claims.contact, d.claims.versionId, d.claims.contentHash)
         && 1 <= d.claims.exp - d.claims.iat <= MAX_TTL
         && var deadline := DecidedAt(s, d) + cfg.maxDecisionAge as real + (d.claims.exp - d.claims.iat) as real;
            && DecidedAt(s, d) <= d.verifiedAt < deadline && d.verifiedAt <= d.at
            && (cfg.durable ==> d.at < deadline)
  {
    RunKeeps(START, cfg, ops);
    var s := After(START, cfg, ops);
    var d := s.sent[i];
    assert DispatchOk(s, cfg, d) && ClaimsOk(s, cfg, d.claims);
    FloorBelow(d.verifiedAt, d.claims.exp);
    ExpiryBound(d.claims, DecidedAt(s, d), cfg.maxDecisionAge);
  }

  lemma {:induction false} FloorBelow(t: real, bound: int)
    requires t.Floor < bound
    ensures t < bound as real
  {
    assert t < (t.Floor + 1) as real;
  }

  lemma {:induction false} ExpiryBound(c: Claims, decidedAt: real, maxAge: int)
    requires c.iat <= decidedAt.Floor + maxAge
    ensures c.exp as real <= decidedAt + maxAge as real + (c.exp - c.iat) as real
  {
    assert decidedAt.Floor as real <= decidedAt;
  }

  /**
   When the evidence of a dispatch was read, the CRM knew the contact and had it
   unsuppressed, and had the campaign version approved with exactly the content that was
   sent on that channel. The reading came before the decision, after the CRM operations it
   counts and before all others.
   */
  lemma {:induction false} EveryDispatchIsBacked(cfg: Config, ops: seq<Op>, i: nat)
    requires IsRun(START, cfg, ops) && i < |After(START, cfg, ops).sent|
    ensures var s := After(START, cfg, ops);
      var d := s.sent[i];
      && d.claims.decisionId in s.decided
      && var basis := BasisOf(s, d);
         && basis.at <= DecidedAt(s, d)
         && basis.crmSteps <= |s.crmOps| == |s.crmAt|
         && (forall k :: 0 <= k < basis.crmSteps ==> s.crmAt[k] <= basis.at)
         && (forall k :: basis.crmSteps <= k < |s.crmAt| ==> basis.at <= s.crmAt[k])
         && var store := Crm.After(s.crmOps[..basis.crmSteps]);
            && (d.claims.tenant, d.claims.contact) in store.contacts
            && (d.claims.tenant, d.claims.contact) !in store.suppressed
            && Crm.IsApproved(store, d.claims.tenant, d.claims.versionId)
            && var hashes := store.campaigns[(d.claims.tenant, d.claims.versionId)].manifest.contentHashes;
               ChannelKey(d.channel) in hashes && hashes[ChannelKey(d.channel)] == d.claims.contentHash
  {
    RunKeeps(START, cfg, ops);
    EveryDispatchIsAuthorized(cfg, ops, i);
    var s := After(START, cfg, ops);
    var d := s.sent[i];
    assert RecordOk(s, d.claims.decisionId, s.decided[d.claims.decisionId]);
    var history := s.crmOps[..BasisOf(s, d).crmSteps];
    PermittedMeansApproved(history, BasisOf(s, d).request, EvidenceFor(Crm.After(history), BasisOf(s, d).request).value);
  }

  /** What a promotion that was permitted on the CRM's own evidence had in the store. */
  lemma {:induction false} PermittedMeansConsented(ops: seq<Crm.Op>, request: Policy.Request, e: Crm.Evidence)
    requires Policy.Permitted(request) && request == Policy.Resolve(request, FromCrm(e))
    requires EvidenceFor(Crm.After(ops), request) == Ok(e)
    requires Upper(request.purpose) in {"PROMOTIONAL", "MARKETING", "SALES"}
    ensures var (store, campaign) := (Crm.After(ops), (request.tenant, request.versionId));
      && (request.channel == Policy.WHATSAPP ==> (request.tenant, request.contact, "WHATSAPP") in store.consents)
      && (request.channel == Policy.VOICE ==> campaign in store.campaigns && Exempted(store.campaigns[campaign].manifest))
  {
    PermittedMeansApproved(ops, request, e);
    Policy.PermittedExactly(request, FromCrm(e));
  }

  /** The campaign has the registry check off under a documented and approved B2B exemption. */
  predicate Exempted(m: Crm.Manifest) {
    && !m.repepEnabled && m.exemptionApproved
    && m.exemptionType.Some? && Upper(m.exemptionType.value) == "B2B"
    && m.evidenceRef.Some? && exists i :: 0 <= i < |m.evidenceRef.value| && !IsSpace(m.evidenceRef.value[i])
  }

  /** A CRM operation before the reading granted the contact's consent to WhatsApp. */
  predicate ConsentedBefore(s: System, basis: Reading) {
    exists k :: 0 <= k < basis.crmSteps && k < |s.crmOps| && k < |s.crmAt| && s.crmAt[k] <= basis.at
      && Crm.Grants(s.crmOps[k], basis.request.tenant, basis.request.contact, "WHATSAPP")
  }

  /** The campaign's manifest at the reading exempted it from the registry check. */
  predicate ExemptedBefore(s: System, basis: Reading) {
    && basis.crmSteps <= |s.crmOps|
    && var campaigns := Crm.After(s.crmOps[..basis.crmSteps]).campaigns;
       && (basis.request.tenant, basis.request.versionId) in campaigns
       && Exempted(campaigns[(basis.request.tenant, basis.request.versionId)].manifest)
  }

  lemma {:induction false} BasisBacksPromotion(s: System, basis: Reading)
    requires Based(s, basis) && Policy.Permitted(basis.request)
    ensures var r := basis.request;
      && r.localHour.Some? && 9 <= r.localHour.value < 20 && !r.killSwitch && !r.frequencyExhausted
      && (Upper(r.purpose) in {"PROMOTIONAL", "MARKETING", "SALES"} ==>
            && (r.channel == Policy.WHATSAPP ==> ConsentedBefore(s, basis))
            && (r.channel == Policy.VOICE ==> ExemptedBefore(s, basis)))
  {
    var r, history := basis.request, s.crmOps[..basis.crmSteps];
    var e := EvidenceFor(Crm.After(history), r).value;
    Policy.PermittedExactly(r, FromCrm(e));
    if Upper(r.purpose) in {"PROMOTIONAL", "MARKETING", "SALES"} {
      PermittedMeansConsented(history, r, e);
      Crm.RowsAreHistory(history, r.tenant, r.contact, "WHATSAPP");
      assert forall k :: 0 <= k < basis.crmSteps ==> history[k] == s.crmOps[k];
    }
  }

  /**
   A promotion is only sent by WhatsApp to a contact whose consent to WhatsApp had been
   granted by a CRM operation before the evidence was read, and only by voice for a campaign
   whose manifest at that moment exempted it from the registry check. Any contact is made for
   an hour of the day from nine up to eight in the evening.
   */
  lemma {:induction false} PromotionsAreConsented(cfg: Config, ops: seq<Op>, i: nat)
    requires IsRun(START, cfg, ops) && i < |After(START, cfg, ops).sent|
    ensures var s := After(START, cfg, ops);
      var d := s.sent[i];
      && d.claims.decisionId in s.decided
      && var basis := BasisOf(s, d);
         var r := basis.request;
         && (r.tenant, r.contact, r.versionId, r.channel) == (d.claims.tenant, d.claims.contact, d.claims.versionId, d.channel)
         && r.localHour.Some? && 9 <= r.localHour.value < 20 && !r.killSwitch && !r.frequencyExhausted
         && (Upper(r.purpose) in {"PROMOTIONAL", "MARKETING", "SALES"} ==>
               && (d.channel == Policy.WHATSAPP ==> ConsentedBefore(s, basis))
               && (d.channel == Policy.VOICE ==> ExemptedBefore(s, basis)))
  {
    RunKeeps(START, cfg, ops);
    EveryDispatchIsAuthorized(cfg, ops, i);
    var s := After(START, cfg, ops);
    var d := s.sent[i];
    assert RecordOk(s, d.claims.decisionId, s.decided[d.claims.decisionId]);
    BasisBacksPromotion(s, BasisOf(s, d));
  }

  /** A request permitted on the CRM's evidence has no suppression of its contact anywhere before it. */
  lemma {:induction false} PermittedMeansNeverSuppressed(history: seq<Crm.Op>, request: Policy.Request, e: Crm.Evidence, k: nat)
    requires Policy.Permitted(request) && request == Policy.Resolve(request, FromCrm(e))
    requires EvidenceFor(Crm.After(history), request) == Ok(e)
    requires k < |history| && history[k].Suppress?
    ensures (history[k].tenant, history[k].contact) != (request.tenant, request.contact)
  {
    PermittedMeansApproved(history, request, e);
    var upTo := history[..k + 1];
    assert upTo[..k] == history[..k] && upTo[k] == history[k];
    Crm.SuppressionIsForGood(history, k + 1);
    if history[k].tenant != "" {
      assert (history[k].tenant, history[k].contact) in Crm.After(upTo).suppressed;
    }
  }

  /** CRM step `k` suppressed the contact of the dispatch. */
  predicate Suppresses(s: System, k: nat, d: Dispatch)
    requires k < |s.crmOps|
  {
    s.crmOps[k].Suppress? && (s.crmOps[k].tenant, s.crmOps[k].contact) == (d.claims.tenant, d.claims.contact)
  }

  /** No evidence read after a suppression leads to a dispatch to that contact. */
  lemma {:induction false} SuppressionCameAfterReading(cfg: Config, ops: seq<Op>, k: nat, i: nat)
    requires IsRun(START, cfg, ops) && i < |After(START, cfg, ops).sent|
    requires var s := After(START, cfg, ops); k < |s.crmOps| && Suppresses(s, k, s.sent[i])
    ensures var s := After(START, cfg, ops);
      && s.sent[i].claims.decisionId in s.decided && |s.crmAt| == |s.crmOps|
      && BasisOf(s, s.sent[i]).crmSteps <= k && BasisOf(s, s.sent[i]).at <= s.crmAt[k]
  {
    RunKeeps(START, cfg, ops);
    EveryDispatchIsAuthorized(cfg, ops, i);
    var s := After(START, cfg, ops);
    var d := s.sent[i];
    assert RecordOk(s, d.claims.decisionId, s.decided[d.claims.decisionId]);
    if k < BasisOf(s, d).crmSteps {
      var history := s.crmOps[..BasisOf(s, d).crmSteps];
      PermittedMeansNeverSuppressed(history, BasisOf(s, d).request, EvidenceFor(Crm.After(history), BasisOf(s, d).request).value, k);
    }
  }

  /**
   A contact suppressed at some moment is not contacted on a token verified later than that
   moment plus the gap between reading and deciding plus the authorization delay.
   */
  lemma {:induction false} SuppressionTakesEffect(cfg: Config, ops: seq<Op>, k: nat, i: nat)
    requires IsRun(START, cfg, ops) && i < |After(START, cfg, ops).sent|
    requires var s := After(START, cfg, ops); k < |s.crmOps| && Suppresses(s, k, s.sent[i])
    ensures var s := After(START, cfg, ops);
      var d := s.sent[i];
      && d.claims.decisionId in s.decided && |s.crmAt| == |s.crmOps|
      && d.verifiedAt < s.crmAt[k] + Gap(s, d) + Delay(cfg)
      && (cfg.durable ==> d.at < s.crmAt[k] + Gap(s, d) + Delay(cfg))
  {
    EveryDispatchIsAuthorized(cfg, ops, i);
    SuppressionCameAfterReading(cfg, ops, k, i);
  }

  /** Every decision came within `most` seconds of its evidence. */
  predicate PromptDecisions(s: System, most: real) {
    forall id :: id in s.decided ==> s.decided[id].decision.decidedAt - s.decided[id].basis.at <= most
  }

  /** With decisions that prompt, a suppression takes effect within that time plus the authorization delay. */
  lemma {:induction false} SuppressionTakesEffectWithin(cfg: Config, ops: seq<Op>, k: nat, i: nat, most: real)
    requires IsRun(START, cfg, ops) && i < |After(START, cfg, ops).sent|
    requires var s := After(START, cfg, ops); k < |s.crmOps| && Suppresses(s, k, s.sent[i]) && PromptDecisions(s, most)
    ensures var s := After(START, cfg, ops);
      && |s.crmAt| == |s.crmOps| && s.sent[i].verifiedAt < s.crmAt[k] + most + Delay(cfg)
      && (cfg.durable ==> s.sent[i].at < s.crmAt[k] + most + Delay(cfg))
  {
    SuppressionTakesEffect(cfg, ops, k, i);
  }

  /** Whatever is still sent later than the authorization delay after a suppression was read before it and decided after it. */
  lemma {:induction false} LateAfterSuppressionStraddles(cfg: Config, ops: seq<Op>, k: nat, i: nat)
    requires IsRun(START, cfg, ops) && i < |After(START, cfg, ops).sent|
    requires var s := After(START, cfg, ops);
      && k < |s.crmOps| == |s.crmAt| && Suppresses(s, k, s.sent[i])
      && s.sent[i].verifiedAt >= s.crmAt[k] + Delay(cfg)
    ensures var s := After(START, cfg, ops);
      && s.sent[i].claims.decisionId in s.decided
      && BasisOf(s, s.sent[i]).at <= s.crmAt[k] < DecidedAt(s, s.sent[i])
  {
    EveryDispatchIsAuthorized(cfg, ops, i);
    SuppressionCameAfterReading(cfg, ops, k, i);
  }

  /** CRM step `j` approved a manifest of the dispatch's version that has the dispatch's content hash. */
  predicate ApprovedAsSent(s: System, d: Dispatch, j: nat)
    requires j < |s.crmOps|
  {
    && s.crmOps[j].Approve? && s.crmOps[j].tenant == d.claims.tenant && s.crmOps[j].versionId == d.claims.versionId
    && s.crmOps[j].subject.ManifestSha?
    && var hashes := s.crmOps[j].subject.manifest.contentHashes;
       ChannelKey(d.channel) in hashes && hashes[ChannelKey(d.channel)] == d.claims.contentHash
  }

  /** A request permitted on the CRM's evidence goes back to an approving step after the last manifest was written. */
  lemma {:induction false} PermittedNamesApproval(history: seq<Crm.Op>, request: Policy.Request, e: Crm.Evidence) returns (j: nat)
    requires Policy.Permitted(request) && request == Policy.Resolve(request, FromCrm(e))
    requires EvidenceFor(Crm.After(history), request) == Ok(e)
    ensures j < |history| && history[j].Approve? && history[j].tenant == request.tenant && history[j].versionId == request.versionId
    ensures forall i :: j < i < |history| ==> !Crm.Rewrites(history[i], request.tenant, request.versionId)
    ensures history[j].subject.ManifestSha?
    ensures var hashes := history[j].subject.manifest.contentHashes;
      ChannelKey(request.channel) in hashes && hashes[ChannelKey(request.channel)] == request.contentHash
  {
    PermittedMeansApproved(history, request, e);
    Crm.ApprovedExactlyByLastApproval(history, request.tenant, request.versionId);
    j :| Crm.ApprovedAt(history, j, request.tenant, request.versionId);
    Crm.ApprovedManifestIsCurrent(history, j, request.tenant, request.versionId);
  }

  /** CRM step `k` wrote a manifest of the dispatch's campaign version. */
  predicate Rewrote(s: System, k: nat, d: Dispatch)
    requires k < |s.crmOps|
  {
    Crm.Rewrites(s.crmOps[k], d.claims.tenant, d.claims.versionId)
  }

  predicate ApprovedSince(s: System, k: nat, d: Dispatch) {
    exists j: nat :: k < j < |s.crmOps| && ApprovedAsSent(s, d, j)
  }

  lemma {:induction false} ApprovedBeforeReading(s: System, d: Dispatch, b: Reading, k: nat)
    requires Policy.Permitted(b.request) && b.crmSteps <= |s.crmOps| && Answered(s.crmOps[..b.crmSteps], b.request)
    requires b.request.tenant == d.claims.tenant && b.request.versionId == d.claims.versionId
    requires b.request.contentHash == d.claims.contentHash && b.request.channel == d.channel
    requires k < b.crmSteps && Rewrote(s, k, d)
    ensures ApprovedSince(s, k, d)
  {
    var history := s.crmOps[..b.crmSteps];
    var j := PermittedNamesApproval(history, b.request, EvidenceFor(Crm.After(history), b.request).value);
    assert history[k] == s.crmOps[k] && history[j] == s.crmOps[j];
    assert ApprovedAsSent(s, d, j);
  }

  /** Evidence read after a manifest was written only counts when that content was approved since. */
  lemma {:induction false} ReadAfterRewriteIsApproved(cfg: Config, ops: seq<Op>, k: nat, i: nat)
    requires IsRun(START, cfg, ops) && i < |After(START, cfg, ops).sent|
    requires var s := After(START, cfg, ops); k < |s.crmOps| && Rewrote(s, k, s.sent[i])
    ensures var s := After(START, cfg, ops);
      && s.sent[i].claims.decisionId in s.decided && |s.crmAt| == |s.crmOps|
      && (ApprovedSince(s, k, s.sent[i]) || (BasisOf(s, s.sent[i]).crmSteps <= k && BasisOf(s, s.sent[i]).at <= s.crmAt[k]))
  {
    RunKeeps(START, cfg, ops);
    EveryDispatchIsAuthorized(cfg, ops, i);
    var s := After(START, cfg, ops);
    var d := s.sent[i];
    assert RecordOk(s, d.claims.decisionId, s.decided[d.claims.decisionId]);
    if k < BasisOf(s, d).crmSteps {
      ApprovedBeforeReading(s, d, BasisOf(s, d), k);
    }
  }

  /**
   What is sent on a token verified later than a manifest's writing plus the gap between
   reading and deciding plus the authorization delay was approved after that writing.
   */
  lemma {:induction false} AmendmentTakesEffect(cfg: Config, ops: seq<Op>, k: nat, i: nat)
    requires IsRun(START, cfg, ops) && i < |After(START, cfg, ops).sent|
    requires var s := After(START, cfg, ops); k < |s.crmOps| && Rewrote(s, k, s.sent[i])
    ensures var s := After(START, cfg, ops);
      var d := s.sent[i];
      && d.claims.decisionId in s.decided && |s.crmAt| == |s.crmOps|
      && (ApprovedSince(s, k, d) || d.verifiedAt < s.crmAt[k] + Gap(s, d) + Delay(cfg))
  {
    EveryDispatchIsAuthorized(cfg, ops, i);
    ReadAfterRewriteIsApproved(cfg, ops, k, i);
  }

  /** What is sent later than the authorization delay without such an approval was read before the writing and decided after it. */
  lemma {:induction false} LateAfterAmendmentStraddles(cfg: Config, ops: seq<Op>, k: nat, i: nat)
    requires IsRun(START, cfg, ops) && i < |After(START, cfg, ops).sent|
    requires var s := After(START, cfg, ops);
      && k < |s.crmOps| == |s.crmAt| && Rewrote(s, k, s.sent[i]) && !ApprovedSince(s, k, s.sent[i])
      && s.sent[i].verifiedAt >= s.crmAt[k] + Delay(cfg)
    ensures var s := After(START, cfg, ops);
      && s.sent[i].claims.decisionId in s.decided
      && BasisOf(s, s.sent[i]).at <= s.crmAt[k] < DecidedAt(s, s.sent[i])
  {
    EveryDispatchIsAuthorized(cfg, ops, i);
    ReadAfterRewriteIsApproved(cfg, ops, k, i);
  }

  /** No token of the issuer, whoever presents it to whichever adapter, reaches the adapter's channel check with another channel. */
  lemma {:induction false} ChannelCheckNeverFires(cfg: Config, ops: seq<Op>, thread: Thread, at: real)
    requires IsRun(START, cfg, ops)
    ensures ConsumeToken(After(START, cfg, ops), cfg, thread, at).1 != Err(ChannelMismatch)
  {
    RunKeeps(START, cfg, ops);
    var s := After(START, cfg, ops);
    if thread in s.checked {
      assert CheckOk(s, s.checked[thread]);
      ConsumeWrites(s, cfg, thread, at);
    }
  }

  /**
   In every reachable state a minted token is verified exactly by an adapter of its channel,
   with its own tenant, contact, version and content, inside its window.
   */
  lemma {:induction false} MintedTokenVerifiesExactly(cfg: Config, ops: seq<Op>, thread: Thread, instance: string,
                                     channel: Policy.Channel, c: Claims, command: Command, at: real)
    requires IsRun(START, cfg, ops) && c in After(START, cfg, ops).minted
    ensures var s := After(START, cfg, ops);
      VerifyToken(s, cfg, thread, instance, channel, Signed(c), command, at).1.Ok? <==>
        && channel == c.channel && command == Command(c.tenant, c.contact, c.versionId, c.contentHash)
        && c.iat - FUTURE_SKEW <= at.Floor < c.exp
  {
    RunKeeps(START, cfg, ops);
    assert ClaimsOk(After(START, cfg, ops), cfg, c);
  }

  /**
   In every reachable state a verified token goes through exactly when it was not used
   before: with the shared table by anyone, and then only before its expiry; otherwise there.
   */
  lemma {:induction false} CheckedTokenGoesThroughExactly(cfg: Config, ops: seq<Op>, thread: Thread, at: real)
    requires IsRun(START, cfg, ops) && thread in After(START, cfg, ops).checked
    ensures var s := After(START, cfg, ops);
      var v := s.checked[thread];
      ConsumeToken(s, cfg, thread, at).1 == Ok(v.claims) <==>
        if cfg.durable then v.claims.jti in s.rows && !s.rows[v.claims.jti].consumed && at < v.claims.exp as real
        else v.claims.jti !in Seen(s, v.instance)
  {
    RunKeeps(START, cfg, ops);
    var s := After(START, cfg, ops);
    assert CheckOk(s, s.checked[thread]);
  }

  /** A consumption of another process leaves a check and what its process has seen alone. */
  lemma {:induction false} ConsumeElsewhere(s: System, cfg: Config, t: Thread, u: Thread, at: real)
    requires !cfg.durable && t in s.checked && u in s.checked && s.checked[t].instance != s.checked[u].instance
    requires s.checked[t].claims.channel == s.checked[t].channel
    ensures var (after, result) := ConsumeToken(s, cfg, t, at);
      && u in after.checked && after.checked[u] == s.checked[u]
      && Seen(after, s.checked[u].instance) == Seen(s, s.checked[u].instance)
      && (s.checked[t].claims.jti !in Seen(s, s.checked[t].instance) ==>
            result == Ok(s.checked[t].claims) && |after.sent| == |s.sent| + 1)
  {
    ConsumeWrites(s, cfg, t, at);
  }

  lemma {:induction false} BothConsume(s: System, cfg: Config, t: Thread, u: Thread, at: real)
    requires !cfg.durable && t in s.checked && u in s.checked && s.checked[t].instance != s.checked[u].instance
    requires s.checked[t].claims == s.checked[u].claims && s.checked[t].claims.channel == s.checked[t].channel == s.checked[u].channel
    requires s.checked[t].claims.jti !in Seen(s, s.checked[t].instance) && s.checked[u].claims.jti !in Seen(s, s.checked[u].instance)
    ensures var (first, sentFirst) := ConsumeToken(s, cfg, t, at);
      var (second, sentSecond) := ConsumeToken(first, cfg, u, at);
      && sentFirst == sentSecond == Ok(s.checked[t].claims) && |second.sent| == |s.sent| + 2
  {
    ConsumeElsewhere(s, cfg, t, u, at);
    ConsumeWrites(ConsumeToken(s, cfg, t, at).0, cfg, u, at);
  }

  /** Without the shared table two processes that have verified the same token both send on it. */
  lemma {:induction false} ShadowAdaptersDoNotShare(cfg: Config, ops: seq<Op>, t: Thread, u: Thread, at: real)
    requires IsRun(START, cfg, ops) && !cfg.durable
    requires var s := After(START, cfg, ops);
      && t in s.checked && u in s.checked && s.checked[t].instance != s.checked[u].instance
      && s.checked[t].claims == s.checked[u].claims
      && s.checked[t].claims.jti !in Seen(s, s.checked[t].instance) && s.checked[u].claims.jti !in Seen(s, s.checked[u].instance)
    ensures var s := After(START, cfg, ops);
      var (first, sentFirst) := ConsumeToken(s, cfg, t, at);
      var (second, sentSecond) := ConsumeToken(first, cfg, u, at);
      && sentFirst == sentSecond == Ok(s.checked[t].claims) && |second.sent| == |s.sent| + 2
  {
    RunKeeps(START, cfg, ops);
    var s := After(START, cfg, ops);
    assert CheckOk(s, s.checked[t]) && CheckOk(s, s.checked[u]);
    BothConsume(s, cfg, t, u, at);
  }
}
