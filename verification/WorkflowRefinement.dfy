/**
 The durable repository and the in-memory engine on one run: they give the same
 answers, and go through the same stages, statuses and checkpoint numbers.
 */
module WorkflowRefinement {
  import opened Common
  import opened Workflow
  import D = DurableWorkflow
  import M = WorkflowEngine

  /** What both sides show of a state; action ids are fresh on each side and not compared. */
  datatype View = View(stage: Stage, status: Status, checkpointNo: nat, lastEvent: Option<string>, waiting: bool)

  datatype Answer = Shows(view: View) | NotActive | NotPending | HashMismatch | HashRequired | OtherError

  function ViewOf(s: RunState): View {
    View(s.stage, s.status, s.checkpointNo, s.lastEvent, s.pending.Some?)
  }

  function DurableAnswer(r: Result<RunState, D.Error>): Answer {
    match r
    case Ok(s) => Shows(ViewOf(s))
    case Err(RunNotActive) => NotActive
    case Err(ActionNotPending) => NotPending
    case Err(HashMismatch) => HashMismatch
    case Err(SubjectHashRequired) => HashRequired
    case Err(_) => OtherError
  }

  function MemoryAnswer(r: Result<RunState, M.Error>): Answer {
    match r
    case Ok(s) => Shows(ViewOf(s))
    case Err(RunNotActive) => NotActive
    case Err(ActionNotPending) => NotPending
    case Err(HashMismatch) => HashMismatch
    case Err(_) => OtherError
  }

  /** The state the repository shows for a run: its newest checkpoint. */
  predicate HeadIs(db: D.Db, tenant: string, runId: string, s: RunState) {
    && tenant != "" && runId in db.runs && db.runs[runId].tenant == tenant
    && runId in db.checkpoints && |db.checkpoints[runId]| > 0
    && FromPayload(db.checkpoints[runId][|db.checkpoints[runId]| - 1].body) == Some(s)
  }

  /**
   A pair of stores working on the same run: `shown` is the repository's newest state,
   `held` the state the engine's caller keeps.
   */
  datatype Pair = Pair(db: D.Db, tenant: string, runId: string, shown: RunState, engine: M.Engine, held: RunState)

  datatype Call =
    | Event(event: string, subjectHash: string, durableId: string, memoryId: string, now: real)
    | Decision(durableAction: string, memoryAction: string, approved: bool, supplied: string, at: real)

  /** The link between the two sides: same view, same events seen, same pending subject hash. */
  ghost predicate Linked(p: Pair) {
    && ViewOf(p.shown) == ViewOf(p.held)
    && (forall e :: (p.tenant, p.runId, e) in p.db.events <==> e in p.engine.processed)
    && (forall a :: a in p.engine.actions && p.engine.actions[a].status == M.PENDING ==> p.held.pending == Some(a))
    && (p.held.pending.Some? ==>
          && p.shown.pending.value in p.db.actions
          && p.held.pending.value in p.engine.actions
          && p.engine.actions[p.held.pending.value].status == M.PENDING
          && p.engine.actions[p.held.pending.value].subjectHash == Some(p.db.actions[p.shown.pending.value].subjectHash))
  }

  ghost predicate Related(p: Pair) {
    D.Inv(p.db) && HeadIs(p.db, p.tenant, p.runId, p.shown) && Linked(p)
  }

  function Durable(p: Pair, call: Call): (D.Db, Result<RunState, D.Error>) {
    match call
    case Event(event, subjectHash, durableId, _, now) =>
      D.Transition(p.db, p.tenant, p.runId, event, subjectHash, durableId, now)
    case Decision(durableAction, _, approved, supplied, at) =>
      D.Decide(p.db, p.tenant, p.runId, durableAction, approved, supplied, at)
  }

  function Memory(p: Pair, call: Call): (M.Engine, Result<RunState, M.Error>) {
    match call
    case Event(event, subjectHash, _, memoryId, now) =>
      M.Transition(p.engine, p.held, event, Some(subjectHash), memoryId, now)
    case Decision(_, memoryAction, approved, supplied, _) =>
      M.Decide(p.engine, p.held, memoryAction, approved, supplied)
  }

  function Step(p: Pair, call: Call): Pair {
    var (db, durable) := Durable(p, call);
    var (engine, memory) := Memory(p, call);
    p.(db := db, shown := if durable.Ok? then durable.value else p.shown,
       engine := engine, held := if memory.Ok? then memory.value else p.held)
  }

  /** Fresh ids for new actions, and decisions naming the run's own pending action on both sides or on neither. */
  predicate WellAddressed(p: Pair, call: Call) {
    match call
    case Event(_, _, durableId, memoryId, _) => durableId !in p.db.actions && memoryId !in p.engine.actions
    case Decision(durableAction, memoryAction, _, _, _) =>
      p.shown.pending == Some(durableAction) <==> p.held.pending == Some(memoryAction)
  }

  /**
   The calls the two stores treat alike. Opening the gate needs a subject hash of 64
   characters, which only the repository checks; a decision must come before expiry, which
   only the repository looks at, unless it is a rejection with the right hash anyway.
   */
  predicate Comparable(p: Pair, call: Call) {
    match call
    case Event(event, subjectHash, _, _, _) =>
      (event !in p.engine.processed && p.shown.status == RUNNING && p.shown.stage == APPROVE)
        ==> |subjectHash| == D.SUBJECT_HASH_LENGTH
    case Decision(durableAction, _, approved, supplied, at) =>
      p.shown.pending == Some(durableAction) && durableAction in p.db.actions ==>
        || at < p.db.actions[durableAction].expires
        || (!approved && supplied == p.db.actions[durableAction].subjectHash)
  }

  // ------------------------------------------- the repository on one run

  predicate PendingFor(db: D.Db, runId: string, id: string) {
    id in db.actions && db.actions[id].runId == runId && db.actions[id].status == D.PENDING
  }

  lemma {:induction false} HeadFacts(db: D.Db, tenant: string, runId: string, s: RunState)
    requires D.Inv(db) && HeadIs(db, tenant, runId, s)
    ensures D.Locked(db, tenant, runId) == Ok(s)
    ensures D.RunOk(db, runId) && D.Head(db, runId) == s
    ensures (db.runs[runId].stage, db.runs[runId].status) == (s.stage, s.status)
    ensures s.pending.Some? <==> s.status == WAITING_HUMAN
    ensures forall a :: PendingFor(db, runId, a) <==> s.pending == Some(a)
  {
    D.HumanGate(db, runId);
    D.LockedIsHead(db, tenant, runId);
    var acts := D.ActionsOf(db, runId);
    forall a
      ensures PendingFor(db, runId, a) <==> s.pending == Some(a)
    {
      assert a in db.actions && db.actions[a].runId == runId <==> a in acts;
      if a in acts && acts[a].status == D.PENDING {
        D.GateReadings(s, acts);
        assert acts.Keys == {a} by {
          var b :| acts.Keys == {b};
          assert a in {b};
        }
      }
    }
  }

  /** The tables a successful write leaves for the run, seen from outside. */
  ghost predicate Wrote(db: D.Db, after: D.Db, tenant: string, runId: string, s: RunState) {
    D.Inv(after) && HeadIs(after, tenant, runId, s)
  }

  lemma {:induction false} AdvanceWrites(p: Pair, event: string, subjectHash: string, id: string, now: real)
    requires D.Inv(p.db) && HeadIs(p.db, p.tenant, p.runId, p.shown)
    requires (p.tenant, p.runId, event) !in p.db.events && p.shown.status == RUNNING && p.shown.stage != APPROVE
    ensures var (after, result) := D.Transition(p.db, p.tenant, p.runId, event, subjectHash, id, now);
      && result == Ok(Numbered(D.Advanced(p.shown, event)))
      && Wrote(p.db, after, p.tenant, p.runId, result.value)
      && after.events == p.db.events + {(p.tenant, p.runId, event)} && after.actions == p.db.actions
  {
    HeadFacts(p.db, p.tenant, p.runId, p.shown);
    D.AcceptedEvent(p.db, p.tenant, p.runId, event, subjectHash, id, now);
    D.AdvanceKeeps(p.db, p.runId, event);
    PayloadRoundTrip(Numbered(D.Advanced(p.shown, event)), ToPayload(Numbered(D.Advanced(p.shown, event))));
  }

  lemma {:induction false} OpenWrites(p: Pair, event: string, subjectHash: string, id: string, now: real)
    requires D.Inv(p.db) && HeadIs(p.db, p.tenant, p.runId, p.shown)
    requires (p.tenant, p.runId, event) !in p.db.events && p.shown.status == RUNNING && p.shown.stage == APPROVE
    requires |subjectHash| == D.SUBJECT_HASH_LENGTH && id !in p.db.actions
    ensures var (after, result) := D.Transition(p.db, p.tenant, p.runId, event, subjectHash, id, now);
      var action := D.HumanAction(p.tenant, p.runId, subjectHash, D.PENDING, now + D.ACTION_LIFETIME);
      && result == Ok(Numbered(D.Waiting(p.shown, event, id)))
      && Wrote(p.db, after, p.tenant, p.runId, result.value)
      && after.events == p.db.events + {(p.tenant, p.runId, event)} && after.actions == p.db.actions[id := action]
  {
    HeadFacts(p.db, p.tenant, p.runId, p.shown);
    D.AcceptedEvent(p.db, p.tenant, p.runId, event, subjectHash, id, now);
    D.OpenKeeps(p.db, p.runId, event, id, D.HumanAction(p.tenant, p.runId, subjectHash, D.PENDING, now + D.ACTION_LIFETIME));
    PayloadRoundTrip(Numbered(D.Waiting(p.shown, event, id)), ToPayload(Numbered(D.Waiting(p.shown, event, id))));
  }

  lemma {:induction false} DecisionWrites(p: Pair, id: string, approved: bool, supplied: string, at: real)
    requires D.Inv(p.db) && HeadIs(p.db, p.tenant, p.runId, p.shown)
    requires D.Decidable(p.db, p.tenant, p.runId, id, supplied, at)
    ensures var (after, result) := D.Decide(p.db, p.tenant, p.runId, id, approved, supplied, at);
      var verdict := D.Verdict(p.db.actions[id], approved, at);
      && result == Ok(Numbered(D.Decided(p.shown, verdict)))
      && Wrote(p.db, after, p.tenant, p.runId, result.value)
      && after.events == p.db.events
  {
    HeadFacts(p.db, p.tenant, p.runId, p.shown);
    D.AcceptedDecision(p.db, p.tenant, p.runId, id, approved, supplied, at);
    var verdict := D.Verdict(p.db.actions[id], approved, at);
    D.DecisionKeeps(p.db, p.runId, id, verdict);
    PayloadRoundTrip(Numbered(D.Decided(p.shown, verdict)), ToPayload(Numbered(D.Decided(p.shown, verdict))));
  }

  // ------------------------------------------------------------- one call

  /** The repository's own outcome of an event, in terms of the state it shows. */
  lemma {:induction false} DurableEvent(p: Pair, event: string, subjectHash: string, id: string, now: real)
    requires D.Inv(p.db) && HeadIs(p.db, p.tenant, p.runId, p.shown) && id !in p.db.actions
    ensures var (after, result) := D.Transition(p.db, p.tenant, p.runId, event, subjectHash, id, now);
      var seen := (p.tenant, p.runId, event) in p.db.events;
      var next := if p.shown.stage == APPROVE then D.Waiting(p.shown, event, id) else D.Advanced(p.shown, event);
      if seen then (after, result) == (p.db, Ok(p.shown))
      else if p.shown.status != RUNNING then (after, result) == (p.db, Err(D.RunNotActive))
      else if p.shown.stage == APPROVE && |subjectHash| != D.SUBJECT_HASH_LENGTH then
        (after, result) == (p.db, Err(D.SubjectHashRequired))
      else
        && result == Ok(Numbered(next)) && Wrote(p.db, after, p.tenant, p.runId, Numbered(next))
        && after.events == p.db.events + {(p.tenant, p.runId, event)}
        && after.actions == if p.shown.stage != APPROVE then p.db.actions
             else p.db.actions[id := D.HumanAction(p.tenant, p.runId, subjectHash, D.PENDING, now + D.ACTION_LIFETIME)]
  {
    HeadFacts(p.db, p.tenant, p.runId, p.shown);
    if (p.tenant, p.runId, event) !in p.db.events && p.shown.status == RUNNING {
      if p.shown.stage != APPROVE {
        AdvanceWrites(p, event, subjectHash, id, now);
      } else if |subjectHash| == D.SUBJECT_HASH_LENGTH {
        OpenWrites(p, event, subjectHash, id, now);
      }
    }
  }

  /** The engine follows an event that the repository has written. */
  lemma {:induction false} EventLinks(p: Pair, event: string, subjectHash: string, durableId: string, memoryId: string, now: real,
                   after: D.Db)
    requires Linked(p) && (p.shown.pending.Some? <==> p.shown.status == WAITING_HUMAN)
    requires event !in p.engine.processed && p.shown.status == RUNNING && memoryId !in p.engine.actions
    requires after.events == p.db.events + {(p.tenant, p.runId, event)}
    requires p.shown.stage != APPROVE ==> after.actions == p.db.actions
    requires p.shown.stage == APPROVE ==>
      durableId in after.actions && after.actions[durableId].subjectHash == subjectHash
    ensures var next := if p.shown.stage == APPROVE then D.Waiting(p.shown, event, durableId) else D.Advanced(p.shown, event);
      var (engine, memory) := M.Transition(p.engine, p.held, event, Some(subjectHash), memoryId, now);
      && memory.Ok? && ViewOf(memory.value) == ViewOf(Numbered(next))
      && Linked(p.(db := after, shown := Numbered(next), engine := engine, held := memory.value))
  {
  }

  /** The answer to an event, from what is shown of the run; only the repository refuses a hash for its length. */
  function EventAnswer(v: View, seen: bool, refusesHash: bool, event: string): Answer {
    if seen then Shows(v)
    else if v.status != RUNNING then NotActive
    else if v.stage != APPROVE then Shows(v.(stage := NextStage(v.stage), checkpointNo := v.checkpointNo + 1, lastEvent := Some(event)))
    else if refusesHash then HashRequired
    else Shows(v.(status := WAITING_HUMAN, checkpointNo := v.checkpointNo + 1, lastEvent := Some(event), waiting := true))
  }

  lemma {:induction false} EventResultAnswer(s: RunState, result: Result<RunState, D.Error>, seen: bool, refusesHash: bool,
                          event: string, id: string)
    requires var next := if s.stage == APPROVE then D.Waiting(s, event, id) else D.Advanced(s, event);
      result == if seen then Ok(s)
                else if s.status != RUNNING then Err(D.RunNotActive)
                else if s.stage == APPROVE && refusesHash then Err(D.SubjectHashRequired)
                else Ok(Numbered(next))
    requires s.status == RUNNING ==> s.pending.None?
    ensures DurableAnswer(result) == EventAnswer(ViewOf(s), seen, refusesHash, event)
  {
  }

  lemma {:induction false} DurableEventAnswer(p: Pair, event: string, subjectHash: string, id: string, now: real)
    requires D.Inv(p.db) && HeadIs(p.db, p.tenant, p.runId, p.shown) && id !in p.db.actions
    ensures DurableAnswer(D.Transition(p.db, p.tenant, p.runId, event, subjectHash, id, now).1)
         == EventAnswer(ViewOf(p.shown), (p.tenant, p.runId, event) in p.db.events, |subjectHash| != D.SUBJECT_HASH_LENGTH, event)
  {
    DurableEvent(p, event, subjectHash, id, now);
    EventResultAnswer(p.shown, D.Transition(p.db, p.tenant, p.runId, event, subjectHash, id, now).1,
                      (p.tenant, p.runId, event) in p.db.events, |subjectHash| != D.SUBJECT_HASH_LENGTH, event, id);
  }

  lemma {:induction false} MemoryEventAnswer(p: Pair, event: string, subjectHash: string, id: string, now: real)
    ensures MemoryAnswer(M.Transition(p.engine, p.held, event, Some(subjectHash), id, now).1)
         == EventAnswer(ViewOf(p.held), event in p.engine.processed, false, event)
  {
  }

  lemma {:induction false} EventAnswers(p: Pair, call: Call)
    requires Related(p) && call.Event? && WellAddressed(p, call)
    ensures Comparable(p, call) <==> DurableAnswer(Durable(p, call).1) == MemoryAnswer(Memory(p, call).1)
  {
    var Event(event, subjectHash, durableId, memoryId, now) := call;
    DurableEventAnswer(p, event, subjectHash, durableId, now);
    MemoryEventAnswer(p, event, subjectHash, memoryId, now);
  }

  lemma {:induction false} EventRelated(p: Pair, call: Call)
    requires Related(p) && call.Event? && WellAddressed(p, call) && Comparable(p, call)
    ensures Related(Step(p, call))
  {
    var Event(event, subjectHash, durableId, memoryId, now) := call;
    DurableEvent(p, event, subjectHash, durableId, now);
    HeadFacts(p.db, p.tenant, p.runId, p.shown);
    if event !in p.engine.processed && p.shown.status == RUNNING {
      EventLinks(p, event, subjectHash, durableId, memoryId, now, Durable(p, call).0);
    }
  }

  /** The repository's own outcome of a decision, in terms of the state it shows. */
  lemma {:induction false} DurableDecision(p: Pair, id: string, approved: bool, supplied: string, at: real)
    requires D.Inv(p.db) && HeadIs(p.db, p.tenant, p.runId, p.shown)
    ensures p.shown.pending == Some(id) ==> id in p.db.actions
    ensures var (after, result) := D.Decide(p.db, p.tenant, p.runId, id, approved, supplied, at);
      if p.shown.pending != Some(id) then (after, result) == (p.db, Err(D.ActionNotPending))
      else if p.db.actions[id].expires > at && p.db.actions[id].subjectHash != supplied then
        (after, result) == (p.db, Err(D.HashMismatch))
      else
        var next := Numbered(D.Decided(p.shown, D.Verdict(p.db.actions[id], approved, at)));
        result == Ok(next) && Wrote(p.db, after, p.tenant, p.runId, next) && after.events == p.db.events
  {
    HeadFacts(p.db, p.tenant, p.runId, p.shown);
    assert PendingFor(p.db, p.runId, id) <==> p.shown.pending == Some(id);
    if D.Decidable(p.db, p.tenant, p.runId, id, supplied, at) {
      DecisionWrites(p, id, approved, supplied, at);
    } else if PendingFor(p.db, p.runId, id) {
      assert p.db.actions[id].tenant == p.tenant;
    }
  }

  /** The engine follows a decision on its own pending action. */
  lemma {:induction false} DecisionLinks(p: Pair, memoryId: string, approved: bool, supplied: string, after: D.Db, verdict: D.ActionStatus)
    requires Linked(p) && p.held.pending == Some(memoryId)
    requires p.db.actions[p.shown.pending.value].subjectHash == supplied
    requires after.events == p.db.events && ((verdict == D.APPROVED) <==> approved)
    ensures var (engine, memory) := M.Decide(p.engine, p.held, memoryId, approved, supplied);
      var next := Numbered(D.Decided(p.shown, verdict));
      && memory.Ok? && ViewOf(memory.value) == ViewOf(next)
      && Linked(p.(db := after, shown := next, engine := engine, held := memory.value))
  {
  }

  lemma {:induction false} MemoryDecision(p: Pair, call: Call)
    requires Linked(p) && call.Decision? && WellAddressed(p, call)
    ensures var result := M.Decide(p.engine, p.held, call.memoryAction, call.approved, call.supplied);
      if p.shown.pending != Some(call.durableAction) then result == (p.engine, Err(M.ActionNotPending))
      else if p.db.actions[call.durableAction].subjectHash != call.supplied then result == (p.engine, Err(M.HashMismatch))
      else result.1.Ok? && ViewOf(result.1.value)
             == ViewOf(Numbered(D.Decided(p.shown, if call.approved then D.APPROVED else D.REJECTED)))
  {
  }

  /** Two outcomes of a decision, described by what each side shows, agree exactly when it is comparable. */
  lemma {:induction false} OutcomesAgree(p: Pair, call: Call, durable: Result<RunState, D.Error>, memory: Result<RunState, M.Error>)
    requires call.Decision? && ViewOf(p.shown) == ViewOf(p.held)
    requires p.shown.pending == Some(call.durableAction) ==> call.durableAction in p.db.actions
    requires if p.shown.pending != Some(call.durableAction) then durable == Err(D.ActionNotPending)
      else if p.db.actions[call.durableAction].expires > call.at && p.db.actions[call.durableAction].subjectHash != call.supplied
        then durable == Err(D.HashMismatch)
      else durable == Ok(Numbered(D.Decided(p.shown, D.Verdict(p.db.actions[call.durableAction], call.approved, call.at))))
    requires if p.shown.pending != Some(call.durableAction) then memory == Err(M.ActionNotPending)
      else if p.db.actions[call.durableAction].subjectHash != call.supplied then memory == Err(M.HashMismatch)
      else memory.Ok? && ViewOf(memory.value)
             == ViewOf(Numbered(D.Decided(p.shown, if call.approved then D.APPROVED else D.REJECTED)))
    ensures Comparable(p, call) <==> DurableAnswer(durable) == MemoryAnswer(memory)
  {
  }

  lemma {:induction false} DecisionAnswers(p: Pair, call: Call)
    requires Related(p) && call.Decision? && WellAddressed(p, call)
    ensures Comparable(p, call) <==> DurableAnswer(Durable(p, call).1) == MemoryAnswer(Memory(p, call).1)
  {
    DurableDecision(p, call.durableAction, call.approved, call.supplied, call.at);
    MemoryDecision(p, call);
    OutcomesAgree(p, call, Durable(p, call).1, Memory(p, call).1);
  }

  lemma {:induction false} DecisionKeepsRelated(p: Pair, call: Call)
    requires Related(p) && call.Decision? && WellAddressed(p, call) && Comparable(p, call)
    ensures Related(Step(p, call))
  {
    var Decision(durableAction, memoryAction, approved, supplied, at) := call;
    DurableDecision(p, durableAction, approved, supplied, at);
    MemoryDecision(p, call);
    if p.shown.pending == Some(durableAction) && p.db.actions[durableAction].subjectHash == supplied {
      var verdict := D.Verdict(p.db.actions[durableAction], approved, at);
      DecisionLinks(p, memoryAction, approved, supplied, Durable(p, call).0, verdict);
    }
  }

  lemma {:induction false} DecisionRelated(p: Pair, call: Call)
    requires Related(p) && call.Decision? && WellAddressed(p, call)
    ensures Comparable(p, call) <==> DurableAnswer(Durable(p, call).1) == MemoryAnswer(Memory(p, call).1)
    ensures Comparable(p, call) ==> Related(Step(p, call))
  {
    DecisionAnswers(p, call);
    if Comparable(p, call) {
      DecisionKeepsRelated(p, call);
    }
  }

  /** One call: the answers agree exactly when the call is comparable, and then the stores stay related. */
  lemma {:induction false} AgreeExactlyWhenComparable(p: Pair, call: Call)
    requires Related(p) && WellAddressed(p, call)
    ensures Comparable(p, call) <==> DurableAnswer(Durable(p, call).1) == MemoryAnswer(Memory(p, call).1)
    ensures Comparable(p, call) ==> Related(Step(p, call))
  {
    if call.Event? {
      EventAnswers(p, call);
      if Comparable(p, call) {
        EventRelated(p, call);
      }
    } else {
      DecisionRelated(p, call);
    }
  }

  // --------------------------------------------------------------- all runs

  predicate Compatible(p: Pair, calls: seq<Call>)
    decreases |calls|
  {
    calls == [] || (WellAddressed(p, calls[0]) && Comparable(p, calls[0]) && Compatible(Step(p, calls[0]), calls[1..]))
  }

  function Answers(p: Pair, calls: seq<Call>): (r: (seq<Answer>, seq<Answer>))
    decreases |calls|
  {
    if calls == [] then ([], [])
    else
      var rest := Answers(Step(p, calls[0]), calls[1..]);
      ([DurableAnswer(Durable(p, calls[0]).1)] + rest.0, [MemoryAnswer(Memory(p, calls[0]).1)] + rest.1)
  }

  function After(p: Pair, calls: seq<Call>): Pair
    decreases |calls|
  {
    if calls == [] then p else After(Step(p, calls[0]), calls[1..])
  }

  /** Any sequence of comparable calls, duplicates, refusals and rejections included, is answered alike. */
  lemma {:induction false} SameAnswersInEveryRun(p: Pair, calls: seq<Call>)
    requires Related(p) && Compatible(p, calls)
    ensures Answers(p, calls).0 == Answers(p, calls).1
    ensures Related(After(p, calls))
    ensures ViewOf(After(p, calls).shown) == ViewOf(After(p, calls).held)
    decreases |calls|
  {
    if calls != [] {
      AgreeExactlyWhenComparable(p, calls[0]);
      SameAnswersInEveryRun(Step(p, calls[0]), calls[1..]);
    }
  }

  /** A run started on both sides, on any good database and a new engine, is related. */
  lemma {:induction false} StartRelated(db: D.Db, tenant: string, campaign: string, contact: string, runId: string, memoryRun: string)
    requires D.Inv(db) && tenant != "" && runId !in db.runs
    ensures var (after, shown) := D.Start(db, tenant, campaign, contact, runId);
      var (engine, held) := M.Save(M.EMPTY_ENGINE, Initial(tenant, memoryRun, campaign, contact));
      shown.Ok? && Related(Pair(after, tenant, runId, shown.value, engine, held))
  {
    D.StartWrites(db, tenant, campaign, contact, runId);
    D.StartKeeps(db, tenant, campaign, contact, runId);
    var first := Numbered(Initial(tenant, runId, campaign, contact));
    PayloadRoundTrip(first, ToPayload(first));
    assert forall e :: (tenant, runId, e) !in db.events;
  }
}
