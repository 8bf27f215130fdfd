/**
 The in-memory engine of services/orchestrator/app/workflow.py: transitions, human
 actions, expiry, checkpoints with restore, and the outbox of effects.

 The caller keeps the state of each run and passes it in; `Session` below is an engine
 together with such a caller, who always passes the state last returned.
 */
module WorkflowEngine {
  import opened Common
  import opened Workflow

  datatype ActionStatus = PENDING | APPROVED | REJECTED | EXPIRED

  datatype Action = Action(status: ActionStatus, subjectHash: Option<string>, expires: real)

  datatype Item = Item(tenant: string, runId: string, effect: string, cancelReason: Option<string>)

  datatype Engine = Engine(
    checkpoints: map<string, seq<Checkpoint>>,
    outbox: map<string, Item>,
    processed: set<string>,
    actions: map<string, Action>)

  datatype Error =
    | RunNotActive | ActionNotPending | HashMismatch
    | CheckpointsRequired | CheckpointHashInvalid | SequenceInvalid | VersionUnavailable | StageUnknown

  const EMPTY_ENGINE := Engine(map[], map[], {}, map[])
  const ACTION_LIFETIME := 86400.0

  // ------------------------------------------------------------- operations

  function Rows(e: Engine, runId: string): seq<Checkpoint> {
    if runId in e.checkpoints then e.checkpoints[runId] else []
  }

  function Save(e: Engine, s: RunState): (Engine, RunState) {
    (e.(checkpoints := e.checkpoints[s.runId := Rows(e, s.runId) + [Seal(Numbered(s))]]), Numbered(s))
  }

  function Succeed(saved: (Engine, RunState)): (Engine, Result<RunState, Error>) {
    (saved.0, Ok(saved.1))
  }

  function Transition(e: Engine, s: RunState, event: string, subjectHash: Option<string>, actionId: string, now: real)
    : (Engine, Result<RunState, Error>)
  {
    if event in e.processed then (e, Ok(s))
    else if s.status != RUNNING then (e, Err(RunNotActive))
    else
      var seen := e.(processed := e.processed + {event});
      if s.stage == APPROVE then
        var action := Action(PENDING, subjectHash, now + ACTION_LIFETIME);
        Succeed(Save(seen.(actions := e.actions[actionId := action]),
                     s.(status := WAITING_HUMAN, pending := Some(actionId), lastEvent := Some(event))))
      else
        Succeed(Save(seen, s.(stage := NextStage(s.stage), lastEvent := Some(event))))
  }

  function Decide(e: Engine, s: RunState, actionId: string, approved: bool, subjectHash: string)
    : (Engine, Result<RunState, Error>)
  {
    if actionId !in e.actions || e.actions[actionId].status != PENDING then (e, Err(ActionNotPending))
    else if e.actions[actionId].subjectHash != Some(subjectHash) then (e, Err(HashMismatch))
    else
      var verdict := if approved then APPROVED else REJECTED;
      var closed := e.(actions := e.actions[actionId := e.actions[actionId].(status := verdict)]);
      if approved then Succeed(Save(closed, s.(status := RUNNING, stage := CONTACT, pending := None)))
      else Succeed(Save(closed, s.(status := BLOCKED, pending := None)))
  }

  /** The key under which the pass looks for the run's action. */
  function PendingId(s: RunState): string {
    if s.pending.Some? then s.pending.value else ""
  }

  predicate Due(e: Engine, id: string, now: real) {
    id in e.actions && e.actions[id].status == PENDING && e.actions[id].expires <= now
  }

  predicate Overdue(e: Engine, s: RunState, now: real) {
    Due(e, PendingId(s), now)
  }

  function ExpireRun(e: Engine, s: RunState): (Engine, RunState)
    requires PendingId(s) in e.actions
  {
    var id := PendingId(s);
    Save(e.(actions := e.actions[id := e.actions[id].(status := EXPIRED)]), s.(status := BLOCKED, pending := None))
  }

  /** The expiry pass over the runs held by the caller, in the order of its dictionary. */
  function Expire(e: Engine, held: map<string, RunState>, order: seq<string>, now: real): (Engine, map<string, RunState>)
    requires forall r :: r in order ==> r in held
    decreases |order|
  {
    if order == [] then (e, held)
    else
      var (e1, held1) := Expire(e, held, order[..|order| - 1], now);
      var r := order[|order| - 1];
      if Overdue(e1, held[r], now) then
        var (e2, s) := ExpireRun(e1, held[r]);
        (e2, held1[r := s])
      else (e1, held1)
  }

  /** What `restore` checks of one checkpoint, given the number before it. */
  function CheckOne(c: Checkpoint, previous: nat): Option<Error> {
    if c.stateHash != Sha256(c.body) then Some(CheckpointHashInvalid)
    else if c.body.checkpointNo != previous + 1 then Some(SequenceInvalid)
    else if c.body.workflowVersion != WORKFLOW_VERSION then Some(VersionUnavailable)
    else None
  }

  /** The loop of `restore` up to position `i`: the first error, if there is one. */
  function CheckUpTo(cs: seq<Checkpoint>, i: nat): Option<Error>
    requires i <= |cs|
  {
    if i == 0 then None
    else
      match CheckUpTo(cs, i - 1)
      case Some(error) => Some(error)
      case None => CheckOne(cs[i - 1], if i == 1 then 0 else cs[i - 2].body.checkpointNo)
  }

  function Restore(e: Engine, cs: seq<Checkpoint>): (Engine, Result<RunState, Error>) {
    if cs == [] then (e, Err(CheckpointsRequired))
    else
      match CheckUpTo(cs, |cs|)
      case Some(error) => (e, Err(error))
      case None =>
        match FromPayload(cs[|cs| - 1].body)
        case None => (e, Err(StageUnknown))
        case Some(s) => (e.(checkpoints := e.checkpoints[s.runId := cs]), Ok(s))
  }

  function Enqueue(e: Engine, s: RunState, effect: string, key: string): (Engine, Item) {
    if key in e.outbox then (e, e.outbox[key])
    else
      var item := Item(s.tenant, s.runId, effect, None);
      (e.(outbox := e.outbox[key := item]), item)
  }

  predicate Cancellable(item: Item, runId: string) {
    item.runId == runId && item.cancelReason.None?
  }

  function Cancel(e: Engine, runId: string, reason: string): (Engine, nat) {
    (e.(outbox := map k | k in e.outbox ::
          if Cancellable(e.outbox[k], runId) then e.outbox[k].(cancelReason := Some(reason)) else e.outbox[k]),
     |set k | k in e.outbox && Cancellable(e.outbox[k], runId)|)
  }

  // ---------------------------------------------------------------- restore

  /** Sealed checkpoints of the current version, numbered 1..n, the last one loadable. */
  predicate ValidChain(cs: seq<Checkpoint>) {
    && cs != []
    && (forall i :: 0 <= i < |cs| ==>
          && cs[i].stateHash == Sha256(cs[i].body)
          && cs[i].body.checkpointNo == i + 1
          && cs[i].body.workflowVersion == WORKFLOW_VERSION)
    && FromPayload(cs[|cs| - 1].body).Some?
  }

  lemma {:induction false} CheckUpToIsValid(cs: seq<Checkpoint>, i: nat)
    requires i <= |cs|
    ensures CheckUpTo(cs, i).None? <==> forall j :: 0 <= j < i ==>
      && cs[j].stateHash == Sha256(cs[j].body)
      && cs[j].body.checkpointNo == j + 1
      && cs[j].body.workflowVersion == WORKFLOW_VERSION
  {
    if i > 0 {
      CheckUpToIsValid(cs, i - 1);
    }
  }

  /** `restore` accepts exactly the valid chains, and then installs the chain and returns its last state. */
  lemma {:induction false} RestoreAcceptsValidChains(e: Engine, cs: seq<Checkpoint>)
    ensures var (after, result) := Restore(e, cs);
      && (result.Ok? <==> ValidChain(cs))
      && (result.Ok? ==>
            && ToPayload(result.value) == cs[|cs| - 1].body
            && after == e.(checkpoints := e.checkpoints[result.value.runId := cs]))
      && (result.Err? ==> after == e)
  {
    CheckUpToIsValid(cs, |cs|);
    if cs != [] && FromPayload(cs[|cs| - 1].body).Some? {
      PayloadRoundTrip(FromPayload(cs[|cs| - 1].body).value, cs[|cs| - 1].body);
    }
  }

  /** A checkpoint `restore` takes at this position: its own hash, the next number, the current version. */
  predicate Restorable(c: Checkpoint, i: nat) {
    c.stateHash == Sha256(c.body) && c.body.checkpointNo == i + 1 && c.body.workflowVersion == "sales-graph@1"
  }

  /** The first checkpoint `restore` cannot take names the error; with none, an empty list or an unknown last stage does. */
  lemma {:induction false} RestoreNamesItsError(e: Engine, cs: seq<Checkpoint>, i: nat)
    requires i <= |cs| && (forall j :: 0 <= j < i ==> Restorable(cs[j], j)) && (i < |cs| ==> !Restorable(cs[i], i))
    ensures var error :=
        if cs == [] then CheckpointsRequired
        else if i == |cs| then StageUnknown
        else if cs[i].stateHash != Sha256(cs[i].body) then CheckpointHashInvalid
        else if cs[i].body.checkpointNo != i + 1 then SequenceInvalid
        else VersionUnavailable;
      Restore(e, cs).1.Err? ==> Restore(e, cs) == (e, Err(error))
    ensures Restore(e, cs).1.Err? <==> i < |cs| || cs == [] || cs[|cs| - 1].body.stage.Unknown?
  {
    CheckUpToIsValid(cs, i);
    if i < |cs| {
      CheckFailsForGood(cs, i + 1);
    }
  }

  // --------------------------------------------------------------- sessions

  /** An engine and the states its caller holds, by run. */
  datatype Session = Session(engine: Engine, held: map<string, RunState>)

  datatype Op =
    | DoStart(tenant: string, campaign: string, contact: string, runId: string)
    | DoTransition(runId: string, event: string, subjectHash: Option<string>, actionId: string, now: real)
    | DoDecide(runId: string, actionId: string, approved: bool, supplied: string)
    | DoExpire(order: seq<string>, now: real)
    | DoRestore(runId: string, upTo: nat)
    | DoEnqueue(runId: string, effect: string, key: string)
    | DoCancel(runId: string, reason: string)

  predicate Distinct(order: seq<string>) {
    forall i, j :: 0 <= i < j < |order| ==> order[i] != order[j]
  }

  predicate Enabled(x: Session, op: Op) {
    match op
    case DoStart(_, _, _, runId) => runId !in x.engine.checkpoints
    case DoTransition(runId, _, _, _, _) => runId in x.held
    case DoDecide(runId, _, _, _) => runId in x.held
    case DoExpire(order, _) => Distinct(order) && forall r :: r in order ==> r in x.held
    case DoRestore(runId, upTo) => runId in x.engine.checkpoints && 1 <= upTo <= |x.engine.checkpoints[runId]|
    case DoEnqueue(runId, _, _) => runId in x.held
    case DoCancel(_, _) => true
  }

  function Keep(x: Session, runId: string, result: (Engine, Result<RunState, Error>)): Session {
    match result.1
    case Ok(s) => Session(result.0, x.held[runId := s])
    case Err(_) => Session(result.0, x.held)
  }

  function Step(x: Session, op: Op): Session
    requires Enabled(x, op)
  {
    match op
    case DoStart(tenant, campaign, contact, runId) =>
      Keep(x, runId, Succeed(Save(x.engine, Initial(tenant, runId, campaign, contact))))
    case DoTransition(runId, event, subjectHash, actionId, now) =>
      Keep(x, runId, Transition(x.engine, x.held[runId], event, subjectHash, actionId, now))
    case DoDecide(runId, actionId, approved, subjectHash) =>
      Keep(x, runId, Decide(x.engine, x.held[runId], actionId, approved, subjectHash))
    case DoExpire(order, now) =>
      var (e, held) := Expire(x.engine, x.held, order, now);
      Session(e, held)
    case DoRestore(runId, upTo) => Keep(x, runId, Restore(x.engine, x.engine.checkpoints[runId][..upTo]))
    case DoEnqueue(runId, effect, key) => x.(engine := Enqueue(x.engine, x.held[runId], effect, key).0)
    case DoCancel(runId, reason) => x.(engine := Cancel(x.engine, runId, reason).0)
  }

  predicate IsRun(x: Session, ops: seq<Op>)
    decreases |ops|
  {
    ops == [] || (Enabled(x, ops[0]) && IsRun(Step(x, ops[0]), ops[1..]))
  }

  function After(x: Session, ops: seq<Op>): Session
    requires IsRun(x, ops)
    decreases |ops|
  {
    if ops == [] then x else After(Step(x, ops[0]), ops[1..])
  }

  /** The chain of one run, and the state its caller holds, agree. */
  predicate ChainOf(cs: seq<Checkpoint>, runId: string, s: RunState) {
    && ValidChain(cs)
    && (forall i :: 0 <= i < |cs| ==> cs[i].body.runId == runId && FromPayload(cs[i].body).Some?)
    && FromPayload(cs[|cs| - 1].body) == Some(s)
  }

  predicate Consistent(x: Session) {
    && x.held.Keys == x.engine.checkpoints.Keys
    && forall r :: r in x.held ==> ChainOf(x.engine.checkpoints[r], r, x.held[r])
  }

  lemma {:induction false} SaveChains(e: Engine, runId: string, s: RunState, next: RunState)
    requires runId in e.checkpoints && ChainOf(e.checkpoints[runId], runId, s)
    requires next.runId == s.runId && next.checkpointNo == s.checkpointNo && next.workflowVersion == s.workflowVersion
    ensures next.runId == runId
    ensures ChainOf(Save(e, next).0.checkpoints[runId], runId, Save(e, next).1)
    ensures Save(e, next).0.checkpoints == e.checkpoints[runId := e.checkpoints[runId] + [Seal(Numbered(next))]]
  {
    PayloadRoundTrip(s, e.checkpoints[runId][|e.checkpoints[runId]| - 1].body);
    PayloadRoundTrip(Numbered(next), ToPayload(Numbered(next)));
  }

  lemma {:induction false} TransitionConsistent(x: Session, runId: string, event: string, subjectHash: Option<string>, actionId: string, now: real)
    requires Consistent(x) && runId in x.held
    ensures Consistent(Keep(x, runId, Transition(x.engine, x.held[runId], event, subjectHash, actionId, now)))
  {
    var e, s := x.engine, x.held[runId];
    if event !in e.processed && s.status == RUNNING {
      var seen := e.(processed := e.processed + {event});
      if s.stage == APPROVE {
        var gated := seen.(actions := e.actions[actionId := Action(PENDING, subjectHash, now + ACTION_LIFETIME)]);
        SaveChains(gated, runId, s, s.(status := WAITING_HUMAN, pending := Some(actionId), lastEvent := Some(event)));
      } else {
        SaveChains(seen, runId, s, s.(stage := NextStage(s.stage), lastEvent := Some(event)));
      }
    }
  }

  lemma {:induction false} DecideConsistent(x: Session, runId: string, actionId: string, approved: bool, subjectHash: string)
    requires Consistent(x) && runId in x.held
    ensures Consistent(Keep(x, runId, Decide(x.engine, x.held[runId], actionId, approved, subjectHash)))
  {
    var e, s := x.engine, x.held[runId];
    if actionId in e.actions {
      var verdict := if approved then APPROVED else REJECTED;
      var closed := e.(actions := e.actions[actionId := e.actions[actionId].(status := verdict)]);
      SaveChains(closed, runId, s, s.(status := RUNNING, stage := CONTACT, pending := None));
      SaveChains(closed, runId, s, s.(status := BLOCKED, pending := None));
    }
  }

  lemma {:induction false} ExpireRunConsistent(x: Session, runId: string, now: real)
    requires Consistent(x) && runId in x.held && Overdue(x.engine, x.held[runId], now)
    ensures var (e, s) := ExpireRun(x.engine, x.held[runId]); Consistent(Session(e, x.held[runId := s]))
  {
    var e, s := x.engine, x.held[runId];
    var id := PendingId(s);
    var closed := e.(actions := e.actions[id := e.actions[id].(status := EXPIRED)]);
    SaveChains(closed, runId, s, s.(status := BLOCKED, pending := None));
  }

  lemma {:induction false} ExpireOneMore(x: Session, order: seq<string>, now: real, r: string)
    requires r in x.held && forall other :: other in order ==> other in x.held
    ensures var (e, held) := Expire(x.engine, x.held, order, now);
      Expire(x.engine, x.held, order + [r], now)
        == if Overdue(e, x.held[r], now)
           then (ExpireRun(e, x.held[r]).0, held[r := ExpireRun(e, x.held[r]).1])
           else (e, held)
  {
    assert (order + [r])[..|order|] == order;
  }

  /** The session after one more run was looked at. */
  function Looked(x: Session, r: string, s: RunState, now: real): Session {
    if Overdue(x.engine, s, now) then Session(ExpireRun(x.engine, s).0, x.held[r := ExpireRun(x.engine, s).1]) else x
  }

  lemma {:induction false} LookedConsistent(x: Session, r: string, now: real)
    requires Consistent(x) && r in x.held
    ensures var y := Looked(x, r, x.held[r], now);
      Consistent(y) && y.held.Keys == x.held.Keys && forall other :: other in x.held && other != r ==> y.held[other] == x.held[other]
  {
    if Overdue(x.engine, x.held[r], now) {
      ExpireRunConsistent(x, r, now);
    }
  }

  lemma {:induction false} ExpireConsistent(x: Session, order: seq<string>, now: real)
    requires Consistent(x) && Distinct(order) && forall r :: r in order ==> r in x.held
    ensures var (e, held) := Expire(x.engine, x.held, order, now);
      && Consistent(Session(e, held)) && held.Keys == x.held.Keys
      && forall r :: r in x.held && r !in order ==> held[r] == x.held[r]
    decreases |order|
  {
    if order != [] {
      var rest, r := order[..|order| - 1], order[|order| - 1];
      assert order == rest + [r] && r !in rest && Distinct(rest);
      ExpireConsistent(x, rest, now);
      ExpireOneMore(x, rest, now, r);
      var (e, held) := Expire(x.engine, x.held, rest, now);
      LookedConsistent(Session(e, held), r, now);
    }
  }

  /** Restoring any non-empty prefix of a run's chain succeeds with the state saved at that point. */
  lemma {:induction false} PrefixRestores(x: Session, runId: string, upTo: nat)
    requires Consistent(x) && runId in x.held && 1 <= upTo <= |x.engine.checkpoints[runId]|
    ensures var cs := x.engine.checkpoints[runId];
      var (after, result) := Restore(x.engine, cs[..upTo]);
      && result.Ok? && FromPayload(cs[upTo - 1].body) == Some(result.value)
      && result.value.runId == runId && result.value.checkpointNo == upTo
      && after == x.engine.(checkpoints := x.engine.checkpoints[runId := cs[..upTo]])
      && (upTo == |cs| ==> result.value == x.held[runId] && after == x.engine)
      && ChainOf(cs[..upTo], runId, result.value)
  {
    var cs := x.engine.checkpoints[runId];
    assert ChainOf(cs, runId, x.held[runId]);
    RestoreAcceptsValidChains(x.engine, cs[..upTo]);
    PayloadRoundTrip(FromPayload(cs[upTo - 1].body).value, cs[upTo - 1].body);
    if upTo == |cs| {
      assert cs[..upTo] == cs;
      assert x.engine.checkpoints[runId := cs] == x.engine.checkpoints;
    }
  }

  lemma {:induction false} StartConsistent(x: Session, tenant: string, campaign: string, contact: string, runId: string)
    requires Consistent(x) && runId !in x.engine.checkpoints
    ensures Consistent(Keep(x, runId, Succeed(Save(x.engine, Initial(tenant, runId, campaign, contact)))))
  {
    var first := Numbered(Initial(tenant, runId, campaign, contact));
    PayloadRoundTrip(first, ToPayload(first));
  }

  lemma {:induction false} StepConsistent(x: Session, op: Op)
    requires Consistent(x) && Enabled(x, op)
    ensures Consistent(Step(x, op))
  {
    match op
    case DoStart(tenant, campaign, contact, runId) => StartConsistent(x, tenant, campaign, contact, runId);
    case DoTransition(runId, event, subjectHash, actionId, now) =>
      TransitionConsistent(x, runId, event, subjectHash, actionId, now);
    case DoDecide(runId, actionId, approved, subjectHash) => DecideConsistent(x, runId, actionId, approved, subjectHash);
    case DoExpire(order, now) => ExpireConsistent(x, order, now);
    case DoRestore(runId, upTo) => PrefixRestores(x, runId, upTo);
    case DoEnqueue(runId, effect, key) =>
    case DoCancel(runId, reason) =>
  }

  /**
   If every call on a run gets the state last returned for it, then after any calls, with
   restores to earlier points among them, every run's checkpoints are numbered 1..n and
   sealed, and restoring them returns exactly the state held.
   */
  lemma {:induction false} RunsStayRestorable(x: Session, ops: seq<Op>)
    requires Consistent(x) && IsRun(x, ops)
    ensures var after := After(x, ops);
      && Consistent(after)
      && forall r :: r in after.held ==>
           && ValidChain(after.engine.checkpoints[r])
           && Restore(after.engine, after.engine.checkpoints[r]) == (after.engine, Ok(after.held[r]))
    decreases |ops|
  {
    if ops == [] {
      forall r | r in x.held
        ensures Restore(x.engine, x.engine.checkpoints[r]) == (x.engine, Ok(x.held[r]))
      {
        PrefixRestores(x, r, |x.engine.checkpoints[r]|);
        assert x.engine.checkpoints[r][..|x.engine.checkpoints[r]|] == x.engine.checkpoints[r];
      }
    } else {
      StepConsistent(x, ops[0]);
      RunsStayRestorable(Step(x, ops[0]), ops[1..]);
    }
  }

  // ----------------------------------------------------------------- expiry

  /** One of these runs waits for this action. */
  predicate Awaited(held: map<string, RunState>, order: seq<string>, id: string)
    requires forall r :: r in order ==> r in held
  {
    exists i :: 0 <= i < |order| && PendingId(held[order[i]]) == id
  }

  /** The run's action is overdue when the pass starts, and no run before it waits for the same action. */
  predicate Blocks(e: Engine, held: map<string, RunState>, order: seq<string>, i: nat, now: real)
    requires i < |order| && forall r :: r in order ==> r in held
  {
    Overdue(e, held[order[i]], now) && !Awaited(held, order[..i], PendingId(held[order[i]]))
  }

  function Blocked(s: RunState): RunState {
    Numbered(s.(status := BLOCKED, pending := None))
  }

  /** The new states of exactly the blocked runs, in order. */
  function AllBlocked(e: Engine, held: map<string, RunState>, order: seq<string>, now: real): seq<RunState>
    requires forall r :: r in order ==> r in held
    decreases |order|
  {
    if order == [] then []
    else
      var last := |order| - 1;
      AllBlocked(e, held, order[..last], now) + if Blocks(e, held, order, last, now) then [Blocked(held[order[last]])] else []
  }

  lemma {:induction false} AwaitedSnoc(held: map<string, RunState>, order: seq<string>, r: string, id: string)
    requires r in held && forall other :: other in order ==> other in held
    ensures Awaited(held, order + [r], id) <==> Awaited(held, order, id) || PendingId(held[r]) == id
  {
    var longer := order + [r];
    assert longer[|order|] == r && forall i :: 0 <= i < |order| ==> longer[i] == order[i];
  }

  /** The pass expires the overdue actions that a run waits for, and no others. */
  lemma {:induction false} ExpireActions(e: Engine, held: map<string, RunState>, order: seq<string>, now: real, id: string)
    requires forall r :: r in order ==> r in held
    ensures var after := Expire(e, held, order, now).0;
      && (id in after.actions <==> id in e.actions)
      && (id in e.actions ==>
            after.actions[id]
              == if Due(e, id, now) && Awaited(held, order, id) then e.actions[id].(status := EXPIRED) else e.actions[id])
    decreases |order|
  {
    if order != [] {
      var rest, r := order[..|order| - 1], order[|order| - 1];
      assert order == rest + [r];
      ExpireActions(e, held, rest, now, id);
      ExpireActions(e, held, rest, now, PendingId(held[r]));
      AwaitedSnoc(held, rest, r, id);
      AwaitedSnoc(held, rest, r, PendingId(held[r]));
    }
  }

  lemma {:induction false} BlocksPrefix(e: Engine, held: map<string, RunState>, order: seq<string>, i: nat, now: real)
    requires i < |order| - 1 && forall r :: r in order ==> r in held
    ensures Blocks(e, held, order, i, now) <==> Blocks(e, held, order[..|order| - 1], i, now)
  {
    assert order[..|order| - 1][..i] == order[..i];
  }

  /** The runs as the pass leaves them: each blocked exactly when `Blocks` says so, and untouched otherwise. */
  ghost predicate BlockedExactly(e: Engine, held: map<string, RunState>, order: seq<string>, now: real, updated: map<string, RunState>)
    requires forall r :: r in order ==> r in held
  {
    && updated.Keys == held.Keys
    && (forall i :: 0 <= i < |order| ==>
          updated[order[i]] == if Blocks(e, held, order, i, now) then Blocked(held[order[i]]) else held[order[i]])
    && (forall r :: r in held && r !in order ==> updated[r] == held[r])
  }

  lemma {:induction false} ExpireLast(e: Engine, held: map<string, RunState>, order: seq<string>, now: real)
    requires order != [] && forall r :: r in order ==> r in held
    ensures var last := |order| - 1;
      var before := Expire(e, held, order[..last], now).1;
      Expire(e, held, order, now).1
        == if Blocks(e, held, order, last, now) then before[order[last] := Blocked(held[order[last]])] else before
  {
    ExpireActions(e, held, order[..|order| - 1], now, PendingId(held[order[|order| - 1]]));
  }

  lemma {:induction false} BlockedSnoc(e: Engine, held: map<string, RunState>, order: seq<string>, now: real,
                      before: map<string, RunState>, after: map<string, RunState>)
    requires order != [] && Distinct(order) && forall r :: r in order ==> r in held
    requires BlockedExactly(e, held, order[..|order| - 1], now, before)
    requires var last := |order| - 1;
      after == if Blocks(e, held, order, last, now) then before[order[last] := Blocked(held[order[last]])] else before
    ensures BlockedExactly(e, held, order, now, after)
  {
    var rest, r := order[..|order| - 1], order[|order| - 1];
    assert order == rest + [r] && r !in rest;
    forall i | 0 <= i < |rest|
      ensures after[order[i]] == if Blocks(e, held, order, i, now) then Blocked(held[order[i]]) else held[order[i]]
    {
      assert rest[i] == order[i] != r;
      BlocksPrefix(e, held, order, i, now);
    }
  }

  /**
   The pass blocks exactly the runs whose action is overdue when it starts, one run for each
   action, and touches no other.
   */
  lemma {:induction false} ExpireBlocksExactly(e: Engine, held: map<string, RunState>, order: seq<string>, now: real)
    requires Distinct(order) && forall r :: r in order ==> r in held
    ensures BlockedExactly(e, held, order, now, Expire(e, held, order, now).1)
    decreases |order|
  {
    if order != [] {
      ExpireBlocksExactly(e, held, order[..|order| - 1], now);
      ExpireLast(e, held, order, now);
      BlockedSnoc(e, held, order, now, Expire(e, held, order[..|order| - 1], now).1, Expire(e, held, order, now).1);
    }
  }

  /** When no two runs wait for one action, these are all the overdue runs. */
  lemma {:induction false} ExpireBlocksEveryOverdue(e: Engine, held: map<string, RunState>, order: seq<string>, now: real, i: nat)
    requires Distinct(order) && (forall r :: r in order ==> r in held) && i < |order|
    requires forall j :: 0 <= j < i ==> PendingId(held[order[j]]) != PendingId(held[order[i]])
    ensures order[i] in Expire(e, held, order, now).1
    ensures Expire(e, held, order, now).1[order[i]] == if Overdue(e, held[order[i]], now) then Blocked(held[order[i]]) else held[order[i]]
  {
    ExpireBlocksExactly(e, held, order, now);
    assert !Awaited(held, order[..i], PendingId(held[order[i]]));
  }

  /**
   The same, spelled out: a run whose pending action is pending in the engine and past its
   moment is blocked with one more checkpoint and the action expired; any other run of these
   stays as it is.
   */
  lemma {:induction false} ExpiresExactly(e: Engine, held: map<string, RunState>, order: seq<string>, now: real, i: nat)
    requires Distinct(order) && (forall r :: r in order ==> r in held) && i < |order|
    requires forall j :: 0 <= j < i ==> held[order[j]].pending != held[order[i]].pending
    requires "" !in e.actions
    ensures var s, (after, updated) := held[order[i]], Expire(e, held, order, now);
      var overdue := && s.pending.Some? && s.pending.value in e.actions
                     && e.actions[s.pending.value].status == PENDING && e.actions[s.pending.value].expires <= now;
      && order[i] in updated
      && (overdue ==>
            && updated[order[i]] == s.(status := BLOCKED, pending := None, checkpointNo := s.checkpointNo + 1)
            && s.pending.value in after.actions
            && after.actions[s.pending.value] == e.actions[s.pending.value].(status := EXPIRED))
      && (!overdue ==> updated[order[i]] == s)
  {
    var s := held[order[i]];
    ExpireBlocksExactly(e, held, order, now);
    ExpireActions(e, held, order, now, PendingId(s));
    assert Awaited(held, order, PendingId(s));
  }

  // ----------------------------------------------------------------- outbox

  /** An idempotency key keeps its first effect for good; only a cancellation is ever added to it. */
  lemma {:induction false} EffectsKeepTheirKey(x: Session, ops: seq<Op>, key: string)
    requires IsRun(x, ops) && key in x.engine.outbox
    ensures key in After(x, ops).engine.outbox
    ensures var before, after := x.engine.outbox[key], After(x, ops).engine.outbox[key];
      && after.(cancelReason := before.cancelReason) == before
      && (before.cancelReason.Some? ==> after == before)
    decreases |ops|
  {
    if ops != [] {
      if ops[0].DoExpire? {
        ExpireKeepsOutbox(x.engine, x.held, ops[0].order, ops[0].now);
      }
      EffectsKeepTheirKey(Step(x, ops[0]), ops[1..], key);
    }
  }

  lemma {:induction false} ExpireKeepsOutbox(e: Engine, held: map<string, RunState>, order: seq<string>, now: real)
    requires forall r :: r in order ==> r in held
    ensures Expire(e, held, order, now).0.outbox == e.outbox
    decreases |order|
  {
    if order != [] {
      ExpireKeepsOutbox(e, held, order[..|order| - 1], now);
    }
  }

  /**
   A cancellation marks exactly the run's items that carry no reason yet and counts them; the
   items of every other run, and the rest of the engine, stay as they are.
   */
  lemma {:induction false} CancelsExactly(e: Engine, runId: string, reason: string)
    ensures var (after, count) := Cancel(e, runId, reason);
      && after.(outbox := e.outbox) == e && after.outbox.Keys == e.outbox.Keys
      && (forall k :: k in e.outbox && e.outbox[k].runId == runId && e.outbox[k].cancelReason == None ==>
            after.outbox[k] == e.outbox[k].(cancelReason := Some(reason)))
      && (forall k :: k in e.outbox && (e.outbox[k].runId != runId || e.outbox[k].cancelReason != None) ==>
            after.outbox[k] == e.outbox[k])
      && count == |set k | k in e.outbox && e.outbox[k].runId == runId && e.outbox[k].cancelReason == None|
  {
    assert (set k | k in e.outbox && Cancellable(e.outbox[k], runId))
        == set k | k in e.outbox && e.outbox[k].runId == runId && e.outbox[k].cancelReason == None;
  }

  /** Cancelling a run again, for whatever reason, finds nothing and changes nothing. */
  lemma {:induction false} CancelIsOnce(e: Engine, runId: string, reason: string, again: string)
    ensures var after := Cancel(e, runId, reason).0; Cancel(after, runId, again) == (after, 0)
  {
    CancelsExactly(e, runId, reason);
    var after := Cancel(e, runId, reason).0;
    CancelsExactly(after, runId, again);
    assert Cancel(after, runId, again).0.outbox == after.outbox;
    assert (set k | k in after.outbox && after.outbox[k].runId == runId && after.outbox[k].cancelReason == None) == {};
  }

  /** A key that is taken answers with its item and changes nothing; a new one gets exactly this effect of this run. */
  lemma {:induction false} EnqueuesOnce(e: Engine, s: RunState, effect: string, key: string)
    ensures var (after, item) := Enqueue(e, s, effect, key);
      && (key in e.outbox ==> after == e && item == e.outbox[key])
      && (key !in e.outbox ==>
            && after == e.(outbox := e.outbox[key := item])
            && item.tenant == s.tenant && item.runId == s.runId && item.effect == effect && item.cancelReason == None)
  {
  }

  // ------------------------------------------------------------------ stages

  /** What a transition does, spelled out; the action opened at APPROVE lives for a day. */
  lemma {:induction false} EventMovesOneStage(e: Engine, s: RunState, event: string, subjectHash: Option<string>, actionId: string, now: real)
    ensures var (after, result) := Transition(e, s, event, subjectHash, actionId, now);
      && (event in e.processed ==> (after, result) == (e, Ok(s)))
      && (event !in e.processed && s.status != RUNNING ==> (after, result) == (e, Err(RunNotActive)))
      && (event !in e.processed && s.status == RUNNING ==>
            && result.Ok? && after.processed == e.processed + {event} && after.outbox == e.outbox
            && (s.stage != APPROVE ==> MovesOneStage(s, event, result.value) && after.actions == e.actions)
            && (s.stage == APPROVE ==>
                  && result.value == s.(status := WAITING_HUMAN, pending := Some(actionId), lastEvent := Some(event),
                                        checkpointNo := s.checkpointNo + 1)
                  && after.actions == e.actions[actionId := Action(PENDING, subjectHash, now + 86400.0)]))
  {
  }

  /** What a decision does: an approval takes the run to CONTACT, a rejection blocks it where it is. */
  lemma {:induction false} DecisionEndsTheWait(e: Engine, s: RunState, actionId: string, approved: bool, subjectHash: string)
    ensures var (after, result) := Decide(e, s, actionId, approved, subjectHash);
      var open := actionId in e.actions && e.actions[actionId].status == PENDING;
      && (!open ==> (after, result) == (e, Err(ActionNotPending)))
      && (open && e.actions[actionId].subjectHash != Some(subjectHash) ==> (after, result) == (e, Err(HashMismatch)))
      && (open && e.actions[actionId].subjectHash == Some(subjectHash) ==>
            && result.Ok? && (after.processed, after.outbox) == (e.processed, e.outbox)
            && after.actions == e.actions[actionId := e.actions[actionId].(status := if approved then APPROVED else REJECTED)]
            && result.value.stage == (if approved then CONTACT else s.stage)
            && result.value == s.(stage := result.value.stage, status := if approved then RUNNING else BLOCKED, pending := None,
                                  checkpointNo := s.checkpointNo + 1))
  {
  }

  /** The number of a run's checkpoint gives its stage: three up to the gate, two at it, and one for each later stage. */
  predicate InStep(s: RunState) {
    && s.checkpointNo >= 1
    && (s.checkpointNo == 1 <==> s.stage == QUALIFY)
    && (s.checkpointNo == 2 <==> s.stage == PREPARE)
    && (s.checkpointNo == 3 <==> s.stage == APPROVE && s.status == RUNNING)
    && (s.checkpointNo == 4 <==> s.status == WAITING_HUMAN)
    && (s.checkpointNo == 5 <==> s.stage == CONTACT || s.status == BLOCKED)
    && (s.checkpointNo == 6 <==> s.stage == CONVERSE)
    && (s.checkpointNo == 7 <==> s.stage == HANDOFF)
    && (s.checkpointNo >= 8 <==> s.stage == CLOSE)
    && (s.status != RUNNING ==> s.stage == APPROVE)
    && (s.pending.Some? <==> s.status == WAITING_HUMAN)
  }

  predicate RowInStep(row: Checkpoint) {
    FromPayload(row.body).Some? ==> InStep(FromPayload(row.body).value)
  }

  ghost predicate RowsInStep(e: Engine) {
    forall r, i :: r in e.checkpoints && 0 <= i < |e.checkpoints[r]| ==> RowInStep(e.checkpoints[r][i])
  }

  ghost predicate AllInStep(x: Session) {
    RowsInStep(x.engine) && "" !in x.engine.actions && forall r :: r in x.held ==> InStep(x.held[r])
  }

  /** Decisions that go through are made for runs that wait, and action ids are not empty. */
  predicate InTurn(x: Session, op: Op) {
    match op
    case DoTransition(_, _, _, actionId, _) => actionId != ""
    case DoDecide(runId, actionId, approved, subjectHash) =>
      runId in x.held && (Decide(x.engine, x.held[runId], actionId, approved, subjectHash).1.Ok? ==>
                            x.held[runId].status == WAITING_HUMAN)
    case _ => true
  }

  predicate AllInTurn(x: Session, ops: seq<Op>)
    requires IsRun(x, ops)
    decreases |ops|
  {
    ops == [] || (InTurn(x, ops[0]) && AllInTurn(Step(x, ops[0]), ops[1..]))
  }

  lemma {:induction false} SaveInStep(e: Engine, s: RunState)
    requires RowsInStep(e) && InStep(Numbered(s))
    ensures RowsInStep(Save(e, s).0)
  {
    PayloadRoundTrip(Numbered(s), ToPayload(Numbered(s)));
    var after := Save(e, s).0;
    forall r, i | r in after.checkpoints && 0 <= i < |after.checkpoints[r]|
      ensures RowInStep(after.checkpoints[r][i])
    {
      if r == s.runId && i < |Rows(e, r)| {
        assert RowInStep(e.checkpoints[r][i]);
      }
    }
  }

  lemma {:induction false} TransitionInStep(x: Session, runId: string, event: string, subjectHash: Option<string>, actionId: string, now: real)
    requires AllInStep(x) && runId in x.held && actionId != ""
    ensures AllInStep(Keep(x, runId, Transition(x.engine, x.held[runId], event, subjectHash, actionId, now)))
  {
    var e, s := x.engine, x.held[runId];
    if event !in e.processed && s.status == RUNNING {
      var seen := e.(processed := e.processed + {event});
      if s.stage == APPROVE {
        var gated := seen.(actions := e.actions[actionId := Action(PENDING, subjectHash, now + ACTION_LIFETIME)]);
        SaveInStep(gated, s.(status := WAITING_HUMAN, pending := Some(actionId), lastEvent := Some(event)));
      } else {
        SaveInStep(seen, s.(stage := NextStage(s.stage), lastEvent := Some(event)));
      }
    }
  }

  lemma {:induction false} DecideInStep(x: Session, runId: string, actionId: string, approved: bool, subjectHash: string)
    requires AllInStep(x) && InTurn(x, DoDecide(runId, actionId, approved, subjectHash))
    ensures AllInStep(Keep(x, runId, Decide(x.engine, x.held[runId], actionId, approved, subjectHash)))
  {
    var e, s := x.engine, x.held[runId];
    if Decide(e, s, actionId, approved, subjectHash).1.Ok? {
      var verdict := if approved then APPROVED else REJECTED;
      var closed := e.(actions := e.actions[actionId := e.actions[actionId].(status := verdict)]);
      SaveInStep(closed, if approved then s.(status := RUNNING, stage := CONTACT, pending := None)
                         else s.(status := BLOCKED, pending := None));
    }
  }

  lemma {:induction false} ExpireInStep(x: Session, order: seq<string>, now: real)
    requires AllInStep(x) && forall r :: r in order ==> r in x.held
    ensures var (e, held) := Expire(x.engine, x.held, order, now); AllInStep(Session(e, held))
    decreases |order|
  {
    if order != [] {
      var rest, r := order[..|order| - 1], order[|order| - 1];
      ExpireInStep(x, rest, now);
      var (e, held) := Expire(x.engine, x.held, rest, now);
      var s := x.held[r];
      if Overdue(e, s, now) {
        var id := PendingId(s);
        SaveInStep(e.(actions := e.actions[id := e.actions[id].(status := EXPIRED)]), s.(status := BLOCKED, pending := None));
      }
    }
  }

  lemma {:induction false} RestoreInStep(x: Session, runId: string, upTo: nat)
    requires AllInStep(x) && runId in x.engine.checkpoints && 1 <= upTo <= |x.engine.checkpoints[runId]|
    ensures AllInStep(Keep(x, runId, Restore(x.engine, x.engine.checkpoints[runId][..upTo])))
  {
    var cs := x.engine.checkpoints[runId];
    assert forall i :: 0 <= i < upTo ==> cs[..upTo][i] == cs[i];
    assert RowInStep(cs[upTo - 1]);
  }

  lemma {:induction false} StepInStep(x: Session, op: Op)
    requires AllInStep(x) && Enabled(x, op) && InTurn(x, op)
    ensures AllInStep(Step(x, op))
  {
    match op
    case DoStart(tenant, campaign, contact, runId) => SaveInStep(x.engine, Initial(tenant, runId, campaign, contact));
    case DoTransition(runId, event, subjectHash, actionId, now) =>
      TransitionInStep(x, runId, event, subjectHash, actionId, now);
    case DoDecide(runId, actionId, approved, subjectHash) => DecideInStep(x, runId, actionId, approved, subjectHash);
    case DoExpire(order, now) => ExpireInStep(x, order, now);
    case DoRestore(runId, upTo) => RestoreInStep(x, runId, upTo);
    case DoEnqueue(runId, effect, key) =>
    case DoCancel(runId, reason) =>
  }

  /**
   The engine does not ask whose an action is. A decision keeps a run in step exactly when it
   is refused or the run waits: approving any open action in the name of a run that does not
   wait takes that run to CONTACT, past the gate.
   */
  lemma {:induction false} DecisionKeepsStepExactly(x: Session, runId: string, actionId: string, approved: bool, subjectHash: string)
    requires AllInStep(x) && runId in x.held
    ensures var (s, result) := (x.held[runId], Decide(x.engine, x.held[runId], actionId, approved, subjectHash).1);
      && (result.Ok? ==> (InStep(result.value) <==> s.status == WAITING_HUMAN))
      && (result.Ok? && approved ==> result.value.stage == CONTACT && result.value.status == RUNNING)
  {
  }

  /**
   After any calls in which decisions that go through are for waiting runs, expiry passes and
   restores to earlier points among them, the checkpoint number of every run gives its stage:
   two transitions to APPROVE, one that opens the action, the decision or expiry, and after an
   approval three more to CLOSE.
   */
  lemma {:induction false} StageFollowsNumber(x: Session, ops: seq<Op>)
    requires AllInStep(x) && IsRun(x, ops) && AllInTurn(x, ops)
    ensures AllInStep(After(x, ops))
    decreases |ops|
  {
    if ops != [] {
      StepInStep(x, ops[0]);
      StageFollowsNumber(Step(x, ops[0]), ops[1..]);
    }
  }

  lemma {:induction false} StageFollowsNumberFromStart(ops: seq<Op>, runId: string)
    requires var x := Session(EMPTY_ENGINE, map[]); IsRun(x, ops) && AllInTurn(x, ops) && runId in After(x, ops).held
    ensures InStep(After(Session(EMPTY_ENGINE, map[]), ops).held[runId])
  {
    StageFollowsNumber(Session(EMPTY_ENGINE, map[]), ops);
  }

  // ---------------------------------------------------------------- engine

  /** `WorkflowEngine` on its own dictionaries. */
  class WorkflowEngine {
    var checkpoints: map<string, seq<Checkpoint>>
    var outbox: map<string, Item>
    var processed: set<string>
    var actions: map<string, Action>

    function Value(): Engine
      reads this
    {
      Engine(checkpoints, outbox, processed, actions)
    }

    constructor ()
      ensures Value() == EMPTY_ENGINE
    {
      checkpoints, outbox, processed, actions := map[], map[], {}, map[];
    }

    method WriteCheckpoint(state: RunState) returns (saved: RunState)
      modifies this`checkpoints
      ensures (Value(), saved) == Save(old(Value()), state)
    {
      saved := state.(checkpointNo := state.checkpointNo + 1);
      if state.runId !in checkpoints {
        checkpoints := checkpoints[state.runId := []];
      }
      checkpoints := checkpoints[state.runId := checkpoints[state.runId] + [Checkpoint(ToPayload(saved), Sha256(ToPayload(saved)))]];
      assert checkpoints == Save(old(Value()), state).0.checkpoints;
    }

    method DoTransition(state: RunState, event: string, subjectHash: Option<string>, actionId: string, now: real)
      returns (r: Result<RunState, Error>)
      modifies this
      ensures (Value(), r) == Transition(old(Value()), state, event, subjectHash, actionId, now)
    {
      if event in processed {
        return Ok(state);
      }
      if state.status != RUNNING {
        return Err(RunNotActive);
      }
      processed := processed + {event};
      var next;
      if state.stage == APPROVE {
        actions := actions[actionId := Action(PENDING, subjectHash, now + ACTION_LIFETIME)];
        next := state.(status := WAITING_HUMAN, pending := Some(actionId), lastEvent := Some(event));
      } else {
        next := state.(stage := NextStage(state.stage), lastEvent := Some(event));
      }
      var saved := WriteCheckpoint(next);
      r := Ok(saved);
    }

    method DoDecide(state: RunState, actionId: string, approved: bool, subjectHash: string)
      returns (r: Result<RunState, Error>)
      modifies this
      ensures (Value(), r) == Decide(old(Value()), state, actionId, approved, subjectHash)
    {
      if actionId !in actions || actions[actionId].status != PENDING {
        return Err(ActionNotPending);
      }
      if actions[actionId].subjectHash != Some(subjectHash) {
        return Err(HashMismatch);
      }
      actions := actions[actionId := actions[actionId].(status := if approved then APPROVED else REJECTED)];
      var saved;
      if !approved {
        saved := WriteCheckpoint(state.(status := BLOCKED, pending := None));
      } else {
        saved := WriteCheckpoint(state.(status := RUNNING, stage := CONTACT, pending := None));
      }
      r := Ok(saved);
    }

    /** `order` is the insertion order of the caller's dictionary; the states read are those before the pass. */
    method DoExpire(states: map<string, RunState>, order: seq<string>, now: real)
      returns (updated: map<string, RunState>, changed: seq<RunState>)
      requires Distinct(order) && forall r :: r in order ==> r in states
      modifies this
      ensures (Value(), updated) == Expire(old(Value()), states, order, now)
      ensures BlockedExactly(old(Value()), states, order, now, updated)
      ensures changed == AllBlocked(old(Value()), states, order, now)
    {
      updated, changed := states, [];
      for i := 0 to |order|
        invariant (Value(), updated) == Expire(old(Value()), states, order[..i], now)
        invariant changed == AllBlocked(old(Value()), states, order[..i], now)
      {
        assert order[..i + 1][..i] == order[..i];
        ExpireActions(old(Value()), states, order[..i], now, PendingId(states[order[i]]));
        var state := states[order[i]];
        var id := if state.pending.Some? then state.pending.value else "";
        if id in actions && actions[id].status == PENDING && actions[id].expires <= now {
          actions := actions[id := actions[id].(status := EXPIRED)];
          var saved := WriteCheckpoint(state.(status := BLOCKED, pending := None));
          updated := updated[order[i] := saved];
          changed := changed + [saved];
        }
      }
      assert order[..|order|] == order;
      ExpireBlocksExactly(old(Value()), states, order, now);
    }

    method DoCancel(runId: string, reason: string) returns (count: nat)
      modifies this`outbox
      ensures (Value(), count) == Cancel(old(Value()), runId, reason)
    {
      count := 0;
      var before, left := outbox, outbox.Keys;
      ghost var done: set<string> := {};
      while left != {}
        invariant left <= before.Keys == outbox.Keys
        invariant forall k :: k in done <==> k in before && k !in left && Cancellable(before[k], runId)
        invariant forall k :: k in before ==>
          outbox[k] == if k in done then before[k].(cancelReason := Some(reason)) else before[k]
        invariant count == |done|
      {
        var k :| k in left;
        if outbox[k].runId == runId && outbox[k].cancelReason.None? {
          outbox := outbox[k := outbox[k].(cancelReason := Some(reason))];
          count := count + 1;
          done := done + {k};
        }
        left := left - {k};
      }
      assert done == set k | k in before && Cancellable(before[k], runId);
      assert outbox == Cancel(old(Value()), runId, reason).0.outbox;
    }

    method DoEnqueue(state: RunState, effect: string, key: string) returns (item: Item)
      modifies this`outbox
      ensures (Value(), item) == Enqueue(old(Value()), state, effect, key)
    {
      if key in outbox {
        return outbox[key];
      }
      item := Item(state.tenant, state.runId, effect, None);
      outbox := outbox[key := item];
    }

    method DoRestore(cs: seq<Checkpoint>) returns (r: Result<RunState, Error>)
      modifies this`checkpoints
      ensures (Value(), r) == Restore(old(Value()), cs)
    {
      if cs == [] {
        return Err(CheckpointsRequired);
      }
      var previous := 0;
      for i := 0 to |cs|
        invariant CheckUpTo(cs, i) == None
        invariant previous == if i == 0 then 0 else cs[i - 1].body.checkpointNo
      {
        var c := cs[i];
        var error := None;
        if c.stateHash != Sha256(c.body) {
          error := Some(CheckpointHashInvalid);
        } else if c.body.checkpointNo != previous + 1 {
          error := Some(SequenceInvalid);
        } else if c.body.workflowVersion != WORKFLOW_VERSION {
          error := Some(VersionUnavailable);
        }
        assert error == CheckUpTo(cs, i + 1);
        if error.Some? {
          CheckFailsForGood(cs, i + 1);
          return Err(error.value);
        }
        previous := c.body.checkpointNo;
      }
      var state := FromPayload(cs[|cs| - 1].body);
      if state.None? {
        return Err(StageUnknown);
      }
      checkpoints := checkpoints[state.value.runId := cs];
      r := Ok(state.value);
    }
  }

  lemma {:induction false} CheckFailsForGood(cs: seq<Checkpoint>, i: nat)
    requires i <= |cs| && CheckUpTo(cs, i).Some?
    ensures CheckUpTo(cs, |cs|) == CheckUpTo(cs, i)
    decreases |cs| - i
  {
    if i < |cs| {
      CheckFailsForGood(cs, i + 1);
    }
  }
}
