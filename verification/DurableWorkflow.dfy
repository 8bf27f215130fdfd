/**
 The PostgreSQL workflow repository of services/orchestrator/app/postgres_workflow.py.

 Each public method of the repository is one transaction, given as a function from
 the tables to the tables and a result; an error rolls every statement back.
 */
module DurableWorkflow {
  import opened Common
  import opened Workflow

  datatype ActionStatus = PENDING | APPROVED | REJECTED | EXPIRED

  datatype HumanAction = HumanAction(tenant: string, runId: string, subjectHash: string, status: ActionStatus, expires: real)

  datatype GraphRun = GraphRun(tenant: string, campaign: string, contact: string, stage: Stage, status: Status, version: nat)

  datatype Db = Db(
    runs: map<string, GraphRun>,
    checkpoints: map<string, seq<Checkpoint>>,
    events: set<(string, string, string)>,
    actions: map<string, HumanAction>)

  datatype Error =
    | TenantRequired | RunNotFound | CheckpointHashInvalid | StageUnknown | RunNotActive
    | SubjectHashRequired | ActionNotPending | HashMismatch | ConstraintViolation

  const EMPTY_DB := Db(map[], map[], {}, map[])
  const ACTION_LIFETIME := 86400.0
  const SUBJECT_HASH_LENGTH := 64

  // ----------------------------------------------------------- transactions

  /** `ORDER BY checkpoint_no DESC LIMIT 1` over the rows of one tenant. */
  function Latest(rows: seq<Checkpoint>, tenant: string): Option<Checkpoint> {
    if rows == [] then None
    else
      var rest := Latest(rows[..|rows| - 1], tenant);
      var row := rows[|rows| - 1];
      if row.body.tenant == tenant && (rest.None? || rest.value.body.checkpointNo < row.body.checkpointNo)
      then Some(row) else rest
  }

  function Rows(db: Db, runId: string): seq<Checkpoint> {
    if runId in db.checkpoints then db.checkpoints[runId] else []
  }

  function Locked(db: Db, tenant: string, runId: string): Result<RunState, Error> {
    if tenant == "" then Err(TenantRequired)
    else if runId !in db.runs || db.runs[runId].tenant != tenant then Err(RunNotFound)
    else
      match Latest(Rows(db, runId), tenant)
      case None => Err(RunNotFound)
      case Some(row) =>
        if row.stateHash != Sha256(row.body) then Err(CheckpointHashInvalid)
        else
          match FromPayload(row.body)
          case None => Err(StageUnknown)
          case Some(state) => Ok(state)
  }

  predicate NumberTaken(rows: seq<Checkpoint>, no: nat) {
    exists i :: 0 <= i < |rows| && rows[i].body.checkpointNo == no
  }

  /** Appends the next checkpoint of the run and copies stage and status to its row. */
  function Save(db: Db, state: RunState): Result<(Db, RunState), Error> {
    var saved := Numbered(state);
    var rows := Rows(db, state.runId);
    if NumberTaken(rows, saved.checkpointNo) then Err(ConstraintViolation)
    else
      var runs :=
        if state.runId in db.runs && db.runs[state.runId].tenant == state.tenant then
          var row := db.runs[state.runId];
          db.runs[state.runId := row.(stage := saved.stage, status := saved.status, version := row.version + 1)]
        else db.runs;
      Ok((db.(runs := runs, checkpoints := db.checkpoints[state.runId := rows + [Seal(saved)]]), saved))
  }

  function Commit(db: Db, saved: Result<(Db, RunState), Error>): (Db, Result<RunState, Error>) {
    match saved
    case Err(e) => (db, Err(e))
    case Ok((after, state)) => (after, Ok(state))
  }

  function Start(db: Db, tenant: string, campaign: string, contact: string, runId: string): (Db, Result<RunState, Error>) {
    if tenant == "" then (db, Err(TenantRequired))
    else if runId in db.runs then (db, Err(ConstraintViolation))
    else
      var inserted := db.(runs := db.runs[runId := GraphRun(tenant, campaign, contact, QUALIFY, RUNNING, 1)]);
      Commit(db, Save(inserted, Initial(tenant, runId, campaign, contact)))
  }

  function Transition(db: Db, tenant: string, runId: string, event: string, subjectHash: string,
                      actionId: string, now: real): (Db, Result<RunState, Error>)
  {
    match Locked(db, tenant, runId)
    case Err(e) => (db, Err(e))
    case Ok(state) =>
      if (tenant, runId, event) in db.events then (db, Ok(state))
      else if state.status != RUNNING then (db, Err(RunNotActive))
      else
        var recorded := db.(events := db.events + {(tenant, runId, event)});
        if state.stage == APPROVE then
          if |subjectHash| != SUBJECT_HASH_LENGTH then (db, Err(SubjectHashRequired))
          else if actionId in db.actions then (db, Err(ConstraintViolation))
          else
            var action := HumanAction(tenant, runId, subjectHash, PENDING, now + ACTION_LIFETIME);
            Commit(db, Save(recorded.(actions := db.actions[actionId := action]),
                            state.(status := WAITING_HUMAN, pending := Some(actionId), lastEvent := Some(event))))
        else
          Commit(db, Save(recorded, state.(stage := NextStage(state.stage), lastEvent := Some(event))))
  }

  function Decide(db: Db, tenant: string, runId: string, actionId: string, approved: bool, subjectHash: string,
                  now: real): (Db, Result<RunState, Error>)
  {
    match Locked(db, tenant, runId)
    case Err(e) => (db, Err(e))
    case Ok(state) =>
      if actionId !in db.actions || db.actions[actionId].tenant != tenant || db.actions[actionId].runId != runId
         || db.actions[actionId].status != PENDING
      then (db, Err(ActionNotPending))
      else
        var action := db.actions[actionId];
        if action.expires <= now then
          Commit(db, Save(db.(actions := db.actions[actionId := action.(status := EXPIRED)]),
                          state.(status := BLOCKED, pending := None)))
        else if action.subjectHash != subjectHash then (db, Err(HashMismatch))
        else if approved then
          Commit(db, Save(db.(actions := db.actions[actionId := action.(status := APPROVED)]),
                          state.(status := RUNNING, stage := CONTACT, pending := None)))
        else
          Commit(db, Save(db.(actions := db.actions[actionId := action.(status := REJECTED)]),
                          state.(status := BLOCKED, pending := None)))
  }

  // -------------------------------------------------------------- invariant

  function EventsOf(db: Db, runId: string): set<(string, string, string)> {
    set e | e in db.events && e.1 == runId
  }

  function ActionsOf(db: Db, runId: string): map<string, HumanAction> {
    map a | a in db.actions && db.actions[a].runId == runId :: db.actions[a]
  }

  function Closed(acts: map<string, HumanAction>): set<string> {
    set a | a in acts && acts[a].status != PENDING
  }

  /** Checkpoints numbered 1..n, each sealed with the hash of its own loadable body. */
  predicate Chained(rows: seq<Checkpoint>, tenant: string, runId: string) {
    forall i :: 0 <= i < |rows| ==>
      && rows[i].body.checkpointNo == i + 1
      && rows[i].stateHash == Sha256(rows[i].body)
      && rows[i].body.tenant == tenant && rows[i].body.runId == runId
      && FromPayload(rows[i].body).Some?
  }

  function Newest(rows: seq<Checkpoint>): RunState
    requires |rows| > 0 && FromPayload(rows[|rows| - 1].body).Some?
  {
    FromPayload(rows[|rows| - 1].body).value
  }

  /** How the state of a run and its human actions fit together. */
  ghost predicate Gate(s: RunState, acts: map<string, HumanAction>) {
    if Index(s.stage) >= Index(CONTACT) then
      s.status == RUNNING && s.pending == None && exists a :: acts.Keys == {a} && acts[a].status == APPROVED
    else match s.status
      case RUNNING => s.pending == None && acts == map[]
      case WAITING_HUMAN =>
        s.stage == APPROVE && s.pending.Some? && acts.Keys == {s.pending.value} && acts[s.pending.value].status == PENDING
      case BLOCKED =>
        s.stage == APPROVE && s.pending == None
        && exists a :: acts.Keys == {a} && acts[a].status in {REJECTED, EXPIRED}
  }

  /** The number of events a run took gives its stage: three up to the gate, then one for each later stage. */
  predicate Paced(s: RunState, events: nat) {
    if s.status != RUNNING then events == 3
    else if Index(s.stage) < Index(CONTACT) then events == Index(s.stage)
    else events >= 3 && Index(s.stage) == if events < Index(CLOSE) then events else Index(CLOSE)
  }

  /** What holds of one run, given its row, its checkpoints, its number of events and its actions. */
  ghost predicate Good(runId: string, run: GraphRun, rows: seq<Checkpoint>, events: nat, acts: map<string, HumanAction>) {
    && run.tenant != "" && |rows| > 0 && Chained(rows, run.tenant, runId)
    && var s := Newest(rows);
       && run.stage == s.stage && run.status == s.status && run.version == 1 + |rows|
       && |rows| == 1 + events + |Closed(acts)|
       && Gate(s, acts) && Paced(s, events)
  }

  ghost predicate RunOk(db: Db, runId: string)
    requires runId in db.runs && runId in db.checkpoints
  {
    Good(runId, db.runs[runId], db.checkpoints[runId], |EventsOf(db, runId)|, ActionsOf(db, runId))
  }

  ghost predicate Inv(db: Db) {
    && db.runs.Keys == db.checkpoints.Keys
    && (forall e :: e in db.events ==> e.1 in db.runs && db.runs[e.1].tenant == e.0)
    && (forall a :: a in db.actions ==>
          db.actions[a].runId in db.runs && db.runs[db.actions[a].runId].tenant == db.actions[a].tenant)
    && forall r :: r in db.runs ==> RunOk(db, r)
  }

  function Head(db: Db, runId: string): RunState
    requires runId in db.checkpoints && |db.checkpoints[runId]| > 0
    requires FromPayload(db.checkpoints[runId][|db.checkpoints[runId]| - 1].body).Some?
  {
    Newest(db.checkpoints[runId])
  }

  // ------------------------------------------------------------ one run row

  /** The rows of a run with one more state saved on top. */
  function Extend(rows: seq<Checkpoint>, state: RunState): seq<Checkpoint> {
    rows + [Seal(Numbered(state))]
  }

  function Stamped(run: GraphRun, state: RunState): GraphRun {
    run.(stage := state.stage, status := state.status, version := run.version + 1)
  }

  lemma {:induction false} ExtendChains(rows: seq<Checkpoint>, state: RunState)
    requires Chained(rows, state.tenant, state.runId) && state.checkpointNo == |rows|
    ensures Chained(Extend(rows, state), state.tenant, state.runId)
    ensures Newest(Extend(rows, state)) == Numbered(state)
  {
    PayloadRoundTrip(Numbered(state), ToPayload(Numbered(state)));
  }

  lemma {:induction false} NewestBelongs(runId: string, run: GraphRun, rows: seq<Checkpoint>, events: nat, acts: map<string, HumanAction>)
    requires Good(runId, run, rows, events, acts)
    ensures var s := Newest(rows); s.tenant == run.tenant && s.runId == runId && s.checkpointNo == |rows|
  {
    PayloadRoundTrip(Newest(rows), rows[|rows| - 1].body);
  }

  lemma {:induction false} GoodAdvance(runId: string, run: GraphRun, rows: seq<Checkpoint>, events: nat, acts: map<string, HumanAction>,
                    event: string)
    requires Good(runId, run, rows, events, acts)
    requires Newest(rows).status == RUNNING && Newest(rows).stage != APPROVE
    ensures var next := Newest(rows).(stage := NextStage(Newest(rows).stage), lastEvent := Some(event));
      Good(runId, Stamped(run, next), Extend(rows, next), events + 1, acts)
  {
    NewestBelongs(runId, run, rows, events, acts);
    ExtendChains(rows, Newest(rows).(stage := NextStage(Newest(rows).stage), lastEvent := Some(event)));
  }

  lemma {:induction false} GoodOpen(runId: string, run: GraphRun, rows: seq<Checkpoint>, events: nat, acts: map<string, HumanAction>,
                 event: string, actionId: string, action: HumanAction)
    requires Good(runId, run, rows, events, acts) && action.status == PENDING
    requires Newest(rows).status == RUNNING && Newest(rows).stage == APPROVE
    ensures var next := Newest(rows).(status := WAITING_HUMAN, pending := Some(actionId), lastEvent := Some(event));
      Good(runId, Stamped(run, next), Extend(rows, next), events + 1, acts[actionId := action])
  {
    NewestBelongs(runId, run, rows, events, acts);
    ExtendChains(rows, Newest(rows).(status := WAITING_HUMAN, pending := Some(actionId), lastEvent := Some(event)));
    assert Closed(acts[actionId := action]) == Closed(acts) == {};
  }

  /** The state a run is saved in when its pending action ends with `verdict`. */
  function Decided(s: RunState, verdict: ActionStatus): RunState {
    if verdict == APPROVED then s.(status := RUNNING, stage := CONTACT, pending := None)
    else s.(status := BLOCKED, pending := None)
  }

  lemma {:induction false} GoodDecide(runId: string, run: GraphRun, rows: seq<Checkpoint>, events: nat, acts: map<string, HumanAction>,
                   actionId: string, verdict: ActionStatus)
    requires Good(runId, run, rows, events, acts) && verdict != PENDING
    requires actionId in acts && acts[actionId].status == PENDING
    ensures Newest(rows).status == WAITING_HUMAN && Newest(rows).pending == Some(actionId)
    ensures var next := Decided(Newest(rows), verdict);
      Good(runId, Stamped(run, next), Extend(rows, next), events, acts[actionId := acts[actionId].(status := verdict)])
  {
    NewestBelongs(runId, run, rows, events, acts);
    ExtendChains(rows, Decided(Newest(rows), verdict));
    var after := acts[actionId := acts[actionId].(status := verdict)];
    assert acts.Keys == {actionId} == after.Keys;
    assert Closed(acts) == {} && Closed(after) == {actionId};
  }

  // ------------------------------------------------------- one transaction

  lemma {:induction false} LatestIsLast(rows: seq<Checkpoint>, tenant: string, runId: string)
    requires |rows| > 0 && Chained(rows, tenant, runId)
    ensures Latest(rows, tenant) == Some(rows[|rows| - 1])
    decreases |rows|
  {
    var rest := rows[..|rows| - 1];
    if rest != [] {
      LatestIsLast(rest, tenant, runId);
    }
  }

  /** In a good database every read of a run of the tenant succeeds with its newest state. */
  lemma {:induction false} LockedIsHead(db: Db, tenant: string, runId: string)
    requires Inv(db)
    ensures Locked(db, tenant, runId)
         == if tenant == "" then Err(TenantRequired)
            else if runId in db.runs && db.runs[runId].tenant == tenant then Ok(Head(db, runId))
            else Err(RunNotFound)
  {
    if runId in db.runs && db.runs[runId].tenant == tenant {
      assert RunOk(db, runId);
      LatestIsLast(db.checkpoints[runId], tenant, runId);
    }
  }

  /** The row of the tenant with the highest number, the first of those with it. */
  predicate NewestAt(rows: seq<Checkpoint>, tenant: string, i: nat) {
    && i < |rows| && rows[i].body.tenant == tenant
    && (forall j :: 0 <= j < |rows| && rows[j].body.tenant == tenant ==> rows[j].body.checkpointNo <= rows[i].body.checkpointNo)
    && (forall j :: 0 <= j < i && rows[j].body.tenant == tenant ==> rows[j].body.checkpointNo < rows[i].body.checkpointNo)
  }

  lemma {:induction false} LatestIsNewest(rows: seq<Checkpoint>, tenant: string, i: nat)
    requires NewestAt(rows, tenant, i)
    ensures Latest(rows, tenant) == Some(rows[i])
    decreases |rows|
  {
    var rest, last := rows[..|rows| - 1], rows[|rows| - 1];
    if i < |rest| {
      assert forall j :: 0 <= j < |rest| ==> rest[j] == rows[j];
      LatestIsNewest(rest, tenant, i);
    } else if Latest(rest, tenant).Some? {
      LatestIsRow(rest, tenant);
      var j :| 0 <= j < |rest| && rest[j] == Latest(rest, tenant).value && rest[j].body.tenant == tenant;
      assert rows[j] == rest[j];
    }
  }

  lemma {:induction false} LatestIsRow(rows: seq<Checkpoint>, tenant: string)
    requires Latest(rows, tenant).Some?
    ensures exists j :: 0 <= j < |rows| && rows[j] == Latest(rows, tenant).value && rows[j].body.tenant == tenant
    decreases |rows|
  {
    var rest, last := rows[..|rows| - 1], rows[|rows| - 1];
    if Latest(rest, tenant).Some? {
      LatestIsRow(rest, tenant);
      var j :| 0 <= j < |rest| && rest[j] == Latest(rest, tenant).value && rest[j].body.tenant == tenant;
      assert rows[j] == rest[j];
    }
  }

  /**
   In any database, also one the repository did not write: when the newest checkpoint of a run
   does not carry its own hash, or names no stage, every event and decision for the run is
   refused for that and changes nothing.
   */
  lemma {:induction false} TamperedIsRefused(db: Db, tenant: string, runId: string, i: nat, event: string, subjectHash: string,
                          actionId: string, approved: bool, now: real)
    requires tenant != "" && runId in db.runs && db.runs[runId].tenant == tenant && runId in db.checkpoints
    requires NewestAt(db.checkpoints[runId], tenant, i)
    requires var row := db.checkpoints[runId][i]; row.stateHash != Sha256(row.body) || row.body.stage.Unknown?
    ensures var row := db.checkpoints[runId][i];
      var error := if row.stateHash != Sha256(row.body) then CheckpointHashInvalid else StageUnknown;
      && Transition(db, tenant, runId, event, subjectHash, actionId, now) == (db, Err(error))
      && Decide(db, tenant, runId, actionId, approved, subjectHash, now) == (db, Err(error))
  {
    LatestIsNewest(db.checkpoints[runId], tenant, i);
  }

  /** Saving on top of a chain never collides, and writes exactly one row and the run's stamp. */
  lemma {:induction false} SaveSucceeds(db: Db, state: RunState)
    requires state.runId in db.runs && db.runs[state.runId].tenant == state.tenant
    requires Chained(Rows(db, state.runId), state.tenant, state.runId)
    requires state.checkpointNo == |Rows(db, state.runId)|
    ensures Save(db, state) == Ok((
      db.(runs := db.runs[state.runId := Stamped(db.runs[state.runId], state)],
          checkpoints := db.checkpoints[state.runId := Extend(Rows(db, state.runId), state)]),
      Numbered(state)))
  {
  }

  lemma {:induction false} EventCounted(db: Db, after: Db, tenant: string, runId: string, event: string)
    requires (tenant, runId, event) !in db.events && after.events == db.events + {(tenant, runId, event)}
    ensures |EventsOf(after, runId)| == |EventsOf(db, runId)| + 1
    ensures forall r :: r != runId ==> EventsOf(after, r) == EventsOf(db, r)
  {
    assert EventsOf(after, runId) == EventsOf(db, runId) + {(tenant, runId, event)};
  }

  lemma {:induction false} ActionWritten(db: Db, after: Db, runId: string, actionId: string, action: HumanAction)
    requires after.actions == db.actions[actionId := action] && action.runId == runId
    requires actionId in db.actions ==> db.actions[actionId].runId == runId
    ensures ActionsOf(after, runId) == ActionsOf(db, runId)[actionId := action]
    ensures forall r :: r != runId ==> ActionsOf(after, r) == ActionsOf(db, r)
  {
  }

  /** The run's events and actions are the same in both databases. */
  predicate Untouched(db: Db, after: Db, runId: string) {
    EventsOf(after, runId) == EventsOf(db, runId) && ActionsOf(after, runId) == ActionsOf(db, runId)
  }

  lemma {:induction false} UntouchedRunOk(db: Db, after: Db, runId: string)
    requires runId in db.runs && runId in db.checkpoints && RunOk(db, runId)
    requires runId in after.runs && runId in after.checkpoints && Untouched(db, after, runId)
    requires after.runs[runId] == db.runs[runId] && after.checkpoints[runId] == db.checkpoints[runId]
    ensures RunOk(after, runId)
  {
  }

  /** Only run, checkpoint and action rows of one run, and events of that run, were written. */
  ghost predicate WroteOnly(db: Db, after: Db, runId: string) {
    && runId in after.runs && runId in after.checkpoints
    && (runId in db.runs ==> after.runs[runId].tenant == db.runs[runId].tenant)
    && after.runs == db.runs[runId := after.runs[runId]]
    && after.checkpoints == db.checkpoints[runId := after.checkpoints[runId]]
    && (forall r :: r != runId ==> Untouched(db, after, r))
    && (forall e :: e in after.events && e !in db.events ==> e.1 == runId && e.0 == after.runs[runId].tenant)
    && (forall a :: a in after.actions && !(a in db.actions && db.actions[a] == after.actions[a]) ==>
          after.actions[a].runId == runId && after.actions[a].tenant == after.runs[runId].tenant)
  }

  lemma {:induction false} EventBelongs(db: Db, after: Db, runId: string, e: (string, string, string))
    requires Inv(db) && WroteOnly(db, after, runId) && e in after.events
    ensures e.1 in after.runs && after.runs[e.1].tenant == e.0
  {
  }

  lemma {:induction false} ActionBelongs(db: Db, after: Db, runId: string, a: string)
    requires Inv(db) && WroteOnly(db, after, runId) && a in after.actions
    ensures after.actions[a].runId in after.runs && after.runs[after.actions[a].runId].tenant == after.actions[a].tenant
  {
  }

  lemma {:induction false} RunStaysOk(db: Db, after: Db, runId: string, r: string)
    requires Inv(db) && WroteOnly(db, after, runId) && r in after.runs && r != runId
    ensures r in after.checkpoints && RunOk(after, r)
  {
    assert RunOk(db, r);
    assert Untouched(db, after, r);
    UntouchedRunOk(db, after, r);
  }

  /** Runs other than the one written keep their rows, events and actions, so stay good. */
  lemma {:induction false} InvRestored(db: Db, after: Db, runId: string)
    requires Inv(db) && WroteOnly(db, after, runId) && RunOk(after, runId)
    ensures Inv(after)
  {
    forall e | e in after.events
      ensures e.1 in after.runs && after.runs[e.1].tenant == e.0
    {
      EventBelongs(db, after, runId, e);
    }
    forall a | a in after.actions
      ensures after.actions[a].runId in after.runs && after.runs[after.actions[a].runId].tenant == after.actions[a].tenant
    {
      ActionBelongs(db, after, runId, a);
    }
    forall r | r in after.runs
      ensures r in after.checkpoints && RunOk(after, r)
    {
      if r != runId {
        RunStaysOk(db, after, runId, r);
      }
    }
  }

  function AfterStart(db: Db, run: GraphRun, first: RunState): Db {
    db.(runs := db.runs[first.runId := Stamped(run, first)],
        checkpoints := db.checkpoints[first.runId := [Seal(Numbered(first))]])
  }

  lemma {:induction false} FirstSave(db: Db, run: GraphRun, first: RunState)
    requires first.runId !in db.checkpoints && first.tenant == run.tenant && first.checkpointNo == 0
    ensures Save(db.(runs := db.runs[first.runId := run]), first) == Ok((AfterStart(db, run, first), Numbered(first)))
  {
    var inserted := db.(runs := db.runs[first.runId := run]);
    assert Rows(inserted, first.runId) == [];
    SaveSucceeds(inserted, first);
    assert inserted.runs[first.runId := Stamped(run, first)] == db.runs[first.runId := Stamped(run, first)];
    assert Extend([], first) == [Seal(Numbered(first))];
  }

  lemma {:induction false} StartWrites(db: Db, tenant: string, campaign: string, contact: string, runId: string)
    requires Inv(db) && tenant != "" && runId !in db.runs
    ensures var first := Initial(tenant, runId, campaign, contact);
      Start(db, tenant, campaign, contact, runId)
        == (AfterStart(db, GraphRun(tenant, campaign, contact, QUALIFY, RUNNING, 1), first), Ok(Numbered(first)))
  {
    assert runId !in db.checkpoints;
    FirstSave(db, GraphRun(tenant, campaign, contact, QUALIFY, RUNNING, 1), Initial(tenant, runId, campaign, contact));
  }

  lemma {:induction false} FirstIsGood(tenant: string, campaign: string, contact: string, runId: string)
    requires tenant != ""
    ensures var first := Initial(tenant, runId, campaign, contact);
      Good(runId, Stamped(GraphRun(tenant, campaign, contact, QUALIFY, RUNNING, 1), first), [Seal(Numbered(first))], 0, map[])
  {
    var first := Initial(tenant, runId, campaign, contact);
    ExtendChains([], first);
    assert Extend([], first) == [Seal(Numbered(first))];
    assert Closed(map[]) == {};
  }

  /** A run nobody knows yet has no events and no actions. */
  lemma {:induction false} UnknownRunIsBare(db: Db, runId: string)
    requires Inv(db) && runId !in db.runs
    ensures EventsOf(db, runId) == {} && ActionsOf(db, runId) == map[]
  {
  }

  lemma {:induction false} StartKeeps(db: Db, tenant: string, campaign: string, contact: string, runId: string)
    requires Inv(db) && tenant != "" && runId !in db.runs
    ensures Inv(AfterStart(db, GraphRun(tenant, campaign, contact, QUALIFY, RUNNING, 1),
                           Initial(tenant, runId, campaign, contact)))
  {
    var run := GraphRun(tenant, campaign, contact, QUALIFY, RUNNING, 1);
    var after := AfterStart(db, run, Initial(tenant, runId, campaign, contact));
    FirstIsGood(tenant, campaign, contact, runId);
    UnknownRunIsBare(db, runId);
    assert forall r :: Untouched(db, after, r);
    assert RunOk(after, runId);
    InvRestored(db, after, runId);
  }

  /** A new event on an active run is accepted; nothing else writes anything. */
  predicate Accepts(db: Db, tenant: string, runId: string, event: string, subjectHash: string, actionId: string) {
    && runId in db.runs && db.runs[runId].tenant == tenant && tenant != ""
    && (tenant, runId, event) !in db.events
    && db.runs[runId].status == RUNNING
    && (db.runs[runId].stage == APPROVE ==> |subjectHash| == SUBJECT_HASH_LENGTH && actionId !in db.actions)
  }

  /** The tables after an accepted event, in one expression. */
  function AfterEvent(db: Db, runId: string, event: string, next: RunState, actions: map<string, HumanAction>): Db
    requires runId in db.runs && runId in db.checkpoints
  {
    Db(db.runs[runId := Stamped(db.runs[runId], next)],
       db.checkpoints[runId := Extend(db.checkpoints[runId], next)],
       db.events + {(db.runs[runId].tenant, runId, event)},
       actions)
  }

  function Advanced(s: RunState, event: string): RunState {
    s.(stage := NextStage(s.stage), lastEvent := Some(event))
  }

  function Waiting(s: RunState, event: string, actionId: string): RunState {
    s.(status := WAITING_HUMAN, pending := Some(actionId), lastEvent := Some(event))
  }

  /** What an accepted event writes: one numbered checkpoint, the event, and at APPROVE one pending action. */
  lemma {:induction false} AcceptedEvent(db: Db, tenant: string, runId: string, event: string, subjectHash: string,
                      actionId: string, now: real)
    requires Inv(db) && Accepts(db, tenant, runId, event, subjectHash, actionId)
    ensures RunOk(db, runId)
    ensures var head := Head(db, runId);
      && Transition(db, tenant, runId, event, subjectHash, actionId, now)
         == if head.stage == APPROVE then
              var action := HumanAction(tenant, runId, subjectHash, PENDING, now + ACTION_LIFETIME);
              (AfterEvent(db, runId, event, Waiting(head, event, actionId), db.actions[actionId := action]),
               Ok(Numbered(Waiting(head, event, actionId))))
            else (AfterEvent(db, runId, event, Advanced(head, event), db.actions), Ok(Numbered(Advanced(head, event))))
  {
    assert RunOk(db, runId);
    LockedIsHead(db, tenant, runId);
    NewestBelongs(runId, db.runs[runId], db.checkpoints[runId], |EventsOf(db, runId)|, ActionsOf(db, runId));
    var head := Head(db, runId);
    var recorded := db.(events := db.events + {(tenant, runId, event)});
    if head.stage == APPROVE {
      var action := HumanAction(tenant, runId, subjectHash, PENDING, now + ACTION_LIFETIME);
      SaveSucceeds(recorded.(actions := db.actions[actionId := action]), Waiting(head, event, actionId));
    } else {
      SaveSucceeds(recorded, Advanced(head, event));
    }
  }

  lemma {:induction false} AdvanceKeeps(db: Db, runId: string, event: string)
    requires Inv(db) && runId in db.runs && (db.runs[runId].tenant, runId, event) !in db.events
    requires RunOk(db, runId) && Head(db, runId).status == RUNNING && Head(db, runId).stage != APPROVE
    ensures Inv(AfterEvent(db, runId, event, Advanced(Head(db, runId), event), db.actions))
  {
    var after := AfterEvent(db, runId, event, Advanced(Head(db, runId), event), db.actions);
    GoodAdvance(runId, db.runs[runId], db.checkpoints[runId], |EventsOf(db, runId)|, ActionsOf(db, runId), event);
    EventCounted(db, after, db.runs[runId].tenant, runId, event);
    assert RunOk(after, runId) by {
      assert ActionsOf(after, runId) == ActionsOf(db, runId);
    }
    assert forall r :: ActionsOf(after, r) == ActionsOf(db, r);
    InvRestored(db, after, runId);
  }

  lemma {:induction false} OpenKeeps(db: Db, runId: string, event: string, actionId: string, action: HumanAction)
    requires Inv(db) && runId in db.runs && (db.runs[runId].tenant, runId, event) !in db.events
    requires RunOk(db, runId) && Head(db, runId).status == RUNNING && Head(db, runId).stage == APPROVE
    requires actionId !in db.actions && action.status == PENDING
    requires action.runId == runId && action.tenant == db.runs[runId].tenant
    ensures Inv(AfterEvent(db, runId, event, Waiting(Head(db, runId), event, actionId), db.actions[actionId := action]))
  {
    var after := AfterEvent(db, runId, event, Waiting(Head(db, runId), event, actionId), db.actions[actionId := action]);
    GoodOpen(runId, db.runs[runId], db.checkpoints[runId], |EventsOf(db, runId)|, ActionsOf(db, runId), event, actionId, action);
    EventCounted(db, after, db.runs[runId].tenant, runId, event);
    ActionWritten(db, after, runId, actionId, action);
    assert RunOk(after, runId);
    InvRestored(db, after, runId);
  }

  /** Events that are not accepted change no table: duplicates answer with the newest state, the rest fail. */
  lemma {:induction false} RefusedEventChangesNothing(db: Db, tenant: string, runId: string, event: string, subjectHash: string,
                                   actionId: string, now: real)
    requires Inv(db) && !Accepts(db, tenant, runId, event, subjectHash, actionId)
    ensures var (after, result) := Transition(db, tenant, runId, event, subjectHash, actionId, now);
      && after == db
      && (result.Ok? <==> (tenant, runId, event) in db.events && tenant != "")
      && (result.Ok? ==> RunOk(db, runId) && result.value == Head(db, runId))
      && (result.Err? ==>
            result.error == if tenant == "" then TenantRequired
                            else if runId !in db.runs || db.runs[runId].tenant != tenant then RunNotFound
                            else if db.runs[runId].status != RUNNING then RunNotActive
                            else if |subjectHash| != 64 then SubjectHashRequired
                            else ConstraintViolation)
  {
    LockedIsHead(db, tenant, runId);
    if runId in db.runs {
      assert RunOk(db, runId);
    }
  }

  /** The status an own, pending action of the run ends in, when a decision goes through. */
  function Verdict(action: HumanAction, approved: bool, now: real): ActionStatus {
    if action.expires <= now then EXPIRED else if approved then APPROVED else REJECTED
  }

  predicate Decidable(db: Db, tenant: string, runId: string, actionId: string, subjectHash: string, now: real) {
    && tenant != "" && runId in db.runs && db.runs[runId].tenant == tenant
    && actionId in db.actions && db.actions[actionId].runId == runId && db.actions[actionId].status == PENDING
    && (db.actions[actionId].expires > now ==> db.actions[actionId].subjectHash == subjectHash)
  }

  function AfterDecision(db: Db, runId: string, actionId: string, verdict: ActionStatus, next: RunState): Db
    requires runId in db.runs && runId in db.checkpoints && actionId in db.actions
  {
    Db(db.runs[runId := Stamped(db.runs[runId], next)],
       db.checkpoints[runId := Extend(db.checkpoints[runId], next)],
       db.events, db.actions[actionId := db.actions[actionId].(status := verdict)])
  }

  /** A decision that goes through closes the run's own recorded action and writes one checkpoint. */
  lemma {:induction false} AcceptedDecision(db: Db, tenant: string, runId: string, actionId: string, approved: bool,
                         subjectHash: string, now: real)
    requires Inv(db) && Decidable(db, tenant, runId, actionId, subjectHash, now)
    ensures RunOk(db, runId)
    ensures Head(db, runId).status == WAITING_HUMAN && Head(db, runId).pending == Some(actionId)
    ensures var verdict := Verdict(db.actions[actionId], approved, now);
      var next := Decided(Head(db, runId), verdict);
      Decide(db, tenant, runId, actionId, approved, subjectHash, now)
        == (AfterDecision(db, runId, actionId, verdict, next), Ok(Numbered(next)))
  {
    assert RunOk(db, runId);
    LockedIsHead(db, tenant, runId);
    var acts := ActionsOf(db, runId);
    assert actionId in acts;
    NewestBelongs(runId, db.runs[runId], db.checkpoints[runId], |EventsOf(db, runId)|, acts);
    var verdict := Verdict(db.actions[actionId], approved, now);
    GoodDecide(runId, db.runs[runId], db.checkpoints[runId], |EventsOf(db, runId)|, acts, actionId, verdict);
    SaveSucceeds(db.(actions := db.actions[actionId := db.actions[actionId].(status := verdict)]),
                 Decided(Head(db, runId), verdict));
  }

  lemma {:induction false} DecisionKeeps(db: Db, runId: string, actionId: string, verdict: ActionStatus)
    requires Inv(db) && runId in db.runs && RunOk(db, runId) && verdict != PENDING
    requires actionId in db.actions && db.actions[actionId].runId == runId && db.actions[actionId].status == PENDING
    ensures Inv(AfterDecision(db, runId, actionId, verdict, Decided(Head(db, runId), verdict)))
  {
    var after := AfterDecision(db, runId, actionId, verdict, Decided(Head(db, runId), verdict));
    var acts := ActionsOf(db, runId);
    assert actionId in acts;
    GoodDecide(runId, db.runs[runId], db.checkpoints[runId], |EventsOf(db, runId)|, acts, actionId, verdict);
    ActionWritten(db, after, runId, actionId, after.actions[actionId]);
    assert EventsOf(after, runId) == EventsOf(db, runId);
    assert RunOk(after, runId);
    assert forall r :: EventsOf(after, r) == EventsOf(db, r);
    InvRestored(db, after, runId);
  }

  lemma {:induction false} RefusedDecisionChangesNothing(db: Db, tenant: string, runId: string, actionId: string, approved: bool,
                                      subjectHash: string, now: real)
    requires Inv(db) && !Decidable(db, tenant, runId, actionId, subjectHash, now)
    ensures var own := actionId in db.actions && db.actions[actionId].runId == runId && db.actions[actionId].status == PENDING;
      Decide(db, tenant, runId, actionId, approved, subjectHash, now)
        == (db, Err(if tenant == "" then TenantRequired
                    else if runId !in db.runs || db.runs[runId].tenant != tenant then RunNotFound
                    else if !own then ActionNotPending
                    else HashMismatch))
  {
    LockedIsHead(db, tenant, runId);
  }

  // --------------------------------------------------------------- all runs

  datatype Op =
    | DoStart(tenant: string, campaign: string, contact: string, runId: string)
    | DoTransition(tenant: string, runId: string, event: string, subjectHash: string, actionId: string, now: real)
    | DoDecide(tenant: string, runId: string, actionId: string, approved: bool, subjectHash: string, now: real)

  function Apply(db: Db, op: Op): (Db, Result<RunState, Error>) {
    match op
    case DoStart(tenant, campaign, contact, runId) => Start(db, tenant, campaign, contact, runId)
    case DoTransition(tenant, runId, event, subjectHash, actionId, now) =>
      Transition(db, tenant, runId, event, subjectHash, actionId, now)
    case DoDecide(tenant, runId, actionId, approved, subjectHash, now) =>
      Decide(db, tenant, runId, actionId, approved, subjectHash, now)
  }

  function After(db: Db, ops: seq<Op>): Db
    decreases |ops|
  {
    if ops == [] then db else After(Apply(db, ops[0]).0, ops[1..])
  }

  /** What no operation takes from an existing run: its history, its stage reached, and being blocked. */
  predicate Grew(db: Db, after: Db, runId: string) {
    runId in db.runs && runId in db.checkpoints ==>
      && runId in after.runs && runId in after.checkpoints
      && db.checkpoints[runId] <= after.checkpoints[runId]
      && Index(db.runs[runId].stage) <= Index(after.runs[runId].stage)
      && (db.runs[runId].status == BLOCKED ==>
            after.runs[runId] == db.runs[runId] && after.checkpoints[runId] == db.checkpoints[runId])
  }

  ghost predicate Preserved(db: Db, after: Db) {
    Inv(after) && db.events <= after.events && forall r :: Grew(db, after, r)
  }

  lemma {:induction false} StartStep(db: Db, tenant: string, campaign: string, contact: string, runId: string)
    requires Inv(db)
    ensures Preserved(db, Start(db, tenant, campaign, contact, runId).0)
  {
    if tenant != "" && runId !in db.runs {
      StartWrites(db, tenant, campaign, contact, runId);
      StartKeeps(db, tenant, campaign, contact, runId);
    }
  }

  lemma {:induction false} WriteGrows(db: Db, after: Db, runId: string, next: RunState)
    requires runId in db.runs && runId in db.checkpoints
    requires after.runs == db.runs[runId := Stamped(db.runs[runId], next)]
    requires after.checkpoints == db.checkpoints[runId := Extend(db.checkpoints[runId], next)]
    requires Index(db.runs[runId].stage) <= Index(next.stage) && db.runs[runId].status != BLOCKED
    ensures forall r :: Grew(db, after, r)
  {
  }

  /** The run's row agrees with its newest checkpoint. */
  lemma {:induction false} RowIsHead(db: Db, runId: string)
    requires runId in db.runs && runId in db.checkpoints && RunOk(db, runId)
    ensures db.runs[runId].stage == Head(db, runId).stage && db.runs[runId].status == Head(db, runId).status
  {
  }

  lemma {:induction false} OpenStep(db: Db, runId: string, event: string, actionId: string, action: HumanAction)
    requires Inv(db) && runId in db.runs && (db.runs[runId].tenant, runId, event) !in db.events
    requires RunOk(db, runId) && Head(db, runId).status == RUNNING && Head(db, runId).stage == APPROVE
    requires actionId !in db.actions && action.status == PENDING
    requires action.runId == runId && action.tenant == db.runs[runId].tenant
    ensures Preserved(db, AfterEvent(db, runId, event, Waiting(Head(db, runId), event, actionId), db.actions[actionId := action]))
  {
    RowIsHead(db, runId);
    OpenKeeps(db, runId, event, actionId, action);
    WriteGrows(db, AfterEvent(db, runId, event, Waiting(Head(db, runId), event, actionId), db.actions[actionId := action]),
               runId, Waiting(Head(db, runId), event, actionId));
  }

  lemma {:induction false} StageAdvances(stage: Stage)
    ensures Index(stage) <= Index(NextStage(stage))
  {
  }

  lemma {:induction false} AdvanceStep(db: Db, runId: string, event: string)
    requires Inv(db) && runId in db.runs && (db.runs[runId].tenant, runId, event) !in db.events
    requires RunOk(db, runId) && Head(db, runId).status == RUNNING && Head(db, runId).stage != APPROVE
    ensures Preserved(db, AfterEvent(db, runId, event, Advanced(Head(db, runId), event), db.actions))
  {
    RowIsHead(db, runId);
    StageAdvances(Head(db, runId).stage);
    AdvanceKeeps(db, runId, event);
    WriteGrows(db, AfterEvent(db, runId, event, Advanced(Head(db, runId), event), db.actions),
               runId, Advanced(Head(db, runId), event));
  }

  lemma {:induction false} EventStep(db: Db, tenant: string, runId: string, event: string, subjectHash: string, actionId: string, now: real)
    requires Inv(db)
    ensures Preserved(db, Transition(db, tenant, runId, event, subjectHash, actionId, now).0)
  {
    if Accepts(db, tenant, runId, event, subjectHash, actionId) {
      AcceptedEvent(db, tenant, runId, event, subjectHash, actionId, now);
      RowIsHead(db, runId);
      if Head(db, runId).stage == APPROVE {
        OpenStep(db, runId, event, actionId, HumanAction(tenant, runId, subjectHash, PENDING, now + ACTION_LIFETIME));
      } else {
        AdvanceStep(db, runId, event);
      }
    } else {
      RefusedEventChangesNothing(db, tenant, runId, event, subjectHash, actionId, now);
      PreservedByNothing(db);
    }
  }

  lemma {:induction false} PreservedByNothing(db: Db)
    requires Inv(db)
    ensures Preserved(db, db)
  {
  }

  lemma {:induction false} DecisionStep(db: Db, tenant: string, runId: string, actionId: string, approved: bool, subjectHash: string, now: real)
    requires Inv(db)
    ensures Preserved(db, Decide(db, tenant, runId, actionId, approved, subjectHash, now).0)
  {
    if Decidable(db, tenant, runId, actionId, subjectHash, now) {
      AcceptedDecision(db, tenant, runId, actionId, approved, subjectHash, now);
      var verdict := Verdict(db.actions[actionId], approved, now);
      var after := Decide(db, tenant, runId, actionId, approved, subjectHash, now).0;
      DecisionKeeps(db, runId, actionId, verdict);
      WriteGrows(db, after, runId, Decided(Head(db, runId), verdict));
    } else {
      RefusedDecisionChangesNothing(db, tenant, runId, actionId, approved, subjectHash, now);
    }
  }

  lemma {:induction false} StepKeeps(db: Db, op: Op)
    requires Inv(db)
    ensures Preserved(db, Apply(db, op).0)
  {
    match op
    case DoStart(tenant, campaign, contact, runId) => StartStep(db, tenant, campaign, contact, runId);
    case DoTransition(tenant, runId, event, subjectHash, actionId, now) =>
      EventStep(db, tenant, runId, event, subjectHash, actionId, now);
    case DoDecide(tenant, runId, actionId, approved, subjectHash, now) =>
      DecisionStep(db, tenant, runId, actionId, approved, subjectHash, now);
  }

  /**
   Over every run of the repository from a good database: it stays good, checkpoints are
   only appended, no stage moves backward, a blocked run never changes again, and no
   recorded event is forgotten.
   */
  lemma {:induction false} EveryRunKeeps(db: Db, ops: seq<Op>)
    requires Inv(db)
    ensures Preserved(db, After(db, ops))
    decreases |ops|
  {
    if ops != [] {
      var next := Apply(db, ops[0]).0;
      StepKeeps(db, ops[0]);
      EveryRunKeeps(next, ops[1..]);
      forall r
        ensures Grew(db, After(db, ops), r)
      {
        assert Grew(db, next, r) && Grew(next, After(db, ops), r);
      }
    }
  }

  lemma {:induction false} EmptyIsGood()
    ensures Inv(EMPTY_DB)
  {
  }

  ghost predicate OnlyAction(acts: map<string, HumanAction>, actionId: string, statuses: set<ActionStatus>) {
    acts.Keys == {actionId} && acts[actionId].status in statuses
  }

  lemma {:induction false} GateReadings(s: RunState, acts: map<string, HumanAction>)
    requires Gate(s, acts)
    ensures s.status == WAITING_HUMAN <==> exists a :: OnlyAction(acts, a, {PENDING})
    ensures s.status == WAITING_HUMAN ==>
      s.stage == APPROVE && s.pending.Some? && OnlyAction(acts, s.pending.value, {PENDING})
    ensures s.pending.Some? <==> s.status == WAITING_HUMAN
    ensures Index(s.stage) >= Index(CONTACT) <==> exists a :: OnlyAction(acts, a, {APPROVED})
    ensures s.status == BLOCKED <==> exists a :: OnlyAction(acts, a, {REJECTED, EXPIRED})
  {
    if Index(s.stage) >= Index(CONTACT) {
      var a :| acts.Keys == {a} && acts[a].status == APPROVED;
      assert OnlyAction(acts, a, {APPROVED});
      assert forall b :: acts.Keys == {b} ==> a == b;
    } else if s.status == BLOCKED {
      var a :| acts.Keys == {a} && acts[a].status in {REJECTED, EXPIRED};
      assert OnlyAction(acts, a, {REJECTED, EXPIRED});
      assert forall b :: acts.Keys == {b} ==> a == b;
    } else if s.status == WAITING_HUMAN {
      assert OnlyAction(acts, s.pending.value, {PENDING});
      assert forall b :: acts.Keys == {b} ==> s.pending.value == b;
    }
  }

  /** The human gate and the checkpoint count of a run. */
  ghost predicate Gated(db: Db, runId: string) {
    && runId in db.runs && runId in db.checkpoints && RunOk(db, runId)
    && var s, acts := Head(db, runId), ActionsOf(db, runId);
       && (s.status == WAITING_HUMAN <==> exists a :: OnlyAction(acts, a, {PENDING}))
       && (s.status == WAITING_HUMAN ==>
             s.stage == APPROVE && s.pending.Some? && OnlyAction(acts, s.pending.value, {PENDING}))
       && (s.pending.Some? <==> s.status == WAITING_HUMAN)
       && (Index(s.stage) >= Index(CONTACT) <==> exists a :: OnlyAction(acts, a, {APPROVED}))
       && (s.status == BLOCKED <==> exists a :: OnlyAction(acts, a, {REJECTED, EXPIRED}))
       && s.checkpointNo == 1 + |EventsOf(db, runId)| + |Closed(acts)|
       && (db.runs[runId].stage, db.runs[runId].status) == (s.stage, s.status)
  }

  /** Every reachable database reads so; the rows and the newest checkpoint agree. */
  lemma {:induction false} HumanGate(db: Db, runId: string)
    requires Inv(db) && runId in db.runs
    ensures Gated(db, runId)
  {
    assert RunOk(db, runId);
    NewestBelongs(runId, db.runs[runId], db.checkpoints[runId], |EventsOf(db, runId)|, ActionsOf(db, runId));
    GateReadings(Head(db, runId), ActionsOf(db, runId));
  }

  /** From an empty database, whatever is done to it, every run is gated. */
  lemma {:induction false} HumanGateFromStart(ops: seq<Op>, runId: string)
    requires runId in After(EMPTY_DB, ops).runs
    ensures Gated(After(EMPTY_DB, ops), runId)
  {
    EmptyIsGood();
    EveryRunKeeps(EMPTY_DB, ops);
    HumanGate(After(EMPTY_DB, ops), runId);
  }

  lemma {:induction false} StartOpensNothing(db: Db, tenant: string, campaign: string, contact: string, id: string, runId: string)
    requires Inv(db) && runId in db.runs
    ensures var after := Start(db, tenant, campaign, contact, id).0;
      runId in after.runs && after.runs[runId].stage == db.runs[runId].stage
  {
    if tenant != "" && id !in db.runs {
      StartWrites(db, tenant, campaign, contact, id);
    }
  }

  lemma {:induction false} StagesBeforeApprove(stage: Stage)
    ensures stage != APPROVE && Index(stage) < Index(CONTACT) ==> Index(NextStage(stage)) < Index(CONTACT)
  {
  }

  lemma {:induction false} EventOpensNothing(db: Db, tenant: string, id: string, event: string, subjectHash: string, actionId: string,
                          now: real, runId: string)
    requires Inv(db) && runId in db.runs && Index(db.runs[runId].stage) < Index(CONTACT)
    ensures var after := Transition(db, tenant, id, event, subjectHash, actionId, now).0;
      runId in after.runs && Index(after.runs[runId].stage) < Index(CONTACT)
  {
    if Accepts(db, tenant, id, event, subjectHash, actionId) {
      AcceptedEvent(db, tenant, id, event, subjectHash, actionId, now);
      RowIsHead(db, id);
      StagesBeforeApprove(Head(db, id).stage);
    } else {
      RefusedEventChangesNothing(db, tenant, id, event, subjectHash, actionId, now);
    }
  }

  /**
   The only operation that takes a run to CONTACT is an approval, before expiry, of that
   run's own recorded action with that action's own subject hash.
   */
  lemma {:induction false} OnlyApprovalOpensContact(db: Db, op: Op, runId: string)
    requires Inv(db) && runId in db.runs
    requires Index(db.runs[runId].stage) < Index(CONTACT)
    requires runId in Apply(db, op).0.runs && Index(Apply(db, op).0.runs[runId].stage) >= Index(CONTACT)
    ensures op.DoDecide? && op.runId == runId && op.approved && op.tenant == db.runs[runId].tenant
    ensures RunOk(db, runId) && Head(db, runId).pending == Some(op.actionId)
    ensures op.actionId in db.actions && db.actions[op.actionId].status == PENDING
    ensures db.actions[op.actionId].subjectHash == op.subjectHash && op.now < db.actions[op.actionId].expires
  {
    assert RunOk(db, runId);
    match op
    case DoStart(tenant, campaign, contact, id) => StartOpensNothing(db, tenant, campaign, contact, id, runId);
    case DoTransition(tenant, id, event, subjectHash, actionId, now) =>
      EventOpensNothing(db, tenant, id, event, subjectHash, actionId, now, runId);
    case DoDecide(tenant, id, actionId, approved, subjectHash, now) =>
      if Decidable(db, tenant, id, actionId, subjectHash, now) {
        AcceptedDecision(db, tenant, id, actionId, approved, subjectHash, now);
        RowIsHead(db, id);
      } else {
        RefusedDecisionChangesNothing(db, tenant, id, actionId, approved, subjectHash, now);
      }
  }

  /** An accepted event delivered again, after anything else, changes nothing and answers with the newest state. */
  lemma {:induction false} RedeliveryIsNoOp(db: Db, tenant: string, runId: string, event: string, subjectHash: string, actionId: string,
                         now: real, between: seq<Op>, subjectHash': string, actionId': string, now': real)
    requires Inv(db) && Accepts(db, tenant, runId, event, subjectHash, actionId)
    ensures var later := After(Transition(db, tenant, runId, event, subjectHash, actionId, now).0, between);
      && Inv(later) && runId in later.runs && RunOk(later, runId)
      && Transition(later, tenant, runId, event, subjectHash', actionId', now') == (later, Ok(Head(later, runId)))
  {
    var first := Transition(db, tenant, runId, event, subjectHash, actionId, now).0;
    StepKeeps(db, DoTransition(tenant, runId, event, subjectHash, actionId, now));
    AcceptedEvent(db, tenant, runId, event, subjectHash, actionId, now);
    EveryRunKeeps(first, between);
    var later := After(first, between);
    assert (tenant, runId, event) in later.events;
    assert RunOk(later, runId);
    RefusedEventChangesNothing(later, tenant, runId, event, subjectHash', actionId', now');
  }

  // ------------------------------------------------ stages, step by step

  lemma {:induction false} AdvancedMovesOneStage(s: RunState, event: string)
    requires s.stage != APPROVE
    ensures MovesOneStage(s, event, Numbered(Advanced(s, event)))
  {
  }

  /** What an accepted event does outside APPROVE. */
  lemma {:induction false} EventMovesOneStage(db: Db, tenant: string, runId: string, event: string, subjectHash: string,
                           actionId: string, now: real)
    requires Inv(db) && Accepts(db, tenant, runId, event, subjectHash, actionId) && db.runs[runId].stage != APPROVE
    ensures RunOk(db, runId)
    ensures var (after, result) := Transition(db, tenant, runId, event, subjectHash, actionId, now);
      && result.Ok? && MovesOneStage(Head(db, runId), event, result.value)
      && runId in after.runs && after.actions == db.actions
      && (after.runs[runId].stage, after.runs[runId].status) == (result.value.stage, result.value.status)
  {
    assert RunOk(db, runId);
    AcceptedEvent(db, tenant, runId, event, subjectHash, actionId, now);
    RowIsHead(db, runId);
    AdvancedMovesOneStage(Head(db, runId), event);
  }

  /** At APPROVE the run waits for the new action instead, which takes a hash of 64 characters and lives for a day. */
  lemma {:induction false} EventOpensAction(db: Db, tenant: string, runId: string, event: string, subjectHash: string,
                         actionId: string, now: real)
    requires Inv(db) && Accepts(db, tenant, runId, event, subjectHash, actionId) && db.runs[runId].stage == APPROVE
    ensures RunOk(db, runId)
    ensures var head := Head(db, runId);
      var (after, result) := Transition(db, tenant, runId, event, subjectHash, actionId, now);
      && result.Ok? && runId in after.runs
      && (after.runs[runId].stage, after.runs[runId].status) == (APPROVE, WAITING_HUMAN)
      && result.value == head.(status := WAITING_HUMAN, pending := Some(actionId), lastEvent := Some(event),
                               checkpointNo := head.checkpointNo + 1)
      && |subjectHash| == 64 && actionId !in db.actions
      && after.actions == db.actions[actionId := HumanAction(tenant, runId, subjectHash, PENDING, now + 86400.0)]
  {
    assert RunOk(db, runId);
    AcceptedEvent(db, tenant, runId, event, subjectHash, actionId, now);
    RowIsHead(db, runId);
  }

  /**
   What a decision that goes through does: past its expiry the run is blocked and the action
   expired; before it, an approval takes the run to CONTACT and any other answer blocks it.
   */
  lemma {:induction false} DecisionEndsTheWait(db: Db, tenant: string, runId: string, actionId: string, approved: bool,
                            subjectHash: string, now: real)
    requires Inv(db) && Decidable(db, tenant, runId, actionId, subjectHash, now)
    ensures RunOk(db, runId)
    ensures var (head, action) := (Head(db, runId), db.actions[actionId]);
      var (after, result) := Decide(db, tenant, runId, actionId, approved, subjectHash, now);
      && result.Ok? && runId in after.runs && actionId in after.actions
      && (after.runs[runId].stage, after.runs[runId].status) == (result.value.stage, result.value.status)
      && result.value.checkpointNo == head.checkpointNo + 1 && result.value.pending == None
      && (action.expires > now && approved ==>
            && result.value.stage == CONTACT && result.value.status == RUNNING
            && after.actions == db.actions[actionId := action.(status := APPROVED)])
      && (action.expires > now && !approved ==>
            && result.value.stage == APPROVE && result.value.status == BLOCKED
            && after.actions == db.actions[actionId := action.(status := REJECTED)])
      && (action.expires <= now ==>
            && result.value.stage == APPROVE && result.value.status == BLOCKED
            && after.actions == db.actions[actionId := action.(status := EXPIRED)])
  {
    assert RunOk(db, runId);
    AcceptedDecision(db, tenant, runId, actionId, approved, subjectHash, now);
    HumanGate(db, runId);
  }

  /** What starting a run writes, and when it is refused instead. */
  lemma {:induction false} StartsExactly(db: Db, tenant: string, campaign: string, contact: string, runId: string)
    requires Inv(db)
    ensures var (after, result) := Start(db, tenant, campaign, contact, runId);
      var first := RunState(tenant, runId, campaign, contact, QUALIFY, RUNNING, None, None, "", "sales-graph@1", 1);
      && (tenant == "" ==> (after, result) == (db, Err(TenantRequired)))
      && (tenant != "" && runId in db.runs ==> (after, result) == (db, Err(ConstraintViolation)))
      && (tenant != "" && runId !in db.runs ==>
            && result == Ok(first) && (after.events, after.actions) == (db.events, db.actions)
            && after.runs == db.runs[runId := GraphRun(tenant, campaign, contact, QUALIFY, RUNNING, 2)]
            && after.checkpoints == db.checkpoints[runId := [Checkpoint(ToPayload(first), Sha256(ToPayload(first)))]])
  {
    if tenant != "" && runId !in db.runs {
      StartWrites(db, tenant, campaign, contact, runId);
    }
  }

  /** The stage and status of a run at a number of events, and the number at a stage. */
  predicate StageAtEvents(stage: Stage, status: Status, events: nat) {
    && (events == 0 <==> stage == QUALIFY)
    && (events == 1 <==> stage == PREPARE)
    && (events == 2 <==> stage == APPROVE && status == RUNNING)
    && (events == 3 <==> (stage == APPROVE && status in {WAITING_HUMAN, BLOCKED}) || stage == CONTACT)
    && (events == 4 <==> stage == CONVERSE)
    && (events == 5 <==> stage == HANDOFF)
    && (events >= 6 <==> stage == CLOSE)
    && (status != RUNNING ==> stage == APPROVE)
  }

  /**
   After any operations on an empty database, on any runs of any tenants, the number of
   distinct events recorded for a run determines how far it has come: the first two take it
   to APPROVE, the third opens the action, and after an approval three more close it.
   */
  lemma {:induction false} StageFollowsEvents(ops: seq<Op>, runId: string)
    requires runId in After(EMPTY_DB, ops).runs
    ensures var db := After(EMPTY_DB, ops); StageAtEvents(db.runs[runId].stage, db.runs[runId].status, |EventsOf(db, runId)|)
  {
    EmptyIsGood();
    EveryRunKeeps(EMPTY_DB, ops);
    var db := After(EMPTY_DB, ops);
    assert RunOk(db, runId);
    RowIsHead(db, runId);
    PacedIsStageAtEvents(Head(db, runId), ActionsOf(db, runId), |EventsOf(db, runId)|);
  }

  lemma {:induction false} PacedIsStageAtEvents(s: RunState, acts: map<string, HumanAction>, events: nat)
    requires Gate(s, acts) && Paced(s, events)
    ensures StageAtEvents(s.stage, s.status, events)
  {
  }

  /** A run of the tenant that is at this stage, and active. */
  ghost predicate ActiveAt(db: Db, tenant: string, runId: string, stage: Stage) {
    && Inv(db) && tenant != "" && runId in db.runs
    && db.runs[runId].tenant == tenant && db.runs[runId].stage == stage && db.runs[runId].status == RUNNING
  }

  /** A fresh event takes an active run from a stage other than APPROVE to the next one. */
  lemma {:induction false} FreshEventAdvances(db: Db, tenant: string, runId: string, event: string, stage: Stage, next: Stage)
    requires ActiveAt(db, tenant, runId, stage) && (tenant, runId, event) !in db.events
    requires (stage, next) in {(QUALIFY, PREPARE), (PREPARE, APPROVE), (CONTACT, CONVERSE), (CONVERSE, HANDOFF), (HANDOFF, CLOSE)}
    ensures var after := Apply(db, DoTransition(tenant, runId, event, "", "", 0.0)).0;
      && ActiveAt(after, tenant, runId, next)
      && after.events == db.events + {(tenant, runId, event)} && after.actions == db.actions
  {
    StepKeeps(db, DoTransition(tenant, runId, event, "", "", 0.0));
    EventMovesOneStage(db, tenant, runId, event, "", "", 0.0);
    AcceptedEvent(db, tenant, runId, event, "", "", 0.0);
    RowIsHead(db, runId);
  }

  /** At APPROVE one more opens the action, and its approval in time takes the run to CONTACT. */
  lemma {:induction false} ApprovalPassesTheGate(db: Db, tenant: string, runId: string, event: string, subjectHash: string,
                             actionId: string, now: real, decided: real)
    requires ActiveAt(db, tenant, runId, APPROVE) && (tenant, runId, event) !in db.events
    requires |subjectHash| == 64 && actionId !in db.actions && decided < now + 86400.0
    ensures var waiting := Apply(db, DoTransition(tenant, runId, event, subjectHash, actionId, now)).0;
      var after := Apply(waiting, DoDecide(tenant, runId, actionId, true, subjectHash, decided)).0;
      && Inv(waiting) && runId in waiting.runs && waiting.runs[runId].status == WAITING_HUMAN
      && actionId in waiting.actions
      && waiting.actions[actionId] == HumanAction(tenant, runId, subjectHash, PENDING, now + 86400.0)
      && ActiveAt(after, tenant, runId, CONTACT) && after.events == db.events + {(tenant, runId, event)}
  {
    StepKeeps(db, DoTransition(tenant, runId, event, subjectHash, actionId, now));
    EventOpensAction(db, tenant, runId, event, subjectHash, actionId, now);
    AcceptedEvent(db, tenant, runId, event, subjectHash, actionId, now);
    RowIsHead(db, runId);
    var waiting := Apply(db, DoTransition(tenant, runId, event, subjectHash, actionId, now)).0;
    StepKeeps(waiting, DoDecide(tenant, runId, actionId, true, subjectHash, decided));
    DecisionEndsTheWait(waiting, tenant, runId, actionId, true, subjectHash, decided);
    AcceptedDecision(waiting, tenant, runId, actionId, true, subjectHash, decided);
  }

  function Events(tenant: string, runId: string, events: seq<string>): seq<Op> {
    seq(|events|, i requires 0 <= i < |events| => DoTransition(tenant, runId, events[i], "", "", 0.0))
  }

  lemma {:induction false} FirstEvent(db: Db, tenant: string, runId: string, es: seq<string>)
    requires es != []
    ensures After(db, Events(tenant, runId, es))
         == After(Apply(db, DoTransition(tenant, runId, es[0], "", "", 0.0)).0, Events(tenant, runId, es[1..]))
  {
    assert Events(tenant, runId, es)[1..] == Events(tenant, runId, es[1..]);
  }

  lemma {:induction false} TwoEvents(db: Db, tenant: string, runId: string, a: string, b: string, stage: Stage, mid: Stage, next: Stage)
    requires ActiveAt(db, tenant, runId, stage) && a != b
    requires (tenant, runId, a) !in db.events && (tenant, runId, b) !in db.events
    requires (stage, mid, next) in {(QUALIFY, PREPARE, APPROVE), (CONVERSE, HANDOFF, CLOSE)}
    ensures var after := After(db, Events(tenant, runId, [a, b]));
      ActiveAt(after, tenant, runId, next) && after.events == db.events + {(tenant, runId, a), (tenant, runId, b)}
      && after.actions == db.actions
  {
    FirstEvent(db, tenant, runId, [a, b]);
    FreshEventAdvances(db, tenant, runId, a, stage, mid);
    var between := Apply(db, DoTransition(tenant, runId, a, "", "", 0.0)).0;
    assert [a, b][1..] == [b] && [b][1..] == [];
    FirstEvent(between, tenant, runId, [b]);
    FreshEventAdvances(between, tenant, runId, b, mid, next);
  }

  lemma {:induction false} ThreeEvents(db: Db, tenant: string, runId: string, a: string, b: string, c: string)
    requires ActiveAt(db, tenant, runId, CONTACT) && a != b && a != c && b != c
    requires (tenant, runId, a) !in db.events && (tenant, runId, b) !in db.events && (tenant, runId, c) !in db.events
    ensures ActiveAt(After(db, Events(tenant, runId, [a, b, c])), tenant, runId, CLOSE)
  {
    FirstEvent(db, tenant, runId, [a, b, c]);
    FreshEventAdvances(db, tenant, runId, a, CONTACT, CONVERSE);
    assert [a, b, c][1..] == [b, c];
    TwoEvents(Apply(db, DoTransition(tenant, runId, a, "", "", 0.0)).0, tenant, runId, b, c, CONVERSE, HANDOFF, CLOSE);
  }

  lemma {:induction false} StartIsActive(db: Db, tenant: string, campaign: string, contact: string, runId: string)
    requires Inv(db) && tenant != "" && runId !in db.runs
    ensures var after := Apply(db, DoStart(tenant, campaign, contact, runId)).0;
      ActiveAt(after, tenant, runId, QUALIFY) && after.actions == db.actions && forall e :: (tenant, runId, e) !in after.events
  {
    StartStep(db, tenant, campaign, contact, runId);
    StartWrites(db, tenant, campaign, contact, runId);
  }

  /** The tables of a run on its way: at APPROVE, waiting, approved and closed. */
  datatype Way = Way(ready: Db, waiting: Db, approved: Db, closed: Db)

  function WayOf(started: Db, tenant: string, runId: string, es: seq<string>, subjectHash: string, actionId: string,
                 now: real, decided: real): Way
    requires |es| == 6
  {
    var ready := After(started, Events(tenant, runId, [es[0], es[1]]));
    var waiting := Apply(ready, DoTransition(tenant, runId, es[2], subjectHash, actionId, now)).0;
    var approved := Apply(waiting, DoDecide(tenant, runId, actionId, true, subjectHash, decided)).0;
    Way(ready, waiting, approved, After(approved, Events(tenant, runId, [es[3], es[4], es[5]])))
  }

  predicate AllDistinct(es: seq<string>) {
    forall i, j :: 0 <= i < j < |es| ==> es[i] != es[j]
  }

  /**
   A new run of any tenant in any reachable database gets from its start to CLOSE in six
   distinct events and one approval: two events to APPROVE, one to open the action, three
   more after it was approved.
   */
  lemma {:induction false} ARunCanClose(db: Db, tenant: string, campaign: string, contact: string, runId: string, es: seq<string>,
                         subjectHash: string, actionId: string, now: real, decided: real)
    requires Inv(db) && tenant != "" && runId !in db.runs
    requires |es| == 6 && AllDistinct(es)
    requires |subjectHash| == 64 && actionId !in db.actions && decided < now + 86400.0
    ensures var started := Apply(db, DoStart(tenant, campaign, contact, runId)).0;
      var way := WayOf(started, tenant, runId, es, subjectHash, actionId, now, decided);
      && ActiveAt(started, tenant, runId, QUALIFY) && ActiveAt(way.ready, tenant, runId, APPROVE)
      && runId in way.waiting.runs && way.waiting.runs[runId].status == WAITING_HUMAN
      && ActiveAt(way.approved, tenant, runId, CONTACT) && ActiveAt(way.closed, tenant, runId, CLOSE)
  {
    StartIsActive(db, tenant, campaign, contact, runId);
    var started := Apply(db, DoStart(tenant, campaign, contact, runId)).0;
    WayToClose(started, tenant, runId, es, subjectHash, actionId, now, decided);
  }

  /** None of these events has been recorded for the run. */
  predicate Fresh(recorded: set<(string, string, string)>, tenant: string, runId: string, es: seq<string>) {
    forall i :: 0 <= i < |es| ==> (tenant, runId, es[i]) !in recorded
  }

  lemma {:induction false} RestIsFresh(recorded: set<(string, string, string)>, tenant: string, runId: string, es: seq<string>)
    requires es != [] && Fresh(recorded, tenant, runId, es) && AllDistinct(es)
    ensures Fresh(recorded + {(tenant, runId, es[0])}, tenant, runId, es[1..]) && AllDistinct(es[1..])
  {
  }

  lemma {:induction false} LaterAreFresh(recorded: set<(string, string, string)>, tenant: string, runId: string, es: seq<string>)
    requires |es| == 6 && Fresh(recorded, tenant, runId, es) && AllDistinct(es)
    ensures es[0] != es[1] && (tenant, runId, es[0]) !in recorded && (tenant, runId, es[1]) !in recorded
    ensures var later := [es[2], es[3], es[4], es[5]];
      Fresh(recorded + {(tenant, runId, es[0]), (tenant, runId, es[1])}, tenant, runId, later) && AllDistinct(later)
  {
    RestIsFresh(recorded, tenant, runId, es);
    RestIsFresh(recorded + {(tenant, runId, es[0])}, tenant, runId, es[1..]);
    assert es[1..][1..] == [es[2], es[3], es[4], es[5]];
    assert recorded + {(tenant, runId, es[0]), (tenant, runId, es[1])}
        == recorded + {(tenant, runId, es[0])} + {(tenant, runId, es[1])};
  }

  lemma {:induction false} WayToClose(db: Db, tenant: string, runId: string, es: seq<string>, subjectHash: string, actionId: string,
                       now: real, decided: real)
    requires ActiveAt(db, tenant, runId, QUALIFY) && Fresh(db.events, tenant, runId, es)
    requires |es| == 6 && AllDistinct(es)
    requires |subjectHash| == 64 && actionId !in db.actions && decided < now + 86400.0
    ensures var way := WayOf(db, tenant, runId, es, subjectHash, actionId, now, decided);
      && ActiveAt(way.ready, tenant, runId, APPROVE)
      && runId in way.waiting.runs && way.waiting.runs[runId].status == WAITING_HUMAN
      && ActiveAt(way.approved, tenant, runId, CONTACT) && ActiveAt(way.closed, tenant, runId, CLOSE)
  {
    var ready := After(db, Events(tenant, runId, [es[0], es[1]]));
    ToTheGate(db, ready, tenant, runId, es);
    FromTheGate(ready, tenant, runId, es[2], es[3], es[4], es[5], subjectHash, actionId, now, decided);
  }

  lemma {:induction false} ToTheGate(db: Db, ready: Db, tenant: string, runId: string, es: seq<string>)
    requires ActiveAt(db, tenant, runId, QUALIFY) && Fresh(db.events, tenant, runId, es)
    requires |es| == 6 && AllDistinct(es) && ready == After(db, Events(tenant, runId, [es[0], es[1]]))
    ensures ActiveAt(ready, tenant, runId, APPROVE) && ready.actions == db.actions
    ensures var later := [es[2], es[3], es[4], es[5]]; Fresh(ready.events, tenant, runId, later) && AllDistinct(later)
  {
    LaterAreFresh(db.events, tenant, runId, es);
    TwoEvents(db, tenant, runId, es[0], es[1], QUALIFY, PREPARE, APPROVE);
  }

  lemma {:induction false} FromTheGate(ready: Db, tenant: string, runId: string, e: string, a: string, b: string, c: string,
                        subjectHash: string, actionId: string, now: real, decided: real)
    requires ActiveAt(ready, tenant, runId, APPROVE) && Fresh(ready.events, tenant, runId, [e, a, b, c]) && AllDistinct([e, a, b, c])
    requires |subjectHash| == 64 && actionId !in ready.actions && decided < now + 86400.0
    ensures var waiting := Apply(ready, DoTransition(tenant, runId, e, subjectHash, actionId, now)).0;
      var approved := Apply(waiting, DoDecide(tenant, runId, actionId, true, subjectHash, decided)).0;
      && runId in waiting.runs && waiting.runs[runId].status == WAITING_HUMAN
      && ActiveAt(approved, tenant, runId, CONTACT)
      && ActiveAt(After(approved, Events(tenant, runId, [a, b, c])), tenant, runId, CLOSE)
  {
    var all := [e, a, b, c];
    assert (tenant, runId, all[0]) !in ready.events;
    ApprovalPassesTheGate(ready, tenant, runId, e, subjectHash, actionId, now, decided);
    var waiting := Apply(ready, DoTransition(tenant, runId, e, subjectHash, actionId, now)).0;
    var approved := Apply(waiting, DoDecide(tenant, runId, actionId, true, subjectHash, decided)).0;
    RestIsFresh(ready.events, tenant, runId, all);
    assert all[1..] == [a, b, c];
    LaterEvents(approved, tenant, runId, a, b, c);
  }

  lemma {:induction false} LaterEvents(db: Db, tenant: string, runId: string, a: string, b: string, c: string)
    requires ActiveAt(db, tenant, runId, CONTACT) && Fresh(db.events, tenant, runId, [a, b, c]) && AllDistinct([a, b, c])
    ensures ActiveAt(After(db, Events(tenant, runId, [a, b, c])), tenant, runId, CLOSE)
  {
    var all := [a, b, c];
    assert all[0] != all[1] && all[0] != all[2] && all[1] != all[2];
    assert forall i :: 0 <= i < 3 ==> (tenant, runId, all[i]) !in db.events;
    ThreeEvents(db, tenant, runId, all[0], all[1], all[2]);
  }

  // ------------------------------------------------------------- repository

  /** `PostgresWorkflowRepository` on its own tables, one method per transaction. */
  class Repository {
    var runs: map<string, GraphRun>
    var checkpoints: map<string, seq<Checkpoint>>
    var events: set<(string, string, string)>
    var actions: map<string, HumanAction>

    function Tables(): Db
      reads this
    {
      Db(runs, checkpoints, events, actions)
    }

    constructor ()
      ensures Tables() == EMPTY_DB
    {
      runs, checkpoints, events, actions := map[], map[], {}, map[];
    }

    /** The row lock and the newest-checkpoint query, with the hash comparison on the row found. */
    method LockedState(tenant: string, runId: string) returns (r: Result<RunState, Error>)
      ensures r == Locked(Tables(), tenant, runId)
    {
      if tenant == "" {
        return Err(TenantRequired);
      }
      if runId !in runs || runs[runId].tenant != tenant {
        return Err(RunNotFound);
      }
      var rows := if runId in checkpoints then checkpoints[runId] else [];
      var newest := None;
      for i := 0 to |rows|
        invariant newest == Latest(rows[..i], tenant)
      {
        assert rows[..i + 1][..i] == rows[..i];
        if rows[i].body.tenant == tenant && (newest.None? || newest.value.body.checkpointNo < rows[i].body.checkpointNo) {
          newest := Some(rows[i]);
        }
      }
      assert rows[..|rows|] == rows;
      match newest {
        case None => return Err(RunNotFound);
        case Some(row) =>
          if row.stateHash != Sha256(row.body) {
            return Err(CheckpointHashInvalid);
          }
          var state := FromPayload(row.body);
          if state.None? {
            return Err(StageUnknown);
          }
          return Ok(state.value);
      }
    }

    /** Writes the checkpoint row and the run row; on a duplicate number nothing is written. */
    method WriteCheckpoint(state: RunState) returns (r: Result<RunState, Error>)
      modifies this`runs, this`checkpoints
      ensures (Tables(), r) == Commit(old(Tables()), Save(old(Tables()), state))
    {
      var saved := state.(checkpointNo := state.checkpointNo + 1);
      var rows := if state.runId in checkpoints then checkpoints[state.runId] else [];
      for i := 0 to |rows|
        invariant forall j :: 0 <= j < i ==> rows[j].body.checkpointNo != saved.checkpointNo
      {
        if rows[i].body.checkpointNo == saved.checkpointNo {
          return Err(ConstraintViolation);
        }
      }
      checkpoints := checkpoints[state.runId := rows + [Checkpoint(ToPayload(saved), Sha256(ToPayload(saved)))]];
      if state.runId in runs && runs[state.runId].tenant == state.tenant {
        var row := runs[state.runId];
        runs := runs[state.runId := row.(stage := saved.stage, status := saved.status, version := row.version + 1)];
      }
      r := Ok(saved);
    }

    method DoStart(tenant: string, campaign: string, contact: string, runId: string) returns (r: Result<RunState, Error>)
      modifies this
      ensures (Tables(), r) == Start(old(Tables()), tenant, campaign, contact, runId)
    {
      if tenant == "" {
        return Err(TenantRequired);
      }
      if runId in runs {
        return Err(ConstraintViolation);
      }
      var before := runs;
      runs := runs[runId := GraphRun(tenant, campaign, contact, QUALIFY, RUNNING, 1)];
      r := WriteCheckpoint(RunState(tenant, runId, campaign, contact, QUALIFY, RUNNING, None, None, "", WORKFLOW_VERSION, 0));
      if r.Err? {
        runs := before;
      }
    }

    method DoTransition(tenant: string, runId: string, event: string, subjectHash: string, actionId: string, now: real)
      returns (r: Result<RunState, Error>)
      modifies this
      ensures (Tables(), r) == Transition(old(Tables()), tenant, runId, event, subjectHash, actionId, now)
    {
      var locked := LockedState(tenant, runId);
      if locked.Err? {
        return locked;
      }
      var state := locked.value;
      if (tenant, runId, event) in events {
        return Ok(state);
      }
      if state.status != RUNNING {
        return Err(RunNotActive);
      }
      var events0, actions0 := events, actions;
      events := events + {(tenant, runId, event)};
      if state.stage == APPROVE {
        if |subjectHash| != SUBJECT_HASH_LENGTH {
          events := events0;
          return Err(SubjectHashRequired);
        }
        if actionId in actions {
          events := events0;
          return Err(ConstraintViolation);
        }
        actions := actions[actionId := HumanAction(tenant, runId, subjectHash, PENDING, now + ACTION_LIFETIME)];
        r := WriteCheckpoint(state.(status := WAITING_HUMAN, pending := Some(actionId), lastEvent := Some(event)));
      } else {
        r := WriteCheckpoint(state.(stage := NextStage(state.stage), lastEvent := Some(event)));
      }
      if r.Err? {
        events, actions := events0, actions0;
      }
    }

    method DoDecide(tenant: string, runId: string, actionId: string, approved: bool, subjectHash: string, now: real)
      returns (r: Result<RunState, Error>)
      modifies this
      ensures (Tables(), r) == Decide(old(Tables()), tenant, runId, actionId, approved, subjectHash, now)
    {
      var locked := LockedState(tenant, runId);
      if locked.Err? {
        return locked;
      }
      var state := locked.value;
      if actionId !in actions || actions[actionId].tenant != tenant || actions[actionId].runId != runId
         || actions[actionId].status != PENDING
      {
        return Err(ActionNotPending);
      }
      var row, actions0 := actions[actionId], actions;
      if row.expires <= now {
        actions := actions[actionId := row.(status := EXPIRED)];
        r := WriteCheckpoint(state.(status := BLOCKED, pending := None));
      } else if row.subjectHash != subjectHash {
        return Err(HashMismatch);
      } else {
        actions := actions[actionId := row.(status := if approved then APPROVED else REJECTED)];
        if approved {
          r := WriteCheckpoint(state.(status := RUNNING, stage := CONTACT, pending := None));
        } else {
          r := WriteCheckpoint(state.(status := BLOCKED, pending := None));
        }
      }
      if r.Err? {
        actions := actions0;
      }
    }
  }
}
