/**
 The completion endpoint of services/model_gateway/app/server.py: it reserves the
 request's maximum cost, calls a gateway built for that request alone, and settles
 with what the gateway charged. Requests of many threads are in flight at once, so
 the reserve and the settle of one request are separate steps here.
 */
module ModelServer {
  import opened Common
  import opened Sums
  import Budget
  import Gateway

  /** The request body after validation, with the outcome text the provider errors would produce. */
  datatype Request = Request(call: Gateway.Request, run: Budget.RunRef)

  datatype Config = Config(dailyLimit: int, policyMax: int, allowlist: set<string>, providers: seq<Gateway.Provider>)

  /** What the client gets: 200 with a cost, 503 with an error, or an unhandled 500. */
  datatype Response = Served(cost: int) | Unavailable | InternalError

  datatype Server = Server(db: Budget.Tables, inFlight: map<string, Request>)

  predicate Malformed(request: Request) {
    request.run.Malformed?
  }

  /** Validation and the reservation: the request is in flight afterwards, or answered with 503. */
  ghost function Begin(s: Server, cfg: Config, request: Request, id: string, now: real, today: int)
    : (Server, Option<Response>)
  {
    if Malformed(request) then (s, Some(Unavailable))
    else
      var (db, reserved) := Budget.Reserve(s.db, request.call.tenant, request.call.task, request.call.maxCost,
                                           cfg.dailyLimit, request.run, id, now, today);
      match reserved
      case Ok(_) => (Server(db, s.inFlight[id := request]), None)
      case Err(ConstraintViolation) => (s.(db := db), Some(InternalError))
      case Err(_) => (s.(db := db), Some(Unavailable))
  }

  /** The rest of the handler for one request in flight, given what the providers answer. */
  function Finish(s: Server, cfg: Config, id: string, replies: seq<Gateway.Reply>): (Server, Response)
    requires id in s.inFlight && |replies| == |cfg.providers|
  {
    var request := s.inFlight[id];
    var done := s.inFlight - {id};
    var outcome := CallGateway(cfg, request, replies);
    match outcome
    case Crashed => (Server(s.db, done), InternalError)
    case Answered(_, _, cost) =>
      var (db, settled) := Budget.Settle(s.db, id, request.call.tenant, request.run, cost, "SUCCESS");
      (match settled
       case Ok(_) => (Server(db, done), Served(cost))
       case Err(_) =>
         // The handler's except clause settles again with nothing to charge.
         var (again, retry) := Budget.Settle(db, id, request.call.tenant, request.run, 0, "MODEL_BUDGET_RESERVATION_INVALID");
         (Server(again, done), if retry.Ok? then Unavailable else InternalError))
    case _ =>
      var (db, settled) := Budget.Settle(s.db, id, request.call.tenant, request.run, 0, "NO_APPROVED_PROVIDER");
      (Server(db, done), if settled.Ok? then Unavailable else InternalError)
  }

  function CallGateway(cfg: Config, request: Request, replies: seq<Gateway.Reply>): Gateway.Outcome
    requires |replies| == |cfg.providers|
  {
    if cfg.policyMax < 1 then Gateway.Refused("MODEL_BUDGET_POLICY_INVALID")
    else Gateway.Completion(Gateway.FRESH, request.call, cfg.providers, replies, cfg.allowlist, cfg.policyMax).1
  }

  // -------------------------------------------------------------------- runs

  datatype Op =
    | DoBegin(request: Request, id: string, now: real, today: int)
    | DoFinish(id: string, replies: seq<Gateway.Reply>)
    | StartRun(tenant: string, runId: string)

  predicate Enabled(s: Server, cfg: Config, op: Op) {
    match op
    case DoFinish(id, replies) => id in s.inFlight && |replies| == |cfg.providers|
    case _ => true
  }

  ghost function Step(s: Server, cfg: Config, op: Op): Server
    requires Enabled(s, cfg, op)
  {
    match op
    case DoBegin(request, id, now, today) => Begin(s, cfg, request, id, now, today).0
    case DoFinish(id, replies) => Finish(s, cfg, id, replies).0
    case StartRun(tenant, runId) => s.(db := s.db.(runs := s.db.runs + {(tenant, runId)}))
  }

  ghost predicate IsRun(s: Server, cfg: Config, ops: seq<Op>)
    decreases |ops|
  {
    ops == [] || (Enabled(s, cfg, ops[0]) && IsRun(Step(s, cfg, ops[0]), cfg, ops[1..]))
  }

  ghost function After(s: Server, cfg: Config, ops: seq<Op>): Server
    requires IsRun(s, cfg, ops)
    decreases |ops|
  {
    if ops == [] then s else After(Step(s, cfg, ops[0]), cfg, ops[1..])
  }

  /** Each request in flight owns a reservation of its own maximum cost, while it is still RESERVED. */
  ghost predicate Sound(s: Server, cfg: Config) {
    && Budget.Conserved(s.db)
    && Budget.Capped(s.db, cfg.dailyLimit)
    && forall id :: id in s.inFlight ==>
         && id in s.db.rows
         && s.db.rows[id].units == s.inFlight[id].call.maxCost
         && s.db.rows[id].tenant == s.inFlight[id].call.tenant
         && !s.inFlight[id].run.Malformed?
         && Budget.RunKnown(s.db, s.inFlight[id].call.tenant, s.inFlight[id].run)
  }

  lemma {:induction false} CostWithinReservation(s: Server, cfg: Config, id: string, replies: seq<Gateway.Reply>)
    requires Sound(s, cfg) && id in s.inFlight && |replies| == |cfg.providers|
    ensures var outcome := CallGateway(cfg, s.inFlight[id], replies);
      outcome.Answered? ==> outcome.cost <= s.db.rows[id].units
  {
    Gateway.FreshCostIsBounded(s.inFlight[id].call, cfg.providers, replies, cfg.allowlist, cfg.policyMax);
  }

  lemma {:induction false} SettleKeepsRows(db: Budget.Tables, id: string, tenant: string, run: Budget.RunRef, actual: int, outcome: string)
    ensures var after := Budget.Settle(db, id, tenant, run, actual, outcome).0;
      && after.rows.Keys == db.rows.Keys && after.runs == db.runs
      && forall i :: i in db.rows ==>
           after.rows[i].units == db.rows[i].units && after.rows[i].tenant == db.rows[i].tenant
  {
  }

  lemma {:induction false} ReserveKeepsRows(db: Budget.Tables, tenant: string, task: string, units: int, limit: int,
                         run: Budget.RunRef, id: string, now: real, today: int)
    ensures var (after, result) := Budget.Reserve(db, tenant, task, units, limit, run, id, now, today);
      && after.runs == db.runs
      && (forall i :: i in db.rows ==>
            && i in after.rows
            && after.rows[i].units == db.rows[i].units && after.rows[i].tenant == db.rows[i].tenant)
      && (result.Ok? ==>
            && id in after.rows && id !in db.rows && Budget.RunKnown(db, tenant, run)
            && after.rows[id].units == units && after.rows[id].tenant == tenant)
  {
  }

  lemma {:induction false} BeginSound(s: Server, cfg: Config, request: Request, id: string, now: real, today: int)
    requires Sound(s, cfg)
    ensures Sound(Begin(s, cfg, request, id, now, today).0, cfg)
  {
    var tenant, task, units := request.call.tenant, request.call.task, request.call.maxCost;
    Budget.ReserveConserves(s.db, tenant, task, units, cfg.dailyLimit, request.run, id, now, today);
    Budget.ReserveCapped(s.db, tenant, task, units, cfg.dailyLimit, request.run, id, now, today);
    ReserveKeepsRows(s.db, tenant, task, units, cfg.dailyLimit, request.run, id, now, today);
  }

  lemma {:induction false} SettleSound(s: Server, cfg: Config, id: string, tenant: string, run: Budget.RunRef, actual: int, outcome: string)
    requires Sound(s, cfg)
    requires id in s.db.rows ==> actual <= s.db.rows[id].units
    ensures Sound(s.(db := Budget.Settle(s.db, id, tenant, run, actual, outcome).0), cfg)
  {
    Budget.SettleConserves(s.db, id, tenant, run, actual, outcome);
    Budget.SettleCapped(s.db, id, tenant, run, actual, outcome, cfg.dailyLimit);
    SettleKeepsRows(s.db, id, tenant, run, actual, outcome);
  }

  lemma {:induction false} FinishSound(s: Server, cfg: Config, id: string, replies: seq<Gateway.Reply>)
    requires Sound(s, cfg) && id in s.inFlight && |replies| == |cfg.providers|
    ensures Sound(Finish(s, cfg, id, replies).0, cfg)
  {
    CostWithinReservation(s, cfg, id, replies);
    var request := s.inFlight[id];
    var tenant, run := request.call.tenant, request.run;
    assert s.db.rows[id].units > 0;
    match CallGateway(cfg, request, replies)
    case Crashed =>
    case Answered(_, _, cost) =>
      SettleSound(s, cfg, id, tenant, run, cost, "SUCCESS");
      var after := s.(db := Budget.Settle(s.db, id, tenant, run, cost, "SUCCESS").0);
      assert id in after.inFlight && after.db.rows[id].units > 0;
      SettleSound(after, cfg, id, tenant, run, 0, "MODEL_BUDGET_RESERVATION_INVALID");
    case _ =>
      SettleSound(s, cfg, id, tenant, run, 0, "NO_APPROVED_PROVIDER");
  }

  /**
   With a constant daily limit, no interleaving of requests, provider answers, expiry
   sweeps and day changes takes reserved plus spent units of a tenant's day above it.
   */
  lemma {:induction false} DailyCapInEveryRun(s: Server, cfg: Config, ops: seq<Op>)
    requires Sound(s, cfg) && IsRun(s, cfg, ops)
    ensures Sound(After(s, cfg, ops), cfg)
    ensures forall tenant, day ::
      var book := Budget.Book(After(s, cfg, ops).db, tenant, day);
      book.reserved + book.spent <= cfg.dailyLimit
    decreases |ops|
  {
    if ops != [] {
      match ops[0] {
        case DoBegin(request, id, now, today) => BeginSound(s, cfg, request, id, now, today);
        case DoFinish(id, replies) => FinishSound(s, cfg, id, replies);
        case StartRun(tenant, runId) =>
          Budget.StepConserves(s.db, Budget.AddRun(tenant, runId));
          Budget.StepCapped(s.db, Budget.AddRun(tenant, runId), cfg.dailyLimit);
      }
      DailyCapInEveryRun(Step(s, cfg, ops[0]), cfg, ops[1..]);
    }
  }

  lemma {:induction false} EmptyServerIsSound(cfg: Config)
    requires cfg.dailyLimit >= 0
    ensures Sound(Server(Budget.EMPTY_TABLES, map[]), cfg)
  {
    Budget.EmptyIsConserved();
  }

  /** From an empty server, then, no day of any tenant ever passes the limit. */
  lemma {:induction false} DailyCapFromStart(cfg: Config, ops: seq<Op>, tenant: string, day: int)
    requires cfg.dailyLimit >= 0 && IsRun(Server(Budget.EMPTY_TABLES, map[]), cfg, ops)
    ensures var book := Budget.Book(After(Server(Budget.EMPTY_TABLES, map[]), cfg, ops).db, tenant, day);
      book.reserved + book.spent <= cfg.dailyLimit
  {
    EmptyServerIsSound(cfg);
    DailyCapInEveryRun(Server(Budget.EMPTY_TABLES, map[]), cfg, ops);
  }

  /**
   A client is answered with 200 exactly when a provider's answer was accepted and the
   reservation had not been swept meanwhile; then the day of the reservation is charged
   that cost, and in every other case no spent units change anywhere.
   */
  lemma {:induction false} ServedExactlyWhenCharged(s: Server, cfg: Config, id: string, replies: seq<Gateway.Reply>)
    requires Sound(s, cfg) && id in s.inFlight && |replies| == |cfg.providers|
    ensures var (after, response) := Finish(s, cfg, id, replies);
      var outcome := CallGateway(cfg, s.inFlight[id], replies);
      var row := s.db.rows[id];
      && (response.Served? <==> outcome.Answered? && row.status.RESERVED?)
      && (response.Served? ==>
            && response.cost == outcome.cost
            && after.db.calls[id].cost == Max0(outcome.cost)
            && Budget.Book(after.db, row.tenant, row.day).spent
               == Budget.Book(s.db, row.tenant, row.day).spent + Max0(outcome.cost))
      && (!response.Served? ==>
            forall t, d :: Budget.Book(after.db, t, d).spent == Budget.Book(s.db, t, d).spent)
  {
    var row := s.db.rows[id];
    assert id in s.db.calls <==> row.actual.Some?;
    assert (row.tenant, row.day) in s.db.daily;
  }

  // --------------------------------------------------------- request by request

  /**
   A request is in flight exactly when its reservation was made, which then is open under its
   id with its maximum cost; any other is answered at once and leaves the server as it was.
   */
  lemma {:induction false} InFlightExactlyWhenReserved(s: Server, cfg: Config, request: Request, id: string, now: real, today: int)
    requires Sound(s, cfg)
    ensures var (after, response) := Begin(s, cfg, request, id, now, today);
      && (response == None ==>
            && !request.run.Malformed? && after.inFlight == s.inFlight[id := request]
            && id !in s.db.rows && id in after.db.rows
            && after.db.rows[id].status == Budget.RESERVED && after.db.rows[id].tenant == request.call.tenant
            && after.db.rows[id].task == request.call.task
            && after.db.rows[id].units == request.call.maxCost && after.db.rows[id].expires == now + 120.0)
      && (response != None ==> after == s && response.value in {Unavailable, InternalError})
      && (response == Some(InternalError) ==> id in s.db.rows)
      && (response == None <==>
            && !request.run.Malformed? && request.call.maxCost >= 1 && id !in s.db.rows
            && (request.run.Uuid? ==> (request.call.tenant, request.run.id) in s.db.runs)
            && Total(Budget.LiveRows(s.db.rows, request.call.tenant, today, now))
               + Budget.Book(s.db, request.call.tenant, today).spent + request.call.maxCost <= cfg.dailyLimit)
  {
    var tenant, task, units := request.call.tenant, request.call.task, request.call.maxCost;
    Budget.ReserveRefusal(s.db, tenant, task, units, cfg.dailyLimit, request.run, id, now, today);
    Budget.ReserveWrites(s.db, tenant, task, units, cfg.dailyLimit, request.run, id, now, today);
    Budget.ClampsAreIdle(s.db, tenant, today, now, id);
    Budget.SpentIsNonNegative(s.db, tenant, today);
  }

  predicate NotFinished(ops: seq<Op>, id: string) {
    forall i :: 0 <= i < |ops| && ops[i].DoFinish? ==> ops[i].id != id
  }

  /** It stays in flight, unchanged, whatever else happens, until it is finished. */
  lemma {:induction false} InFlightUntilFinished(s: Server, cfg: Config, ops: seq<Op>, id: string)
    requires Sound(s, cfg) && IsRun(s, cfg, ops) && id in s.inFlight && NotFinished(ops, id)
    ensures var after := After(s, cfg, ops); id in after.inFlight && after.inFlight[id] == s.inFlight[id]
    decreases |ops|
  {
    if ops != [] {
      DailyCapInEveryRun(s, cfg, [ops[0]]);
      assert [ops[0]][1..] == [];
      assert After(s, cfg, [ops[0]]) == Step(s, cfg, ops[0]);
      StaysInFlight(s, cfg, ops[0], id);
      InFlightUntilFinished(Step(s, cfg, ops[0]), cfg, ops[1..], id);
    }
  }

  lemma {:induction false} StaysInFlight(s: Server, cfg: Config, op: Op, id: string)
    requires Sound(s, cfg) && Enabled(s, cfg, op) && id in s.inFlight && (op.DoFinish? ==> op.id != id)
    ensures var after := Step(s, cfg, op); id in after.inFlight && after.inFlight[id] == s.inFlight[id]
  {
    match op
    case DoBegin(request, i, now, today) => InFlightExactlyWhenReserved(s, cfg, request, i, now, today);
    case DoFinish(i, replies) =>
    case StartRun(tenant, runId) =>
  }

  /** How a request in flight ends: what the client gets, and how its reservation is left. */
  lemma {:induction false} FinishEnds(s: Server, cfg: Config, id: string, replies: seq<Gateway.Reply>)
    requires Sound(s, cfg) && id in s.inFlight && |replies| == |cfg.providers|
    ensures var (after, response) := Finish(s, cfg, id, replies);
      var outcome := CallGateway(cfg, s.inFlight[id], replies);
      var open := s.db.rows[id].status == Budget.RESERVED;
      && after.inFlight == s.inFlight - {id}
      && response == (if outcome.Answered? && open then Served(outcome.cost)
                      else if (outcome.Refused? || outcome.NoApprovedProvider?) && open then Unavailable
                      else InternalError)
      && id in after.db.rows
      && (response.Served? ==> after.db.rows[id].status == Budget.SETTLED && after.db.rows[id].actual == Some(Max0(outcome.cost)))
      && (response == Unavailable ==> after.db.rows[id].status == Budget.RELEASED && after.db.rows[id].actual == Some(0))
      && (response == InternalError ==> after.db == s.db)
  {
    var request := s.inFlight[id];
    Budget.SettleWrites(s.db, id, request.call.tenant, request.run, 0, "NO_APPROVED_PROVIDER");
    match CallGateway(cfg, request, replies)
    case Answered(_, _, cost) => Budget.SettleWrites(s.db, id, request.call.tenant, request.run, cost, "SUCCESS");
    case _ =>
  }

  /**
   What a request costs is what one of the configured providers asked for an output with every
   field of the schema, at most the request's own maximum; each request starts with nothing
   spent and every provider healthy.
   */
  lemma {:induction false} AnswersComeFromProviders(cfg: Config, request: Request, replies: seq<Gateway.Reply>)
    requires |replies| == |cfg.providers|
    ensures var outcome := CallGateway(cfg, request, replies);
      && (cfg.policyMax < 1 ==> outcome == Gateway.Refused("MODEL_BUDGET_POLICY_INVALID"))
      && (outcome.Answered? ==>
            && 1 <= request.call.maxCost <= cfg.policyMax
            && exists k :: 0 <= k < |cfg.providers| && cfg.providers[k] == Gateway.Provider(outcome.provider, outcome.model)
                 && (request.call.restricted ==> outcome.provider in cfg.allowlist)
                 && Gateway.Fits(replies[k], request.call, request.call.maxCost) && replies[k].cost == outcome.cost)
  {
    var (policyMax, call) := (cfg.policyMax, request.call);
    if 1 <= call.maxCost <= policyMax && call.maxCost >= call.promptBytes + 64 + 16 {
      Gateway.AnswerIsEarned(Gateway.FRESH, call, cfg.providers, replies, cfg.allowlist, policyMax);
    } else {
      Gateway.RefusedBeforeAnyProvider(Gateway.FRESH, call, cfg.providers, replies, cfg.allowlist, policyMax);
    }
  }
}
