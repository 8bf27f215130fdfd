/**
 Daily model budget of services/model_gateway/app/postgres_usage.py.

 A transaction is a function from the tables to the tables and a result; an error
 is a rollback. `Budget.Repository` performs the same transactions statement by
 statement on its own table fields and is proved equal to those functions.
 */
module Budget {
  import opened Common
  import opened Sums

  datatype Status = RESERVED | SETTLED | RELEASED

  datatype Reservation = Reservation(
    tenant: string, day: int, task: string, units: int,
    actual: Option<int>, status: Status, expires: real)

  datatype Daily = Daily(reserved: int, spent: int)

  datatype ModelCall = ModelCall(tenant: string, run: Option<string>, cost: int, outcome: string)

  datatype Tables = Tables(
    daily: map<(string, int), Daily>,
    rows: map<string, Reservation>,
    runs: set<(string, string)>,
    calls: map<string, ModelCall>)

  datatype Error = DailyBudgetExceeded | RunNotFound | RunIdInvalid | ReservationInvalid | ConstraintViolation

  /** The optional run reference of a request: absent, a UUID, or text that is none. */
  datatype RunRef = NoRun | Uuid(id: string) | Malformed(text: string)

  const LEASE_SECONDS := 120.0
  const EMPTY_TABLES := Tables(map[], map[], {}, map[])

  // ---------------------------------------------------------------- reserve

  predicate Expired(r: Reservation, tenant: string, today: int, now: real) {
    r.tenant == tenant && r.day == today && r.status.RESERVED? && r.expires <= now
  }

  function ExpiredRows(rows: map<string, Reservation>, tenant: string, today: int, now: real): map<string, int> {
    map id | id in rows && Expired(rows[id], tenant, today, now) :: rows[id].units
  }

  function Swept(rows: map<string, Reservation>, tenant: string, today: int, now: real): map<string, Reservation> {
    map id | id in rows ::
      if Expired(rows[id], tenant, today, now) then rows[id].(status := RELEASED) else rows[id]
  }

  function Book(db: Tables, tenant: string, day: int): Daily {
    if (tenant, day) in db.daily then db.daily[(tenant, day)] else Daily(0, 0)
  }

  predicate RunKnown(db: Tables, tenant: string, run: RunRef) {
    match run
    case NoRun => true
    case Uuid(id) => (tenant, id) in db.runs
    case Malformed(text) => text == "" || (tenant, text) in db.runs
  }

  ghost function Reserve(db: Tables, tenant: string, task: string, units: int, limit: int, run: RunRef,
                         id: string, now: real, today: int): (Tables, Result<string, Error>)
  {
    if units < 1 || limit < 1 || units > limit then (db, Err(DailyBudgetExceeded))
    else if !RunKnown(db, tenant, run) then (db, Err(RunNotFound))
    else
      var book := Book(db, tenant, today);
      var reserved := Max0(book.reserved - Total(ExpiredRows(db.rows, tenant, today, now)));
      if reserved + book.spent + units > limit then (db, Err(DailyBudgetExceeded))
      else if id in db.rows then (db, Err(ConstraintViolation))
      else
        var row := Reservation(tenant, today, task, units, None, RESERVED, now + LEASE_SECONDS);
        (db.(daily := db.daily[(tenant, today) := Daily(reserved + units, book.spent)],
             rows := Swept(db.rows, tenant, today, now)[id := row]),
         Ok(id))
  }

  // ----------------------------------------------------------------- settle

  function Settle(db: Tables, id: string, tenant: string, run: RunRef, actual: int, outcome: string)
    : (Tables, Result<string, Error>)
  {
    if run.Malformed? && run.text != "" then (db, Err(RunIdInvalid))
    else if id !in db.rows || db.rows[id].tenant != tenant || !db.rows[id].status.RESERVED? then
      (db, Err(ReservationInvalid))
    else
      var row := db.rows[id];
      var charged := Max0(actual);
      var key := (tenant, row.day);
      var callRun := if run.Uuid? then Some(run.id) else None;
      if id in db.calls || (callRun.Some? && (tenant, callRun.value) !in db.runs) then
        (db, Err(ConstraintViolation))
      else
        var daily :=
          if key in db.daily
          then db.daily[key := Daily(Max0(db.daily[key].reserved - row.units), db.daily[key].spent + charged)]
          else db.daily;
        var status := if outcome == "SUCCESS" then SETTLED else RELEASED;
        (db.(daily := daily,
             rows := db.rows[id := row.(actual := Some(charged), status := status)],
             calls := db.calls[id := ModelCall(tenant, callRun, charged, outcome)]),
         Ok(id))
  }

  // ------------------------------------------------------------- invariants

  function OpenRows(rows: map<string, Reservation>, tenant: string, day: int): map<string, int> {
    map id | id in rows && rows[id].tenant == tenant && rows[id].day == day && rows[id].status.RESERVED? :: rows[id].units
  }

  function ChargedRows(rows: map<string, Reservation>, tenant: string, day: int): map<string, int> {
    map id | id in rows && rows[id].tenant == tenant && rows[id].day == day && rows[id].actual.Some? :: rows[id].actual.value
  }

  /** Reservations of the day that are still RESERVED and not yet past their expiry. */
  function LiveRows(rows: map<string, Reservation>, tenant: string, today: int, now: real): map<string, int> {
    map id | id in rows && rows[id].tenant == tenant && rows[id].day == today && rows[id].status.RESERVED?
             && rows[id].expires > now :: rows[id].units
  }

  predicate RowsOk(rows: map<string, Reservation>) {
    forall id :: id in rows ==>
      && rows[id].units > 0
      && (rows[id].status.RESERVED? ==> rows[id].actual.None?)
      && (rows[id].status.SETTLED? ==> rows[id].actual.Some?)
      && (rows[id].actual.Some? ==> rows[id].actual.value >= 0)
  }

  ghost predicate CallsOk(db: Tables) {
    && (forall id :: id in db.calls <==> id in db.rows && db.rows[id].actual.Some?)
    && (forall id :: id in db.calls ==>
          && db.calls[id].cost == db.rows[id].actual.value && db.calls[id].tenant == db.rows[id].tenant
          && (db.calls[id].outcome == "SUCCESS" <==> db.rows[id].status == SETTLED)
          && (db.calls[id].outcome != "SUCCESS" <==> db.rows[id].status == RELEASED))
  }

  /** A daily counter is exactly the sum over the reservation rows it summarises. */
  ghost predicate Balanced(db: Tables, tenant: string, day: int) {
    Book(db, tenant, day) == Daily(Total(OpenRows(db.rows, tenant, day)), Total(ChargedRows(db.rows, tenant, day)))
  }

  ghost predicate BooksBalance(db: Tables) {
    forall tenant, day :: Balanced(db, tenant, day)
  }

  predicate RowsBooked(db: Tables) {
    forall id :: id in db.rows ==> (db.rows[id].tenant, db.rows[id].day) in db.daily
  }

  ghost predicate Conserved(db: Tables) {
    RowsOk(db.rows) && CallsOk(db) && RowsBooked(db) && BooksBalance(db)
  }

  // ------------------------------------------------------ sums under updates

  lemma {:induction false} SweepSums(rows: map<string, Reservation>, tenant: string, today: int, now: real)
    requires RowsOk(rows)
    ensures Total(OpenRows(Swept(rows, tenant, today, now), tenant, today)) == Total(LiveRows(rows, tenant, today, now))
    ensures Total(OpenRows(rows, tenant, today))
         == Total(LiveRows(rows, tenant, today, now)) + Total(ExpiredRows(rows, tenant, today, now))
  {
    var open := OpenRows(rows, tenant, today);
    var expired := ExpiredRows(rows, tenant, today, now);
    var live := LiveRows(rows, tenant, today, now);
    TotalSplit(open, expired.Keys);
    assert open - expired.Keys == live;
    assert Part(open, expired.Keys) == expired;
    assert OpenRows(Swept(rows, tenant, today, now), tenant, today) == live;
  }

  lemma {:induction false} SweepElsewhere(rows: map<string, Reservation>, tenant: string, today: int, now: real, t: string, d: int)
    requires RowsOk(rows)
    ensures (t, d) != (tenant, today) ==> OpenRows(Swept(rows, tenant, today, now), t, d) == OpenRows(rows, t, d)
    ensures ChargedRows(Swept(rows, tenant, today, now), t, d) == ChargedRows(rows, t, d)
  {
  }

  /** Replacing or adding one row changes only the sums of that row's own tenant and day. */
  lemma {:induction false} InsertSums(rows: map<string, Reservation>, id: string, row: Reservation, t: string, d: int)
    requires id !in rows && row.status.RESERVED? && row.actual.None?
    ensures Total(OpenRows(rows[id := row], t, d))
         == Total(OpenRows(rows, t, d)) + (if (row.tenant, row.day) == (t, d) then row.units else 0)
    ensures ChargedRows(rows[id := row], t, d) == ChargedRows(rows, t, d)
  {
    if (row.tenant, row.day) == (t, d) {
      assert OpenRows(rows[id := row], t, d) == OpenRows(rows, t, d)[id := row.units];
      TotalInsert(OpenRows(rows, t, d), id, row.units);
    } else {
      assert OpenRows(rows[id := row], t, d) == OpenRows(rows, t, d);
    }
  }

  lemma {:induction false} SettleSums(rows: map<string, Reservation>, id: string, charged: int, status: Status, t: string, d: int)
    requires id in rows && rows[id].status.RESERVED? && rows[id].actual.None? && !status.RESERVED?
    ensures var after := rows[id := rows[id].(actual := Some(charged), status := status)];
      var here := (rows[id].tenant, rows[id].day) == (t, d);
      && Total(OpenRows(after, t, d)) == Total(OpenRows(rows, t, d)) - (if here then rows[id].units else 0)
      && Total(ChargedRows(after, t, d)) == Total(ChargedRows(rows, t, d)) + (if here then charged else 0)
  {
    var after := rows[id := rows[id].(actual := Some(charged), status := status)];
    if (rows[id].tenant, rows[id].day) == (t, d) {
      TotalRemove(OpenRows(rows, t, d), id);
      assert OpenRows(after, t, d) == OpenRows(rows, t, d) - {id};
      assert ChargedRows(after, t, d) == ChargedRows(rows, t, d)[id := charged];
      TotalInsert(ChargedRows(rows, t, d), id, charged);
    } else {
      assert OpenRows(after, t, d) == OpenRows(rows, t, d);
      assert ChargedRows(after, t, d) == ChargedRows(rows, t, d);
    }
  }

  // -------------------------------------------------------- one transaction

  /** The clamp in the expiry sweep and the one in settle never change a value. */
  lemma {:induction false} ClampsAreIdle(db: Tables, tenant: string, today: int, now: real, id: string)
    requires Conserved(db)
    ensures Book(db, tenant, today).reserved - Total(ExpiredRows(db.rows, tenant, today, now))
         == Total(LiveRows(db.rows, tenant, today, now)) >= 0
    ensures id in db.rows && db.rows[id].status.RESERVED? ==>
              Book(db, db.rows[id].tenant, db.rows[id].day).reserved - db.rows[id].units >= 0
  {
    SweepSums(db.rows, tenant, today, now);
    TotalNonNegative(LiveRows(db.rows, tenant, today, now));
    assert Balanced(db, tenant, today);
    if id in db.rows && db.rows[id].status.RESERVED? {
      assert Balanced(db, db.rows[id].tenant, db.rows[id].day);
      var open := OpenRows(db.rows, db.rows[id].tenant, db.rows[id].day);
      TotalRemove(open, id);
      TotalNonNegative(open - {id});
    }
  }

  /**
   A reservation with an acceptable run and a fresh id succeeds exactly when the live
   reservations of the day, the units spent that day and the new units fit the limit.
   Any refusal leaves every table as it was, the expiry sweep included.
   */
  lemma {:induction false} AdmissionIsExact(db: Tables, tenant: string, task: string, units: int, limit: int, run: RunRef,
                         id: string, now: real, today: int)
    requires Conserved(db) && id !in db.rows
    ensures var (after, result) := Reserve(db, tenant, task, units, limit, run, id, now, today);
      && (result.Ok? <==>
            && units >= 1 && RunKnown(db, tenant, run)
            && Total(LiveRows(db.rows, tenant, today, now)) + Total(ChargedRows(db.rows, tenant, today)) + units <= limit)
      && (result.Err? ==> after == db)
      && (result.Ok? ==> forall t, d :: (t, d) != (tenant, today) ==> Book(after, t, d) == Book(db, t, d))
  {
    ClampsAreIdle(db, tenant, today, now, id);
    TotalNonNegative(ChargedRows(db.rows, tenant, today));
    assert Balanced(db, tenant, today);
  }

  /** Sweeping and then adding a row, in sums: its own day has what is live plus the row, any other is as before. */
  lemma {:induction false} SweptInsertSums(rows: map<string, Reservation>, tenant: string, today: int, now: real,
                            id: string, row: Reservation, t: string, d: int)
    requires RowsOk(rows) && id !in rows && row.status.RESERVED? && row.actual.None? && (row.tenant, row.day) == (tenant, today)
    ensures var after := Swept(rows, tenant, today, now)[id := row];
      && Total(OpenRows(after, t, d))
         == (if (t, d) == (tenant, today) then Total(LiveRows(rows, tenant, today, now)) + row.units else Total(OpenRows(rows, t, d)))
      && ChargedRows(after, t, d) == ChargedRows(rows, t, d)
  {
    SweepSums(rows, tenant, today, now);
    SweepElsewhere(rows, tenant, today, now, t, d);
    InsertSums(Swept(rows, tenant, today, now), id, row, t, d);
  }

  lemma {:induction false} ReserveBalances(db: Tables, tenant: string, task: string, units: int, limit: int, run: RunRef,
                        id: string, now: real, today: int, t: string, d: int)
    requires Conserved(db) && Reserve(db, tenant, task, units, limit, run, id, now, today).1.Ok?
    ensures Balanced(Reserve(db, tenant, task, units, limit, run, id, now, today).0, t, d)
  {
    ClampsAreIdle(db, tenant, today, now, id);
    SweptInsertSums(db.rows, tenant, today, now, id, Reservation(tenant, today, task, units, None, RESERVED, now + LEASE_SECONDS), t, d);
    assert Balanced(db, t, d);
  }

  lemma {:induction false} SweptRows(db: Tables, tenant: string, today: int, now: real)
    requires RowsOk(db.rows) && CallsOk(db) && RowsBooked(db)
    ensures var after := db.(rows := Swept(db.rows, tenant, today, now));
      RowsOk(after.rows) && CallsOk(after) && RowsBooked(after)
  {
  }

  lemma {:induction false} AddedRow(db: Tables, id: string, row: Reservation, book: Daily)
    requires RowsOk(db.rows) && CallsOk(db) && RowsBooked(db)
    requires id !in db.rows && row.units > 0 && row.status.RESERVED? && row.actual.None?
    ensures var after := db.(rows := db.rows[id := row], daily := db.daily[(row.tenant, row.day) := book]);
      RowsOk(after.rows) && CallsOk(after) && RowsBooked(after)
  {
  }

  lemma {:induction false} ReserveRows(db: Tables, tenant: string, task: string, units: int, limit: int, run: RunRef,
                        id: string, now: real, today: int)
    requires Conserved(db)
    ensures var after := Reserve(db, tenant, task, units, limit, run, id, now, today).0;
      RowsOk(after.rows) && CallsOk(after) && RowsBooked(after)
  {
    var (after, result) := Reserve(db, tenant, task, units, limit, run, id, now, today);
    if result.Ok? {
      SweptRows(db, tenant, today, now);
      AddedRow(db.(rows := Swept(db.rows, tenant, today, now)), id, after.rows[id], after.daily[(tenant, today)]);
    }
  }

  lemma {:induction false} ReserveConserves(db: Tables, tenant: string, task: string, units: int, limit: int, run: RunRef,
                         id: string, now: real, today: int)
    requires Conserved(db)
    ensures Conserved(Reserve(db, tenant, task, units, limit, run, id, now, today).0)
  {
    var (after, result) := Reserve(db, tenant, task, units, limit, run, id, now, today);
    ReserveRows(db, tenant, task, units, limit, run, id, now, today);
    if result.Ok? {
      forall t, d
        ensures Balanced(after, t, d)
      {
        ReserveBalances(db, tenant, task, units, limit, run, id, now, today, t, d);
      }
    }
  }

  lemma {:induction false} SettleBalances(db: Tables, id: string, tenant: string, run: RunRef, actual: int, outcome: string, t: string, d: int)
    requires Conserved(db) && Settle(db, id, tenant, run, actual, outcome).1.Ok?
    ensures Balanced(Settle(db, id, tenant, run, actual, outcome).0, t, d)
  {
    var row := db.rows[id];
    ClampsAreIdle(db, row.tenant, row.day, 0.0, id);
    SettleSums(db.rows, id, Max0(actual), if outcome == "SUCCESS" then SETTLED else RELEASED, t, d);
    assert Balanced(db, t, d);
  }

  lemma {:induction false} SettleRows(db: Tables, id: string, tenant: string, run: RunRef, actual: int, outcome: string)
    requires Conserved(db)
    ensures var after := Settle(db, id, tenant, run, actual, outcome).0;
      RowsOk(after.rows) && CallsOk(after) && RowsBooked(after)
  {
  }

  lemma {:induction false} SettleConserves(db: Tables, id: string, tenant: string, run: RunRef, actual: int, outcome: string)
    requires Conserved(db)
    ensures Conserved(Settle(db, id, tenant, run, actual, outcome).0)
  {
    var (after, result) := Settle(db, id, tenant, run, actual, outcome);
    SettleRows(db, id, tenant, run, actual, outcome);
    if result.Ok? {
      forall t, d
        ensures Balanced(after, t, d)
      {
        SettleBalances(db, id, tenant, run, actual, outcome, t, d);
      }
    }
  }

  // ------------------------------------------------- what each one writes

  /**
   What a reservation that succeeds writes: its own row, open for two minutes, on a day's
   counter of what is live and spent; the expired rows of that tenant and day are released,
   and every other row, call and run stays as it was.
   */
  lemma {:induction false} ReserveWrites(db: Tables, tenant: string, task: string, units: int, limit: int, run: RunRef,
                       id: string, now: real, today: int)
    requires Conserved(db)
    ensures var (after, result) := Reserve(db, tenant, task, units, limit, run, id, now, today);
      result.Ok? ==>
        && result.value == id && id !in db.rows && after.rows.Keys == db.rows.Keys + {id}
        && after.rows[id] == Reservation(tenant, today, task, units, None, RESERVED, now + 120.0)
        && (forall i :: i in db.rows ==>
              var row := db.rows[i];
              after.rows[i]
                == if row.tenant == tenant && row.day == today && row.status == RESERVED && row.expires <= now
                   then row.(status := RELEASED) else row)
        && (after.runs, after.calls) == (db.runs, db.calls)
        && Book(after, tenant, today)
           == Daily(Total(LiveRows(db.rows, tenant, today, now)) + units, Book(db, tenant, today).spent)
  {
    ClampsAreIdle(db, tenant, today, now, id);
  }

  lemma {:induction false} SpentIsNonNegative(db: Tables, tenant: string, day: int)
    requires Conserved(db)
    ensures Book(db, tenant, day).spent >= 0
  {
    assert Balanced(db, tenant, day);
    TotalNonNegative(ChargedRows(db.rows, tenant, day));
  }

  /** Which error a refused reservation ends in. */
  lemma {:induction false} ReserveRefusal(db: Tables, tenant: string, task: string, units: int, limit: int, run: RunRef,
                        id: string, now: real, today: int)
    requires Conserved(db)
    ensures var result := Reserve(db, tenant, task, units, limit, run, id, now, today).1;
      var unknown := match run
                     case NoRun => false
                     case Uuid(runId) => (tenant, runId) !in db.runs
                     case Malformed(text) => text != "" && (tenant, text) !in db.runs;
      var full := Total(LiveRows(db.rows, tenant, today, now)) + Book(db, tenant, today).spent + units > limit;
      result == if units < 1 || limit < 1 || units > limit then Err(DailyBudgetExceeded)
                else if unknown then Err(RunNotFound)
                else if full then Err(DailyBudgetExceeded)
                else if id in db.rows then Err(ConstraintViolation)
                else Ok(id)
  {
    ClampsAreIdle(db, tenant, today, now, id);
  }

  /**
   Settling succeeds exactly for an open reservation of the tenant whose run, if given, is
   known; it then closes that row, as settled after a success and as released after anything
   else, records one call with the charge, and moves the day's counter by the row's units and
   the charge. Otherwise nothing changes.
   */
  lemma {:induction false} SettleWrites(db: Tables, id: string, tenant: string, run: RunRef, actual: int, outcome: string)
    requires Conserved(db)
    ensures var (after, result) := Settle(db, id, tenant, run, actual, outcome);
      var misnamed := run.Malformed? && run.text != "";
      var open := id in db.rows && db.rows[id].tenant == tenant && db.rows[id].status == RESERVED;
      var charged := if actual > 0 then actual else 0;
      && result == (if misnamed then Err(RunIdInvalid)
                    else if !open then Err(ReservationInvalid)
                    else if run.Uuid? && (tenant, run.id) !in db.runs then Err(ConstraintViolation)
                    else Ok(id))
      && (result.Err? ==> after == db)
      && (result.Ok? ==>
            var row := db.rows[id];
            && after.rows == db.rows[id := row.(actual := Some(charged),
                                                status := if outcome == "SUCCESS" then SETTLED else RELEASED)]
            && after.calls == db.calls[id := ModelCall(tenant, if run.Uuid? then Some(run.id) else None, charged, outcome)]
            && after.runs == db.runs
            && Book(after, tenant, row.day)
               == Daily(Book(db, tenant, row.day).reserved - row.units, Book(db, tenant, row.day).spent + charged)
            && forall t, d :: (t, d) != (tenant, row.day) ==> Book(after, t, d) == Book(db, t, d))
  {
    ClampsAreIdle(db, tenant, 0, 0.0, id);
  }

  // --------------------------------------------------------------- all runs

  datatype Op =
    | DoReserve(tenant: string, task: string, units: int, limit: int, run: RunRef, id: string, now: real, today: int)
    | DoSettle(id: string, tenant: string, run: RunRef, actual: int, outcome: string)
    | AddRun(tenant: string, runId: string)

  ghost function Step(db: Tables, op: Op): Tables {
    match op
    case DoReserve(tenant, task, units, limit, run, id, now, today) =>
      Reserve(db, tenant, task, units, limit, run, id, now, today).0
    case DoSettle(id, tenant, run, actual, outcome) => Settle(db, id, tenant, run, actual, outcome).0
    case AddRun(tenant, runId) => db.(runs := db.runs + {(tenant, runId)})
  }

  ghost function After(db: Tables, ops: seq<Op>): Tables
    decreases |ops|
  {
    if ops == [] then db else After(Step(db, ops[0]), ops[1..])
  }

  lemma {:induction false} StepConserves(db: Tables, op: Op)
    requires Conserved(db)
    ensures Conserved(Step(db, op))
  {
    match op
    case DoReserve(tenant, task, units, limit, run, id, now, today) =>
      ReserveConserves(db, tenant, task, units, limit, run, id, now, today);
    case DoSettle(id, tenant, run, actual, outcome) => SettleConserves(db, id, tenant, run, actual, outcome);
    case AddRun(tenant, runId) =>
      forall t, d
        ensures Balanced(Step(db, op), t, d)
      {
        assert Balanced(db, t, d);
      }
  }

  /** Whatever the interleaving of reserves, settles and sweeps, across any days and tenants. */
  lemma {:induction false} ConservedInEveryRun(db: Tables, ops: seq<Op>)
    requires Conserved(db)
    ensures Conserved(After(db, ops))
    decreases |ops|
  {
    if ops != [] {
      StepConserves(db, ops[0]);
      ConservedInEveryRun(Step(db, ops[0]), ops[1..]);
    }
  }

  lemma {:induction false} StepKeepsClosed(db: Tables, op: Op, id: string)
    requires Conserved(db) && id in db.rows && !db.rows[id].status.RESERVED?
    ensures var after := Step(db, op);
      && id in after.rows && after.rows[id] == db.rows[id]
      && (id in db.calls ==> id in after.calls && after.calls[id] == db.calls[id])
      && (id in after.calls ==> id in db.calls)
  {
    match op
    case DoReserve(tenant, task, units, limit, run, i, now, today) =>
      assert Swept(db.rows, tenant, today, now)[id] == db.rows[id];
    case DoSettle(i, tenant, run, actual, outcome) =>
    case AddRun(tenant, runId) =>
  }

  /** Once settled or swept, a reservation and the call it paid for never change again. */
  lemma {:induction false} ClosedRowsNeverChange(db: Tables, ops: seq<Op>, id: string)
    requires Conserved(db) && id in db.rows && !db.rows[id].status.RESERVED?
    ensures var after := After(db, ops);
      && id in after.rows && after.rows[id] == db.rows[id]
      && (id in after.calls <==> id in db.calls)
      && (id in db.calls ==> after.calls[id] == db.calls[id])
    decreases |ops|
  {
    if ops != [] {
      StepConserves(db, ops[0]);
      StepKeepsClosed(db, ops[0], id);
      ClosedRowsNeverChange(Step(db, ops[0]), ops[1..], id);
    }
  }

  lemma {:induction false} EmptyIsConserved()
    ensures Conserved(EMPTY_TABLES)
  {
    forall t, d
      ensures Balanced(EMPTY_TABLES, t, d)
    {
      assert OpenRows(map[], t, d) == map[] && ChargedRows(map[], t, d) == map[];
    }
  }

  // -------------------------------------------------------------- daily cap

  ghost predicate Capped(db: Tables, limit: int) {
    forall tenant, day :: Book(db, tenant, day).reserved + Book(db, tenant, day).spent <= limit
  }

  /** What the cap needs of a step: the constant limit, and charges within the reservation. */
  predicate WithinLimit(db: Tables, op: Op, limit: int) {
    match op
    case DoReserve(_, _, _, l, _, _, _, _) => l == limit
    case DoSettle(id, _, _, actual, _) => id in db.rows ==> actual <= db.rows[id].units
    case AddRun(_, _) => true
  }

  lemma {:induction false} ReserveCapped(db: Tables, tenant: string, task: string, units: int, limit: int, run: RunRef,
                      id: string, now: real, today: int)
    requires Capped(db, limit)
    ensures Capped(Reserve(db, tenant, task, units, limit, run, id, now, today).0, limit)
  {
    var after := Reserve(db, tenant, task, units, limit, run, id, now, today).0;
    forall t, d
      ensures Book(after, t, d).reserved + Book(after, t, d).spent <= limit
    {
      assert Book(db, t, d).reserved + Book(db, t, d).spent <= limit;
    }
  }

  lemma {:induction false} SettleCapped(db: Tables, id: string, tenant: string, run: RunRef, actual: int, outcome: string, limit: int)
    requires Conserved(db) && Capped(db, limit)
    requires id in db.rows ==> actual <= db.rows[id].units
    ensures Capped(Settle(db, id, tenant, run, actual, outcome).0, limit)
  {
    var after := Settle(db, id, tenant, run, actual, outcome).0;
    if id in db.rows && db.rows[id].status.RESERVED? {
      ClampsAreIdle(db, "", 0, 0.0, id);
      assert db.rows[id].units > 0;
    }
    forall t, d
      ensures Book(after, t, d).reserved + Book(after, t, d).spent <= limit
    {
      assert Book(db, t, d).reserved + Book(db, t, d).spent <= limit;
    }
  }

  lemma {:induction false} StepCapped(db: Tables, op: Op, limit: int)
    requires Conserved(db) && Capped(db, limit) && WithinLimit(db, op, limit)
    ensures Capped(Step(db, op), limit)
  {
    match op
    case DoReserve(tenant, task, units, _, run, id, now, today) =>
      ReserveCapped(db, tenant, task, units, limit, run, id, now, today);
    case DoSettle(id, tenant, run, actual, outcome) => SettleCapped(db, id, tenant, run, actual, outcome, limit);
    case AddRun(tenant, runId) =>
      forall t, d
        ensures Book(Step(db, op), t, d).reserved + Book(Step(db, op), t, d).spent <= limit
      {
        assert Book(Step(db, op), t, d) == Book(db, t, d);
      }
  }

  // ------------------------------------------------------------- repository

  /** `PostgresModelUsageRepository`, one method per transaction, on its own tables. */
  class Repository {
    var daily: map<(string, int), Daily>
    var rows: map<string, Reservation>
    var runs: set<(string, string)>
    var calls: map<string, ModelCall>

    function Db(): Tables
      reads this
    {
      Tables(daily, rows, runs, calls)
    }

    constructor ()
      ensures Db() == EMPTY_TABLES
    {
      daily, rows, runs, calls := map[], map[], {}, map[];
    }

    static method SumUnits(expired: map<string, int>) returns (sum: int)
      ensures sum == Total(expired)
    {
      sum := 0;
      var left := expired;
      while left.Keys != {}
        invariant sum + Total(left) == Total(expired)
        decreases |left.Keys|
      {
        var id :| id in left.Keys;
        TotalRemove(left, id);
        sum := sum + left[id];
        assert (left - {id}).Keys == left.Keys - {id};
        left := left - {id};
      }
    }

    method DoReserve(tenant: string, task: string, units: int, limit: int, run: RunRef,
                     id: string, now: real, today: int) returns (r: Result<string, Error>)
      modifies this
      ensures (Db(), r) == Reserve(old(Db()), tenant, task, units, limit, run, id, now, today)
    {
      if units < 1 || limit < 1 || units > limit {
        return Err(DailyBudgetExceeded);
      }
      if run.Uuid? && (tenant, run.id) !in runs {
        return Err(RunNotFound);
      }
      if run.Malformed? && run.text != "" && (tenant, run.text) !in runs {
        return Err(RunNotFound);
      }
      var expiredRows := map i | i in rows && Expired(rows[i], tenant, today, now) :: rows[i].units;
      assert expiredRows == ExpiredRows(rows, tenant, today, now);
      var expired := SumUnits(expiredRows);
      // The transaction works on a copy; only a commit writes the tables back.
      var key := (tenant, today);
      var newDaily := if key in daily then daily else daily[key := Daily(0, 0)];
      newDaily := newDaily[key := newDaily[key].(reserved := Max0(newDaily[key].reserved - expired))];
      var newRows := map i | i in rows ::
        if Expired(rows[i], tenant, today, now) then rows[i].(status := RELEASED) else rows[i];
      var reserved, spent := newDaily[key].reserved, newDaily[key].spent;
      if reserved + spent + units > limit {
        return Err(DailyBudgetExceeded);
      }
      newDaily := newDaily[key := newDaily[key].(reserved := newDaily[key].reserved + units)];
      if id in newRows {
        return Err(ConstraintViolation);
      }
      newRows := newRows[id := Reservation(tenant, today, task, units, None, RESERVED, now + LEASE_SECONDS)];
      assert newDaily == daily[key := Daily(reserved + units, spent)];
      daily, rows := newDaily, newRows;
      r := Ok(id);
    }

    method DoSettle(id: string, tenant: string, run: RunRef, actual: int, outcome: string)
      returns (r: Result<string, Error>)
      modifies this
      ensures (Db(), r) == Settle(old(Db()), id, tenant, run, actual, outcome)
    {
      var callRun := None;
      match run {
        case NoRun =>
        case Uuid(runId) => callRun := Some(runId);
        case Malformed(text) =>
          if text != "" {
            return Err(RunIdInvalid);
          }
      }
      if id !in rows || rows[id].tenant != tenant || rows[id].status != RESERVED {
        return Err(ReservationInvalid);
      }
      var row := rows[id];
      var charged := if actual > 0 then actual else 0;
      var newDaily := daily;
      var key := (tenant, row.day);
      if key in newDaily {
        newDaily := newDaily[key := Daily(Max0(newDaily[key].reserved - row.units), newDaily[key].spent + charged)];
      }
      var newRows := rows[id := row.(actual := Some(charged), status := if outcome == "SUCCESS" then SETTLED else RELEASED)];
      if id in calls || (callRun.Some? && (tenant, callRun.value) !in runs) {
        return Err(ConstraintViolation);
      }
      daily, rows := newDaily, newRows;
      calls := calls[id := ModelCall(tenant, callRun, charged, outcome)];
      r := Ok(id);
    }
  }
}
