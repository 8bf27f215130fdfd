/**
 Idempotent request handling: the claim, run and finish-or-abandon part of `_dispatch`
 in shared/atlantis_contracts/http.py, over the in-memory store or the PostgreSQL table.

 Request threads are interleaved at their store operations. A thread is `running` between
 a claim answered NEW and its finish or abandon. What the handler does is an input.
 */
module Http {
  import opened Common
  import opened Stores

  type ThreadId = nat

  datatype Reservation = Reservation(key: Key, hash: string)

  /** What the handler did: returned, or raised. */
  datatype Handled =
    | Returned(response: Response)
    | Forbidden(text: string)
    | Invalid(text: string)
    | TimedOut
    | Crashed

  function ResponseTo(h: Handled): Response {
    match h
    case Returned(response) => response
    case Forbidden(text) => Response(403, text)
    case Invalid(text) => Response(400, text)
    case TimedOut => Response(408, "REQUEST_TIMEOUT")
    case Crashed => Response(500, "INTERNAL_ERROR")
  }

  const KEY_CONFLICT := Response(409, "IDEMPOTENCY_KEY_CONFLICT")
  const IN_PROGRESS := Response(409, "IDEMPOTENCY_REQUEST_IN_PROGRESS")

  /** The handler started for a request, or a request was answered, by its handler or without it. */
  datatype Event =
    | Started(key: Key, hash: string)
    | Answered(key: Key, hash: string, response: Response, byHandler: bool)

  // ------------------------------------------------------- either store

  datatype Store = InMemory(slots: Memory) | InTable(rows: Table)

  function Entry(store: Store, key: Key): Option<Slot<Reserved>> {
    match store
    case InMemory(slots) => Lookup(slots, key)
    case InTable(rows) => if key in rows then Some(rows[key]) else None
  }

  function Claimed(store: Store, key: Key, hash: string, now: real, ttl: real, max: nat): (Store, Answer) {
    match store
    case InMemory(slots) => var (after, answer) := MemoryClaim(slots, key, hash, now, ttl, max); (InMemory(after), answer)
    case InTable(rows) => var (after, answer) := TableClaim(rows, key, hash, now, ttl); (InTable(after), answer)
  }

  function Finished(store: Store, key: Key, hash: string, response: Response): Store {
    match store
    case InMemory(slots) => InMemory(MemoryFinish(slots, key, hash, response))
    case InTable(rows) => InTable(TableFinish(rows, key, hash, response))
  }

  function Abandoned(store: Store, key: Key, hash: string): Store {
    match store
    case InMemory(slots) => InMemory(MemoryAbandon(slots, key, hash))
    case InTable(rows) => InTable(TableAbandon(rows, key, hash))
  }

  predicate Sound(store: Store) {
    store.InMemory? ==> DistinctKeys(store.slots)
  }

  predicate Empty(store: Store) {
    match store
    case InMemory(slots) => slots == []
    case InTable(rows) => rows == map[]
  }

  // ------------------------------------------------------------- the server

  datatype Server = Server(store: Store, running: map<ThreadId, Reservation>, log: seq<Event>)

  datatype Step =
    | Request(thread: ThreadId, key: Key, hash: string, now: real)
    | Complete(thread: ThreadId, handled: Handled)
    | Die(thread: ThreadId)

  function Serve(s: Server, thread: ThreadId, key: Key, hash: string, now: real, ttl: real, max: nat): Server {
    var (store, answer) := Claimed(s.store, key, hash, now, ttl, max);
    match answer
    case New => Server(store, s.running[thread := Reservation(key, hash)], s.log + [Started(key, hash)])
    case Conflict => s.(store := store, log := s.log + [Answered(key, hash, KEY_CONFLICT, false)])
    case Pending => s.(store := store, log := s.log + [Answered(key, hash, IN_PROGRESS, false)])
    case Cached(response) => s.(store := store, log := s.log + [Answered(key, hash, response, false)])
  }

  /** Below 500 the response is stored, otherwise the reservation is given up. */
  function Release(store: Store, r: Reservation, response: Response): Store {
    if response.status < 500 then Finished(store, r.key, r.hash, response)
    else Abandoned(store, r.key, r.hash)
  }

  function Do(s: Server, step: Step, ttl: real, max: nat): Server {
    match step
    case Request(thread, key, hash, now) => Serve(s, thread, key, hash, now, ttl, max)
    case Complete(thread, handled) =>
      if thread !in s.running then s
      else
        var r, response := s.running[thread], ResponseTo(handled);
        Server(Release(s.store, r, response), s.running - {thread}, s.log + [Answered(r.key, r.hash, response, true)])
    case Die(thread) => s.(running := s.running - {thread})
  }

  predicate Enabled(s: Server, step: Step) {
    if step.Request? then step.thread !in s.running else step.thread in s.running
  }

  /** A step neither expires nor evicts this key's entry. */
  predicate Spares(s: Server, step: Step, ttl: real, max: nat, key: Key) {
    step.Request? && Entry(s.store, key).Some? ==>
      && Entry(s.store, key).value.expires > step.now
      && Entry(Claimed(s.store, step.key, step.hash, step.now, ttl, max).0, key) == Entry(s.store, key)
  }

  /** The table evicts nothing: there only expiry is in question. */
  lemma {:induction false} TableSparesUnlessExpired(s: Server, step: Step, ttl: real, max: nat, key: Key)
    requires s.store.InTable?
    ensures Spares(s, step, ttl, max, key) <==> (step.Request? && Entry(s.store, key).Some? ==> Entry(s.store, key).value.expires > step.now)
  {
  }

  predicate IsRun(s: Server, steps: seq<Step>, ttl: real, max: nat, key: Key)
    decreases |steps|
  {
    steps == [] ||
    (Enabled(s, steps[0]) && Spares(s, steps[0], ttl, max, key) && IsRun(Do(s, steps[0], ttl, max), steps[1..], ttl, max, key))
  }

  function After(s: Server, steps: seq<Step>, ttl: real, max: nat, key: Key): Server
    requires IsRun(s, steps, ttl, max, key)
    decreases |steps|
  {
    if steps == [] then s else After(Do(s, steps[0], ttl, max), steps[1..], ttl, max, key)
  }

  // ------------------------------------------------- what clients may see

  /** Where a key stands: nobody has it, one body is being handled, or one body was answered for good. */
  datatype Phase = Free | Busy(hash: string) | Done(hash: string, response: Response)

  function Next(phase: Phase, e: Event): Phase {
    match e
    case Started(_, hash) => Busy(hash)
    case Answered(_, hash, response, byHandler) =>
      if !byHandler then phase else if response.status < 500 then Done(hash, response) else Free
  }

  function PhaseOf(log: seq<Event>, key: Key): Phase {
    if log == [] then Free
    else
      var before, last := PhaseOf(log[..|log| - 1], key), log[|log| - 1];
      if last.key == key then Next(before, last) else before
  }

  /** The events a key's phase allows. */
  predicate Allowed(phase: Phase, e: Event) {
    match e
    case Started(_, _) => phase == Free
    case Answered(_, hash, response, byHandler) =>
      if byHandler then phase == Busy(hash)
      else match phase
        case Free => false
        case Busy(first) => response == if hash == first then IN_PROGRESS else KEY_CONFLICT
        case Done(first, stored) => response == if hash == first then stored else KEY_CONFLICT
  }

  ghost predicate Follows(log: seq<Event>, key: Key) {
    forall i :: 0 <= i < |log| && log[i].key == key ==> Allowed(PhaseOf(log[..i], key), log[i])
  }

  /** The store's entry for the key says what its phase says. */
  predicate EntryMatches(found: Option<Slot<Reserved>>, phase: Phase) {
    match phase
    case Free => found.None?
    case Busy(hash) => found.Some? && found.value.value == Reserved(hash, None)
    case Done(hash, response) => found.Some? && found.value.value == Reserved(hash, Some(response))
  }

  ghost predicate Inv(s: Server, key: Key) {
    && Sound(s.store)
    && EntryMatches(Entry(s.store, key), PhaseOf(s.log, key))
    && Follows(s.log, key)
    && (forall t :: t in s.running && s.running[t].key == key ==> PhaseOf(s.log, key) == Busy(s.running[t].hash))
    && (forall t, u :: t in s.running && u in s.running && s.running[t].key == key && s.running[u].key == key ==> t == u)
  }

  // --------------------------------------------------------- store effects

  lemma {:induction false} KeptOf<V>(slots: seq<Slot<V>>, max: nat)
    requires DistinctKeys(slots)
    ensures DistinctKeys(Kept(slots, max)) && forall i :: 0 <= i < |Kept(slots, max)| ==> Kept(slots, max)[i] in slots
  {
  }

  lemma {:induction false} LookupInsert<V>(slots: seq<Slot<V>>, slot: Slot<V>, max: nat, key: Key)
    requires DistinctKeys(slots) && Lookup(slots, slot.key).None?
    ensures DistinctKeys(Insert(slots, slot, max))
    ensures Lookup(Insert(slots, slot, max), slot.key) == Some(slot)
    ensures key != slot.key && Lookup(slots, key).None? ==> Lookup(Insert(slots, slot, max), key).None?
  {
    var kept := Kept(slots, max);
    KeptOf(slots, max);
    LookupIs(slots, slot.key);
    LookupIs(slots, key);
    LookupIs(kept, slot.key);
    LookupIs(kept, key);
    LookupAppend(kept, slot, slot.key);
    LookupAppend(kept, slot, key);
    assert Insert(slots, slot, max) == kept + [slot];
  }

  lemma {:induction false} MemoryClaimEffect(m: Memory, claimed: Key, hash: string, now: real, ttl: real, max: nat, key: Key)
    requires DistinctKeys(m)
    requires Lookup(m, key).Some? ==>
      Lookup(m, key).value.expires > now && Lookup(MemoryClaim(m, claimed, hash, now, ttl, max).0, key) == Lookup(m, key)
    ensures var (after, answer) := MemoryClaim(m, claimed, hash, now, ttl, max);
      var found := Lookup(m, key);
      && DistinctKeys(after)
      && (claimed != key ==> Lookup(after, key) == found)
      && (claimed == key && found.Some? ==> Lookup(after, key) == found && answer == AnswerFor(found.value.value, hash))
      && (claimed == key && found.None? ==> Lookup(after, key) == Some(Slot(key, Reserved(hash, None), now + ttl)) && answer == New)
  {
    LookupLive(m, key, now);
    LookupLive(m, claimed, now);
    LiveKeepsShape(m, now);
    if Lookup(Live(m, now), claimed).None? {
      LookupInsert(Live(m, now), Slot(claimed, Reserved(hash, None), now + ttl), max, key);
    }
  }

  lemma {:induction false} ClaimEffect(store: Store, claimed: Key, hash: string, now: real, ttl: real, max: nat, key: Key)
    requires Sound(store)
    requires Entry(store, key).Some? ==>
      Entry(store, key).value.expires > now && Entry(Claimed(store, claimed, hash, now, ttl, max).0, key) == Entry(store, key)
    ensures var (after, answer) := Claimed(store, claimed, hash, now, ttl, max);
      var found := Entry(store, key);
      && Sound(after)
      && (claimed != key ==> Entry(after, key) == found)
      && (claimed == key && found.Some? ==> Entry(after, key) == found && answer == AnswerFor(found.value.value, hash))
      && (claimed == key && found.None? ==> Entry(after, key) == Some(Slot(key, Reserved(hash, None), now + ttl)) && answer == New)
  {
    if store.InMemory? {
      MemoryClaimEffect(store.slots, claimed, hash, now, ttl, max, key);
    }
  }

  lemma {:induction false} ReleaseEffect(store: Store, r: Reservation, response: Response, key: Key)
    requires Sound(store)
    ensures var after, found := Release(store, r, response), Entry(store, key);
      && Sound(after)
      && (r.key != key ==> Entry(after, key) == found)
      && (r.key == key && found.Some? && found.value.value == Reserved(r.hash, None) ==>
            if response.status < 500
            then Entry(after, key) == Some(found.value.(value := Reserved(r.hash, Some(response))))
            else Entry(after, key) == None)
  {
    if store.InMemory? {
      LookupOverwrite(store.slots, r.key, Reserved(r.hash, Some(response)), key);
      LookupRemove(store.slots, r.key, key);
    }
  }

  // --------------------------------------------------------------- all runs

  lemma {:induction false} LogGrows(log: seq<Event>, e: Event, key: Key)
    requires Follows(log, key) && (e.key == key ==> Allowed(PhaseOf(log, key), e))
    ensures Follows(log + [e], key)
    ensures PhaseOf(log + [e], key) == if e.key == key then Next(PhaseOf(log, key), e) else PhaseOf(log, key)
  {
    var longer := log + [e];
    assert longer[..|log|] == log;
    forall i | 0 <= i < |longer| && longer[i].key == key
      ensures Allowed(PhaseOf(longer[..i], key), longer[i])
    {
      if i < |log| {
        assert longer[..i] == log[..i];
      }
    }
  }

  /** A step that leaves a key's entry as it is, and logs at most an event of another key, keeps its invariant. */
  lemma {:induction false} OtherKeyKeeps(s: Server, after: Server, e: Event, key: Key)
    requires Inv(s, key) && Sound(after.store) && e.key != key && after.log == s.log + [e]
    requires Entry(after.store, key) == Entry(s.store, key)
    requires forall t :: t in after.running && after.running[t].key == key ==> t in s.running && s.running[t] == after.running[t]
    ensures Inv(after, key)
  {
    LogGrows(s.log, e, key);
  }

  /** A request answered from the key's own entry changes nothing of it. */
  lemma {:induction false} AnsweredFromEntry(s: Server, after: Server, hash: string, key: Key)
    requires Inv(s, key) && Sound(after.store) && Entry(after.store, key) == Entry(s.store, key)
    requires Entry(s.store, key).Some? && after.running == s.running
    requires after.log == s.log + [Answered(key, hash, WithoutHandler(Entry(s.store, key).value.value, hash), false)]
    ensures Inv(after, key)
  {
    LogGrows(s.log, after.log[|s.log|], key);
  }

  /** The reply of a request that does not run the handler. */
  function WithoutHandler(r: Reserved, hash: string): Response {
    match AnswerFor(r, hash)
    case Cached(response) => response
    case Pending => IN_PROGRESS
    case _ => KEY_CONFLICT
  }

  lemma {:induction false} Starts(s: Server, after: Server, thread: ThreadId, hash: string, key: Key)
    requires Inv(s, key) && Sound(after.store) && Entry(s.store, key).None? && thread !in s.running
    requires Entry(after.store, key).Some? && Entry(after.store, key).value.value == Reserved(hash, None)
    requires after.running == s.running[thread := Reservation(key, hash)] && after.log == s.log + [Started(key, hash)]
    ensures Inv(after, key)
  {
    LogGrows(s.log, Started(key, hash), key);
  }

  lemma {:induction false} ServeKeeps(s: Server, thread: ThreadId, claimed: Key, hash: string, now: real, ttl: real, max: nat, key: Key)
    requires Inv(s, key) && thread !in s.running && Spares(s, Request(thread, claimed, hash, now), ttl, max, key)
    ensures Inv(Serve(s, thread, claimed, hash, now, ttl, max), key)
  {
    ClaimEffect(s.store, claimed, hash, now, ttl, max, key);
    var after := Serve(s, thread, claimed, hash, now, ttl, max);
    if claimed != key {
      OtherKeyKeeps(s, after, after.log[|s.log|], key);
    } else if Entry(s.store, key).Some? {
      AnsweredFromEntry(s, after, hash, key);
    } else {
      Starts(s, after, thread, hash, key);
    }
  }

  lemma {:induction false} CompleteKeeps(s: Server, thread: ThreadId, handled: Handled, ttl: real, max: nat, key: Key)
    requires Inv(s, key) && thread in s.running
    ensures Inv(Do(s, Complete(thread, handled), ttl, max), key)
  {
    var r, response := s.running[thread], ResponseTo(handled);
    ReleaseEffect(s.store, r, response, key);
    LogGrows(s.log, Answered(r.key, r.hash, response, true), key);
  }

  lemma {:induction false} StepKeeps(s: Server, step: Step, ttl: real, max: nat, key: Key)
    requires Inv(s, key) && Enabled(s, step) && Spares(s, step, ttl, max, key)
    ensures Inv(Do(s, step, ttl, max), key)
  {
    match step
    case Request(thread, claimed, hash, now) => ServeKeeps(s, thread, claimed, hash, now, ttl, max, key);
    case Complete(thread, handled) => CompleteKeeps(s, thread, handled, ttl, max, key);
    case Die(thread) =>
  }

  lemma {:induction false} RunKeeps(s: Server, steps: seq<Step>, ttl: real, max: nat, key: Key)
    requires Inv(s, key) && IsRun(s, steps, ttl, max, key)
    ensures Inv(After(s, steps, ttl, max, key), key)
    decreases |steps|
  {
    if steps != [] {
      StepKeeps(s, steps[0], ttl, max, key);
      RunKeeps(Do(s, steps[0], ttl, max), steps[1..], ttl, max, key);
    }
  }

  function Start(store: Store): Server {
    Server(store, map[], [])
  }

  /**
   However request threads interleave, crash or die, as long as the key's entry is neither
   expired nor evicted: at most one thread is handling it, and everything clients see of it
   is allowed by its phase.
   */
  lemma {:induction false} EveryRunFollows(store: Store, steps: seq<Step>, ttl: real, max: nat, key: Key)
    requires Empty(store) && IsRun(Start(store), steps, ttl, max, key)
    ensures var s := After(Start(store), steps, ttl, max, key);
      && Follows(s.log, key)
      && (forall t, u :: t in s.running && u in s.running && s.running[t].key == key && s.running[u].key == key ==> t == u)
      && (PhaseOf(s.log, key) == Free <==> Entry(s.store, key).None?)
  {
    RunKeeps(Start(store), steps, ttl, max, key);
  }

  /** Every request finds the key's entry, if there is one, unexpired at its reading. */
  predicate InTime(s: Server, steps: seq<Step>, ttl: real, max: nat, key: Key)
    decreases |steps|
  {
    steps == [] ||
    (Enabled(s, steps[0])
     && (steps[0].Request? && Entry(s.store, key).Some? ==> Entry(s.store, key).value.expires > steps[0].now)
     && InTime(Do(s, steps[0], ttl, max), steps[1..], ttl, max, key))
  }

  lemma {:induction false} InTimeIsRun(s: Server, steps: seq<Step>, ttl: real, max: nat, key: Key)
    requires s.store.InTable?
    ensures InTime(s, steps, ttl, max, key) <==> IsRun(s, steps, ttl, max, key)
    decreases |steps|
  {
    if steps != [] {
      TableSparesUnlessExpired(s, steps[0], ttl, max, key);
      InTimeIsRun(Do(s, steps[0], ttl, max), steps[1..], ttl, max, key);
    }
  }

  /** Over the table, which evicts nothing, that is all the guarantee needs. */
  lemma {:induction false} EveryTableRunFollows(steps: seq<Step>, ttl: real, max: nat, key: Key)
    requires InTime(Start(InTable(map[])), steps, ttl, max, key)
    ensures IsRun(Start(InTable(map[])), steps, ttl, max, key)
    ensures var s := After(Start(InTable(map[])), steps, ttl, max, key);
      && Follows(s.log, key)
      && (forall t, u :: t in s.running && u in s.running && s.running[t].key == key && s.running[u].key == key ==> t == u)
  {
    InTimeIsRun(Start(InTable(map[])), steps, ttl, max, key);
    EveryRunFollows(InTable(map[]), steps, ttl, max, key);
  }

  /** Once answered below 500, a key stays answered. */
  lemma {:induction false} DoneStays(log: seq<Event>, key: Key, i: nat, j: nat)
    requires Follows(log, key) && i <= j <= |log| && PhaseOf(log[..i], key).Done?
    ensures PhaseOf(log[..j], key) == PhaseOf(log[..i], key)
    decreases j
  {
    if i < j {
      DoneStays(log, key, i, j - 1);
      assert log[..j][..j - 1] == log[..j - 1];
      if log[j - 1].key == key {
        assert Allowed(PhaseOf(log[..j - 1], key), log[j - 1]);
      }
    }
  }

  /**
   After a handler's answer below 500, the handler never runs again for that key: a request
   with the same body gets the same status and body, one with another body gets the conflict.
   */
  lemma {:induction false} SameAnswerForGood(log: seq<Event>, key: Key, i: nat, j: nat)
    requires Follows(log, key) && i < j < |log|
    requires log[i].Answered? && log[i].key == key && log[i].byHandler && log[i].response.status < 500
    requires log[j].key == key
    ensures log[j].Answered? && !log[j].byHandler
    ensures log[j].response == if log[j].hash == log[i].hash then log[i].response else KEY_CONFLICT
  {
    assert log[..i + 1][..i] == log[..i];
    DoneStays(log, key, i + 1, j);
    assert Allowed(PhaseOf(log[..j], key), log[j]);
  }

  /** A failure of the handler for this key between two points of the log. */
  predicate Failed(log: seq<Event>, key: Key, i: nat, j: nat)
    requires i <= j <= |log|
  {
    exists k :: i <= k < j && log[k].Answered? && log[k].key == key && log[k].byHandler && log[k].response.status >= 500
  }

  lemma {:induction false} BusyUntilAnswered(log: seq<Event>, key: Key, i: nat, j: nat)
    requires Follows(log, key) && i <= j <= |log| && PhaseOf(log[..i], key) != Free && !Failed(log, key, i, j)
    ensures PhaseOf(log[..j], key) != Free
    decreases j
  {
    if i < j {
      BusyUntilAnswered(log, key, i, j - 1);
      assert log[..j][..j - 1] == log[..j - 1];
    }
  }

  /** The handler runs again for a key, with any body, only after it failed for that key with 500 or above. */
  lemma {:induction false} RunsAgainOnlyAfterFailure(log: seq<Event>, key: Key, i: nat, j: nat)
    requires Follows(log, key) && i < j < |log|
    requires log[i].Started? && log[j].Started? && log[i].key == log[j].key == key
    ensures Failed(log, key, i + 1, j)
  {
    assert log[..i + 1][..i] == log[..i];
    assert Allowed(PhaseOf(log[..j], key), log[j]);
    if !Failed(log, key, i + 1, j) {
      BusyUntilAnswered(log, key, i + 1, j);
    }
  }

  /** After an answer of 500 or above the next request for the key, with any body, runs the handler. */
  lemma {:induction false} FailureFreesKey(store: Store, steps: seq<Step>, ttl: real, max: nat, key: Key, hash: string, thread: ThreadId, handled: Handled,
    other: ThreadId, now: real)
    requires Empty(store) && IsRun(Start(store), steps, ttl, max, key)
    requires var s := After(Start(store), steps, ttl, max, key);
      && thread in s.running && s.running[thread].key == key && ResponseTo(handled).status >= 500
      && other !in s.running - {thread}
    ensures var freed := Do(After(Start(store), steps, ttl, max, key), Complete(thread, handled), ttl, max);
      && freed.log + [Started(key, hash)] == Do(freed, Request(other, key, hash, now), ttl, max).log
  {
    RunKeeps(Start(store), steps, ttl, max, key);
    var s := After(Start(store), steps, ttl, max, key);
    CompleteKeeps(s, thread, handled, ttl, max, key);
    var freed := Do(s, Complete(thread, handled), ttl, max);
    LogGrows(s.log, Answered(key, s.running[thread].hash, ResponseTo(handled), true), key);
    ClaimEffect(freed.store, key, hash, now, ttl, max, key);
  }

  // -------------------------------------------------- one step, spelled out

  /** What the client gets for each way a handler ends, and whether that is kept for its key. */
  predicate Reply(handled: Handled, response: Response, kept: bool) {
    match handled
    case Returned(own) => response == own && kept == (own.status < 500)
    case Forbidden(text) => response == Response(403, text) && kept
    case Invalid(text) => response == Response(400, text) && kept
    case TimedOut => response == Response(408, "REQUEST_TIMEOUT") && kept
    case Crashed => response == Response(500, "INTERNAL_ERROR") && !kept
  }

  /**
   A handler's end is answered to its own request. If the key's entry is still this
   reservation's, an answer below 500 is kept in it and any other gives it up; an entry of
   another body is left alone, and so is every other key.
   */
  lemma {:induction false} CompletionIsAnswered(s: Server, thread: ThreadId, handled: Handled, ttl: real, max: nat, key: Key)
    requires Sound(s.store) && thread in s.running
    ensures var after, r := Do(s, Complete(thread, handled), ttl, max), s.running[thread];
      && after.running == s.running - {thread} && |after.log| == |s.log| + 1 && after.log[..|s.log|] == s.log
      && var last := after.log[|s.log|];
      && last.Answered? && (last.key, last.hash, last.byHandler) == (r.key, r.hash, true)
      && var found, left := Entry(s.store, key), Entry(after.store, key);
         var own := key == r.key && found.Some? && found.value.value.hash == r.hash;
      && (!own ==> left == found)
      && (Reply(handled, last.response, true) ||
          Reply(handled, last.response, false))
      && (own && Reply(handled, last.response, true) ==>
            left == Some(found.value.(value := Reserved(r.hash, Some(last.response)))))
      && (own && Reply(handled, last.response, false) ==>
            left == if found.value.value.response == None then None else found)
  {
    var r, response := s.running[thread], ResponseTo(handled);
    if s.store.InMemory? {
      LookupIs(s.store.slots, r.key);
      LookupOverwrite(s.store.slots, r.key, Reserved(r.hash, Some(response)), key);
      LookupRemove(s.store.slots, r.key, key);
    }
  }

  /**
   A request whose key has an unexpired entry is answered from it at once: with the stored
   answer for the same body, else as in progress, and as a conflict for another body. Without
   one its handler starts, and the key is reserved for this body until `ttl` after the reading.
   */
  lemma {:induction false} RequestIsAnswered(s: Server, thread: ThreadId, key: Key, hash: string, now: real, ttl: real, max: nat)
    requires Sound(s.store)
    ensures var after, found := Do(s, Request(thread, key, hash, now), ttl, max), Entry(s.store, key);
      if found.Some? && found.value.expires > now then
        && after.running == s.running && Entry(after.store, key) == found
        && after.log == s.log + [Answered(key, hash,
                                          if found.value.value.hash != hash then Response(409, "IDEMPOTENCY_KEY_CONFLICT")
                                          else if found.value.value.response == None then Response(409, "IDEMPOTENCY_REQUEST_IN_PROGRESS")
                                          else found.value.value.response.value, false)]
      else
        && after.running == s.running[thread := Reservation(key, hash)] && after.log == s.log + [Started(key, hash)]
        && Entry(after.store, key) == Some(Slot(key, Reserved(hash, None), now + ttl))
  {
    if s.store.InMemory? {
      var m := s.store.slots;
      LookupLive(m, key, now);
      LiveKeepsShape(m, now);
      if Lookup(Live(m, now), key).None? {
        LookupInsert(Live(m, now), Slot(key, Reserved(hash, None), now + ttl), max, key);
      }
    }
  }

  /** A thread that dies answers nothing and leaves its key reserved: until the entry expires, requests for it are turned away. */
  lemma {:induction false} DeathHoldsTheKey(s: Server, thread: ThreadId, other: ThreadId, hash: string, now: real, ttl: real, max: nat)
    requires Sound(s.store) && thread in s.running
    requires var r := s.running[thread];
      && Entry(s.store, r.key).Some? && Entry(s.store, r.key).value.value == Reserved(r.hash, None)
      && Entry(s.store, r.key).value.expires > now
    ensures var dead, r := Do(s, Die(thread), ttl, max), s.running[thread];
      && dead.store == s.store && dead.log == s.log && dead.running == s.running - {thread}
      && Do(dead, Request(other, r.key, hash, now), ttl, max).log
         == s.log + [Answered(r.key, hash, if hash == r.hash then Response(409, "IDEMPOTENCY_REQUEST_IN_PROGRESS")
                                           else Response(409, "IDEMPOTENCY_KEY_CONFLICT"), false)]
  {
    RequestIsAnswered(Do(s, Die(thread), ttl, max), other, s.running[thread].key, hash, now, ttl, max);
  }

  // ------------------------------------------------- when it runs again

  /** A request starts the handler exactly when its key has no entry, or one that is expired at the request's reading. */
  lemma {:induction false} StartsExactly(s: Server, thread: ThreadId, key: Key, hash: string, now: real, ttl: real, max: nat)
    requires Sound(s.store)
    ensures Serve(s, thread, key, hash, now, ttl, max).log == s.log + [Started(key, hash)] <==>
      Entry(s.store, key).None? || Entry(s.store, key).value.expires <= now
  {
    if s.store.InMemory? {
      LookupLive(s.store.slots, key, now);
    }
    var log := Serve(s, thread, key, hash, now, ttl, max).log;
    assert |log| == |s.log| + 1 && log == s.log + [log[|s.log|]];
    assert (s.log + [Started(key, hash)])[|s.log|] == Started(key, hash);
  }

  /**
   A request for another key takes an entry away exactly in the in-memory store, and there
   when it reads the entry as expired, or inserts into the full store in which every other
   live entry outranks it.
   */
  lemma {:induction false} TakesAwayExactly(store: Store, claimed: Key, hash: string, now: real, ttl: real, max: nat, key: Key)
    requires Sound(store) && (store.InMemory? ==> |store.slots| <= max) && max >= 1 && Entry(store, key).Some? && claimed != key
    ensures var (after, answer) := Claimed(store, claimed, hash, now, ttl, max);
      var e := Entry(store, key).value.expires;
      Entry(after, key) ==
        if store.InMemory? && (e <= now || (answer == New && Rivals(Live(store.slots, now), key, e) == max - 1))
        then None else Entry(store, key)
  {
    if store.InMemory? {
      ClaimDropsExactly(store.slots, claimed, hash, now, ttl, max, key);
    }
  }

  /**
   Without the condition on expiry the guarantee is lost: when the first entry expires while
   its handler runs, the handler runs again for the same key and body, and both answers go out.
   */
  lemma {:induction false} ExpiredKeyRunsTwice(store: Store, key: Key, hash: string, ttl: real, max: nat)
    requires Empty(store) && ttl > 0.0 && max >= 1
    ensures var first := Do(Start(store), Request(0, key, hash, 0.0), ttl, max);
      var second := Do(first, Request(1, key, hash, ttl), ttl, max);
      && !Spares(first, Request(1, key, hash, ttl), ttl, max, key)
      && second.log == [Started(key, hash), Started(key, hash)]
      && Do(Do(second, Complete(0, Returned(Response(200, "a"))), ttl, max), Complete(1, Returned(Response(200, "b"))), ttl, max).log
         == second.log + [Answered(key, hash, Response(200, "a"), true), Answered(key, hash, Response(200, "b"), true)]
  {
    var first := Do(Start(store), Request(0, key, hash, 0.0), ttl, max);
    ExpiredIsClaimable(store, key, hash, ttl, max);
    assert first.log == [Started(key, hash)];
  }

  lemma {:induction false} ExpiredIsClaimable(store: Store, key: Key, hash: string, ttl: real, max: nat)
    requires Empty(store) && ttl > 0.0 && max >= 1
    ensures var (first, answer) := Claimed(store, key, hash, 0.0, ttl, max);
      && answer == New && Entry(first, key) == Some(Slot(key, Reserved(hash, None), ttl))
      && Claimed(first, key, hash, ttl, ttl, max).1 == New
  {
    if store.InMemory? {
      var empty: Memory, slot := [], Slot(key, Reserved(hash, None), 0.0 + ttl);
      assert Live(empty, 0.0) == empty && empty + [slot] == [slot];
      assert MemoryClaim(empty, key, hash, 0.0, ttl, max).0 == [slot];
      assert Live([slot], ttl) == empty;
    }
  }

  function DoAll(s: Server, steps: seq<Step>, ttl: real, max: nat): Server {
    if steps == [] then s else Do(DoAll(s, steps[..|steps| - 1], ttl, max), steps[|steps| - 1], ttl, max)
  }

  /** A request for the key, and then one for each of `n` other keys, all read at once. */
  function Crowd(key: Key, n: nat, hash: string): seq<Step> {
    seq(n + 1, i requires 0 <= i <= n => Request(i, if i == 0 then key else Other(key, i - 1), hash, 0.0))
  }

  function Crowded(key: Key, n: nat, hash: string, ttl: real): Memory {
    [Slot(key, Reserved(hash, None), 0.0 + ttl)] + Fill(key, n, Reserved(hash, None), 0.0 + ttl)
  }

  lemma {:induction false} CrowdedIs(key: Key, n: nat, hash: string, ttl: real)
    requires ttl > 0.0
    ensures var m := Crowded(key, n, hash, ttl);
      && Lookup(m, Other(key, n)).None? && Live(m, 0.0) == m && InExpiryOrder(m) && Lookup(m[1..], key).None?
  {
    var m, others := Crowded(key, n, hash, ttl), Fill(key, n, Reserved(hash, None), 0.0 + ttl);
    assert m[1..] == others;
    FillIs(key, n, Reserved(hash, None), 0.0 + ttl);
    OthersDiffer(key, n, n + 1);
    AllLive(m, 0.0);
  }

  lemma {:induction false} CrowdFills(key: Key, n: nat, hash: string, ttl: real, max: nat)
    requires ttl > 0.0 && n + 1 <= max
    ensures var s := DoAll(Start(InMemory([])), Crowd(key, n, hash), ttl, max);
      && s.store == InMemory(Crowded(key, n, hash, ttl))
      && |s.log| == n + 1 && s.log[0] == Started(key, hash) && forall i :: 0 <= i <= n ==> s.log[i].Started?
    decreases n
  {
    var steps := Crowd(key, n, hash);
    var before := DoAll(Start(InMemory([])), steps[..n], ttl, max);
    if n == 0 {
      var empty: Memory := [];
      assert steps[..0] == [] && Live(empty, 0.0) == empty;
      assert Fill(key, 0, Reserved(hash, None), 0.0 + ttl) == empty;
      InsertWithRoom(empty, Slot(key, Reserved(hash, None), 0.0 + ttl), max);
      assert empty + [Slot(key, Reserved(hash, None), 0.0 + ttl)] == Crowded(key, 0, hash, ttl);
    } else {
      assert steps[..n] == Crowd(key, n - 1, hash);
      CrowdFills(key, n - 1, hash, ttl, max);
      CrowdedIs(key, n - 1, hash, ttl);
      var slot := Slot(Other(key, n - 1), Reserved(hash, None), 0.0 + ttl);
      InsertWithRoom(Crowded(key, n - 1, hash, ttl), slot, max);
      assert Crowded(key, n - 1, hash, ttl) + [slot] == Crowded(key, n, hash, ttl);
    }
  }

  /**
   Nor does it hold for the in-memory store under load: after a request for a key and `max`
   requests for other keys, all at the same moment, the next request for that key runs the
   handler again, although none has answered.
   */
  lemma {:induction false} EvictedKeyRunsTwice(key: Key, hash: string, ttl: real, max: nat)
    requires ttl > 0.0 && max >= 1
    ensures var crowd := DoAll(Start(InMemory([])), Crowd(key, max, hash), ttl, max);
      var log := Do(crowd, Request(max + 1, key, hash, 0.0), ttl, max).log;
      && |log| == max + 2 && log[0] == log[max + 1] == Started(key, hash) && forall i :: 0 <= i < |log| ==> log[i].Started?
  {
    var steps, m := Crowd(key, max, hash), Crowded(key, max - 1, hash, ttl);
    var slot := Slot(Other(key, max - 1), Reserved(hash, None), 0.0 + ttl);
    assert steps[..max] == Crowd(key, max - 1, hash);
    CrowdFills(key, max - 1, hash, ttl, max);
    CrowdedIs(key, max - 1, hash, ttl);
    InsertIsFifo(m, slot, max);
    OthersDiffer(key, max - 1, max);
    LookupAppend(m[1..], slot, key);
    CrowdedLast(m, slot, key);
  }

  lemma {:induction false} CrowdedLast(m: Memory, slot: Slot<Reserved>, key: Key)
    requires m != [] && Lookup(m, slot.key).None? && Lookup(m[1..] + [slot], key).None?
    ensures Lookup(Live(m[1..] + [slot], 0.0), key).None?
  {
    GoneStaysGone(m[1..] + [slot], key, 0.0);
  }

  /** One POST to an idempotent path with no other thread in between; `handled` is what the handler would do. */
  method Dispatch(store: MemoryIdempotencyStore, service: string, tenant: string, idempotencyKey: string, hash: string,
                  handled: Handled, now: real) returns (response: Response)
    modifies store
    ensures if !(16 <= |idempotencyKey| <= 128) || tenant == "" then response.status == 400 && store.values == old(store.values)
            else
              var key := (tenant, service, idempotencyKey);
              var served := Serve(Start(InMemory(old(store.values))), 0, key, hash, now, store.ttl, store.max);
              var done := Do(served, Complete(0, handled), store.ttl, store.max);
              && InMemory(store.values) == done.store
              && done.log == (if served.running == map[] then [] else [Started(key, hash)])
                             + [Answered(key, hash, response, served.running != map[])]
  {
    if !(16 <= |idempotencyKey| <= 128) {
      return Response(400, "IDEMPOTENCY_KEY_REQUIRED");
    }
    if tenant == "" {
      return Response(400, "TENANT_ID_REQUIRED");
    }
    var key := (tenant, service, idempotencyKey);
    var answer := store.DoClaim(key, hash, now);
    match answer {
      case Conflict => return KEY_CONFLICT;
      case Pending => return IN_PROGRESS;
      case Cached(cached) => return cached;
      case New =>
        response := ResponseTo(handled);
        if response.status < 500 {
          store.DoFinish(key, hash, response);
        } else {
          store.DoAbandon(key, hash);
        }
        ghost var running: map<ThreadId, Reservation> := map[];
        assert running[0 := Reservation(key, hash)][0] == Reservation(key, hash);
    }
  }
}
