/**
 Idempotency stores of shared/atlantis_contracts/persistence.py: the bounded in-memory
 one, which prunes on every claim, and the PostgreSQL one, which deletes lazily.

 A Python dictionary is a sequence of slots in insertion order with distinct keys;
 overwriting a value keeps its place. Keys are (tenant, service, key).
 */
module Stores {
  import opened Common

  type Key = (string, string, string)

  datatype Slot<V> = Slot(key: Key, value: V, expires: real)

  datatype Response = Response(status: int, body: string)

  /** A reservation: the hash of the request body and, once finished, the response. */
  datatype Reserved = Reserved(hash: string, response: Option<Response>)

  datatype Answer = New | Pending | Conflict | Cached(response: Response)

  // ------------------------------------------------- ordered bounded entries

  function Live<V>(slots: seq<Slot<V>>, now: real): seq<Slot<V>> {
    if slots == [] then []
    else (if slots[0].expires > now then [slots[0]] else []) + Live(slots[1..], now)
  }

  function Lookup<V>(slots: seq<Slot<V>>, key: Key): Option<Slot<V>> {
    if slots == [] then None
    else if slots[0].key == key then Some(slots[0])
    else Lookup(slots[1..], key)
  }

  function Remove<V>(slots: seq<Slot<V>>, key: Key): seq<Slot<V>> {
    if slots == [] then []
    else if slots[0].key == key then slots[1..]
    else [slots[0]] + Remove(slots[1..], key)
  }

  function Overwrite<V>(slots: seq<Slot<V>>, key: Key, value: V): seq<Slot<V>> {
    if slots == [] then []
    else if slots[0].key == key then [slots[0].(value := value)] + slots[1..]
    else [slots[0]] + Overwrite(slots[1..], key, value)
  }

  /** Position of the first slot with the least expiry: `min` over the dictionary. */
  function Oldest<V>(slots: seq<Slot<V>>): (i: nat)
    requires slots != []
    ensures i < |slots|
    ensures forall j :: 0 <= j < |slots| ==> slots[i].expires <= slots[j].expires
    ensures forall j :: 0 <= j < i ==> slots[i].expires < slots[j].expires
  {
    if |slots| == 1 then 0
    else
      var rest := Oldest(slots[1..]);
      assert forall j :: 0 < j < |slots| ==> slots[j] == slots[1..][j - 1];
      if slots[0].expires <= slots[1 + rest].expires then 0 else 1 + rest
  }

  /** A new slot at the end, after dropping the oldest when the store is full. */
  function Insert<V>(slots: seq<Slot<V>>, slot: Slot<V>, max: nat): seq<Slot<V>> {
    if |slots| >= max && slots != [] then
      var i := Oldest(slots);
      slots[..i] + slots[i + 1..] + [slot]
    else slots + [slot]
  }

  predicate DistinctKeys<V>(slots: seq<Slot<V>>) {
    forall i, j :: 0 <= i < j < |slots| ==> slots[i].key != slots[j].key
  }

  predicate InExpiryOrder<V>(slots: seq<Slot<V>>) {
    forall i, j :: 0 <= i < j < |slots| ==> slots[i].expires <= slots[j].expires
  }

  /** Ordered by expiry, with no expiry further away than the ttl. */
  predicate Aged<V>(slots: seq<Slot<V>>, now: real, ttl: real) {
    InExpiryOrder(slots) && forall i :: 0 <= i < |slots| ==> slots[i].expires <= now + ttl
  }

  lemma {:induction false} LiveIn<V>(slots: seq<Slot<V>>, now: real, slot: Slot<V>)
    ensures slot in Live(slots, now) <==> slot in slots && slot.expires > now
    decreases |slots|
  {
    if slots != [] {
      LiveIn(slots[1..], now, slot);
      assert slots == [slots[0]] + slots[1..];
    }
  }

  lemma {:induction false} LiveElements<V>(slots: seq<Slot<V>>, now: real)
    ensures forall i :: 0 <= i < |Live(slots, now)| ==> Live(slots, now)[i] in slots
  {
    forall i | 0 <= i < |Live(slots, now)|
      ensures Live(slots, now)[i] in slots
    {
      LiveIn(slots, now, Live(slots, now)[i]);
    }
  }

  lemma {:induction false} LiveIsDistinct<V>(slots: seq<Slot<V>>, now: real)
    requires DistinctKeys(slots)
    ensures DistinctKeys(Live(slots, now))
    decreases |slots|
  {
    if slots != [] {
      assert forall j :: 0 < j < |slots| ==> slots[j] == slots[1..][j - 1];
      LiveIsDistinct(slots[1..], now);
      LiveElements(slots[1..], now);
      assert forall slot :: slot in slots[1..] ==> slot.key != slots[0].key;
    }
  }

  lemma {:induction false} LiveIsOrdered<V>(slots: seq<Slot<V>>, now: real)
    requires InExpiryOrder(slots)
    ensures InExpiryOrder(Live(slots, now))
    decreases |slots|
  {
    if slots != [] {
      assert forall j :: 0 < j < |slots| ==> slots[j] == slots[1..][j - 1];
      LiveIsOrdered(slots[1..], now);
      LiveElements(slots[1..], now);
      assert forall slot :: slot in slots[1..] ==> slots[0].expires <= slot.expires;
    }
  }

  lemma {:induction false} LiveIsShorter<V>(slots: seq<Slot<V>>, now: real)
    ensures |Live(slots, now)| <= |slots|
    decreases |slots|
  {
    if slots != [] {
      LiveIsShorter(slots[1..], now);
    }
  }

  lemma {:induction false} LiveKeepsShape<V>(slots: seq<Slot<V>>, now: real)
    ensures DistinctKeys(slots) ==> DistinctKeys(Live(slots, now))
    ensures InExpiryOrder(slots) ==> InExpiryOrder(Live(slots, now))
    ensures |Live(slots, now)| <= |slots|
  {
    LiveIsShorter(slots, now);
    if DistinctKeys(slots) {
      LiveIsDistinct(slots, now);
    }
    if InExpiryOrder(slots) {
      LiveIsOrdered(slots, now);
    }
  }

  lemma {:induction false} LookupIs<V>(slots: seq<Slot<V>>, key: Key)
    ensures match Lookup(slots, key)
            case None => forall i :: 0 <= i < |slots| ==> slots[i].key != key
            case Some(slot) => slot in slots && slot.key == key
    decreases |slots|
  {
    if slots != [] {
      LookupIs(slots[1..], key);
      assert forall j :: 0 < j < |slots| ==> slots[j] == slots[1..][j - 1];
    }
  }

  // ------------------------------------------------------- views as maps

  /** What the store answers from at a moment: the unexpired slots, by key. */
  ghost predicate Shows(view: map<Key, Slot<Reserved>>, slots: seq<Slot<Reserved>>, now: real) {
    forall key :: ShowsAt(view, slots, now, key)
  }

  predicate ShowsAt(view: map<Key, Slot<Reserved>>, slots: seq<Slot<Reserved>>, now: real, key: Key) {
    var found := Lookup(slots, key);
    if found.Some? && found.value.expires > now then key in view && view[key] == found.value else key !in view
  }

  lemma {:induction false} LookupLive<V>(slots: seq<Slot<V>>, key: Key, now: real)
    requires DistinctKeys(slots)
    ensures Lookup(Live(slots, now), key)
         == if Lookup(slots, key).Some? && Lookup(slots, key).value.expires > now then Lookup(slots, key) else None
    decreases |slots|
  {
    if slots != [] {
      assert forall j :: 0 < j < |slots| ==> slots[j] == slots[1..][j - 1];
      LookupLive(slots[1..], key, now);
      LookupIs(slots[1..], key);
      var rest := Live(slots[1..], now);
      if slots[0].expires > now {
        assert Live(slots, now) == [slots[0]] + rest && ([slots[0]] + rest)[1..] == rest;
      } else {
        assert Live(slots, now) == rest;
      }
    }
  }

  lemma {:induction false} RemoveElements<V>(slots: seq<Slot<V>>, gone: Key)
    ensures forall i :: 0 <= i < |Remove(slots, gone)| ==> Remove(slots, gone)[i] in slots
    ensures |Remove(slots, gone)| <= |slots|
    decreases |slots|
  {
    if slots != [] && slots[0].key != gone {
      var rest := Remove(slots[1..], gone);
      RemoveElements(slots[1..], gone);
      assert forall j :: 0 < j < |Remove(slots, gone)| ==> Remove(slots, gone)[j] == rest[j - 1];
      assert forall slot :: slot in slots[1..] ==> slot in slots;
    }
  }

  lemma {:induction false} RemoveKeepsOrder<V>(slots: seq<Slot<V>>, gone: Key)
    ensures DistinctKeys(slots) ==> DistinctKeys(Remove(slots, gone))
    ensures InExpiryOrder(slots) ==> InExpiryOrder(Remove(slots, gone))
    decreases |slots|
  {
    if slots != [] {
      var rest := slots[1..];
      assert slots == [slots[0]] + rest;
      RestKeepsOrder(slots[0], rest);
      if slots[0].key != gone {
        RemoveKeepsOrder(rest, gone);
        RemoveElements(rest, gone);
        ConsKeepsOrder(slots[0], rest, Remove(rest, gone));
      }
    }
  }

  lemma {:induction false} RestKeepsOrder<V>(first: Slot<V>, rest: seq<Slot<V>>)
    ensures DistinctKeys([first] + rest) ==> DistinctKeys(rest)
    ensures InExpiryOrder([first] + rest) ==> InExpiryOrder(rest)
  {
    var all := [first] + rest;
    assert forall j :: 0 <= j < |rest| ==> rest[j] == all[j + 1];
  }

  lemma {:induction false} ConsKeepsOrder<V>(first: Slot<V>, all: seq<Slot<V>>, some: seq<Slot<V>>)
    requires forall i :: 0 <= i < |some| ==> some[i] in all
    ensures DistinctKeys([first] + all) && DistinctKeys(some) ==> DistinctKeys([first] + some)
    ensures InExpiryOrder([first] + all) && InExpiryOrder(some) ==> InExpiryOrder([first] + some)
  {
    var longer, shorter := [first] + all, [first] + some;
    forall j | 0 < j < |shorter|
      ensures shorter[j] == some[j - 1]
      ensures DistinctKeys(longer) ==> first.key != shorter[j].key
      ensures InExpiryOrder(longer) ==> first.expires <= shorter[j].expires
    {
      var i :| 0 <= i < |all| && all[i] == some[j - 1];
      assert longer[0] == first && longer[i + 1] == all[i];
    }
  }

  lemma {:induction false} LookupRemove<V>(slots: seq<Slot<V>>, gone: Key, key: Key)
    requires DistinctKeys(slots)
    ensures Lookup(Remove(slots, gone), key) == if key == gone then None else Lookup(slots, key)
    ensures DistinctKeys(Remove(slots, gone))
    ensures forall slot :: slot in Remove(slots, gone) ==> slot in slots
    ensures |Remove(slots, gone)| <= |slots|
    ensures InExpiryOrder(slots) ==> InExpiryOrder(Remove(slots, gone))
    decreases |slots|
  {
    RemoveElements(slots, gone);
    RemoveKeepsOrder(slots, gone);
    if slots != [] {
      assert forall j :: 0 < j < |slots| ==> slots[j] == slots[1..][j - 1];
      if slots[0].key == gone {
        LookupIs(slots[1..], gone);
      } else {
        LookupRemove(slots[1..], gone, key);
        assert Remove(slots, gone)[1..] == Remove(slots[1..], gone);
      }
    }
  }

  lemma {:induction false} LookupOverwrite<V>(slots: seq<Slot<V>>, target: Key, value: V, key: Key)
    requires DistinctKeys(slots)
    ensures Lookup(Overwrite(slots, target, value), key)
         == if key == target && Lookup(slots, key).Some? then Some(Lookup(slots, key).value.(value := value)) else Lookup(slots, key)
    ensures |Overwrite(slots, target, value)| == |slots|
    ensures forall i :: 0 <= i < |slots| ==>
      && Overwrite(slots, target, value)[i].key == slots[i].key
      && Overwrite(slots, target, value)[i].expires == slots[i].expires
    decreases |slots|
  {
    if slots != [] {
      assert forall j :: 0 < j < |slots| ==> slots[j] == slots[1..][j - 1];
      LookupIs(slots[1..], key);
      LookupOverwrite(slots[1..], target, value, key);
      var rest := Overwrite(slots[1..], target, value);
      if slots[0].key == target {
        assert ([slots[0].(value := value)] + slots[1..])[1..] == slots[1..];
      } else {
        assert ([slots[0]] + rest)[1..] == rest;
      }
    }
  }

  lemma {:induction false} LookupAppend<V>(slots: seq<Slot<V>>, slot: Slot<V>, key: Key)
    requires Lookup(slots, slot.key).None?
    ensures Lookup(slots + [slot], key) == if key == slot.key then Some(slot) else Lookup(slots, key)
    decreases |slots|
  {
    if slots != [] {
      assert (slots + [slot])[1..] == slots[1..] + [slot];
      LookupAppend(slots[1..], slot, key);
    }
  }

  // ------------------------------------------------------- in-memory store

  type Memory = seq<Slot<Reserved>>

  function AnswerFor(r: Reserved, hash: string): Answer {
    if r.hash != hash then Conflict
    else match r.response
      case None => Pending
      case Some(response) => Cached(response)
  }

  function MemoryClaim(m: Memory, key: Key, hash: string, now: real, ttl: real, max: nat): (Memory, Answer) {
    var live := Live(m, now);
    match Lookup(live, key)
    case Some(slot) => (live, AnswerFor(slot.value, hash))
    case None => (Insert(live, Slot(key, Reserved(hash, None), now + ttl), max), New)
  }

  function MemoryFinish(m: Memory, key: Key, hash: string, response: Response): Memory {
    match Lookup(m, key)
    case Some(slot) => if slot.value.hash == hash then Overwrite(m, key, Reserved(hash, Some(response))) else m
    case None => m
  }

  function MemoryAbandon(m: Memory, key: Key, hash: string): Memory {
    match Lookup(m, key)
    case Some(slot) => if slot.value.hash == hash && slot.value.response.None? then Remove(m, key) else m
    case None => m
  }

  // ------------------------------------------------------- PostgreSQL store

  type Table = map<Key, Slot<Reserved>>

  function TableClaim(t: Table, key: Key, hash: string, now: real, ttl: real): (Table, Answer) {
    var kept := if key in t && t[key].expires <= now then t - {key} else t;
    if key !in kept then (kept[key := Slot(key, Reserved(hash, None), now + ttl)], New)
    else (kept, AnswerFor(kept[key].value, hash))
  }

  function TableFinish(t: Table, key: Key, hash: string, response: Response): Table {
    if key in t && t[key].value.hash == hash then t[key := t[key].(value := Reserved(hash, Some(response)))] else t
  }

  function TableAbandon(t: Table, key: Key, hash: string): Table {
    if key in t && t[key].value.hash == hash && t[key].value.response.None? then t - {key} else t
  }

  // -------------------------------------------------------- live-entry view

  datatype Op =
    | Claim(key: Key, hash: string, now: real)
    | Finish(key: Key, hash: string, response: Response, now: real)
    | Abandon(key: Key, hash: string, now: real)

  /** The unexpired entries of a view at a later moment. */
  function At(view: Table, now: real): Table {
    map key | key in view && view[key].expires > now :: view[key]
  }

  /** The one store both implement: a map of live entries, where expired ones simply are not there. */
  function ViewStep(view: Table, op: Op, ttl: real): (Table, Answer) {
    var live := At(view, op.now);
    match op
    case Claim(key, hash, now) =>
      if key in live then (live, AnswerFor(live[key].value, hash))
      else (live[key := Slot(key, Reserved(hash, None), now + ttl)], New)
    case Finish(key, hash, response, _) => (TableFinish(live, key, hash, response), New)
    case Abandon(key, hash, _) => (TableAbandon(live, key, hash), New)
  }

  function MemoryStep(m: Memory, op: Op, ttl: real, max: nat): (Memory, Answer) {
    match op
    case Claim(key, hash, now) => MemoryClaim(m, key, hash, now, ttl, max)
    case Finish(key, hash, response, _) => (MemoryFinish(m, key, hash, response), New)
    case Abandon(key, hash, _) => (MemoryAbandon(m, key, hash), New)
  }

  function TableStep(t: Table, op: Op, ttl: real): (Table, Answer) {
    match op
    case Claim(key, hash, now) => TableClaim(t, key, hash, now, ttl)
    case Finish(key, hash, response, _) => (TableFinish(t, key, hash, response), New)
    case Abandon(key, hash, _) => (TableAbandon(t, key, hash), New)
  }

  /** A new entry at this moment would not push another one out. */
  predicate HasRoom(view: Table, op: Op, max: nat) {
    op.Claim? && op.key !in At(view, op.now) ==> |At(view, op.now)| < max
  }

  lemma {:induction false} TableClaimRefines(t: Table, key: Key, hash: string, now: real, ttl: real)
    requires ttl > 0.0
    ensures var (after, answer) := TableClaim(t, key, hash, now, ttl);
      var live := At(t, now);
      && answer == (if key in live then AnswerFor(live[key].value, hash) else New)
      && At(after, now) == if key in live then live else live[key := Slot(key, Reserved(hash, None), now + ttl)]
  {
    var live, after := At(t, now), TableClaim(t, key, hash, now, ttl).0;
    if key !in live {
      assert At(after, now) == live[key := Slot(key, Reserved(hash, None), now + ttl)];
    }
  }

  lemma {:induction false} TableFinishRefines(t: Table, key: Key, hash: string, response: Response, now: real)
    ensures At(TableFinish(t, key, hash, response), now) == TableFinish(At(t, now), key, hash, response)
  {
  }

  lemma {:induction false} TableAbandonRefines(t: Table, key: Key, hash: string, now: real)
    ensures At(TableAbandon(t, key, hash), now) == TableAbandon(At(t, now), key, hash)
  {
  }

  predicate KeysMatch(t: Table) {
    forall key :: key in t ==> t[key].key == key
  }

  lemma {:induction false} StepKeysMatch(t: Table, op: Op, ttl: real)
    requires KeysMatch(t)
    ensures KeysMatch(TableStep(t, op, ttl).0)
  {
  }

  lemma {:induction false} TableRefines(t: Table, view: Table, op: Op, ttl: real)
    requires At(t, op.now) == At(view, op.now) && ttl > 0.0
    ensures var (after, answer) := TableStep(t, op, ttl);
      var (viewAfter, viewAnswer) := ViewStep(view, op, ttl);
      answer == viewAnswer && At(after, op.now) == viewAfter
  {
    match op
    case Claim(key, hash, now) => TableClaimRefines(t, key, hash, now, ttl);
    case Finish(key, hash, response, now) => TableFinishRefines(t, key, hash, response, now);
    case Abandon(key, hash, now) => TableAbandonRefines(t, key, hash, now);
  }

  /** Distinct keys make a sequence of slots as long as the map it shows. */
  lemma {:induction false} LiveCount(slots: Memory, now: real, view: Table)
    requires DistinctKeys(slots) && Shows(view, slots, now)
    ensures |Live(slots, now)| == |view|
  {
    var live := Live(slots, now);
    LiveKeepsShape(slots, now);
    forall key
      ensures key in view <==> Lookup(live, key).Some?
    {
      LookupLive(slots, key, now);
      assert ShowsAt(view, slots, now, key);
    }
    KeysCount(live, view.Keys);
  }

  lemma {:induction false} KeysCount<V>(slots: seq<Slot<V>>, keys: set<Key>)
    requires DistinctKeys(slots)
    requires forall key :: key in keys <==> Lookup(slots, key).Some?
    ensures |slots| == |keys|
    decreases |slots|
  {
    if slots == [] {
      assert keys == {};
    } else {
      var k, rest := slots[0].key, slots[1..];
      assert forall j :: 0 < j < |slots| ==> slots[j] == rest[j - 1];
      assert k in keys;
      LookupIs(rest, k);
      forall key
        ensures key in keys - {k} <==> Lookup(rest, key).Some?
      {
        LookupIs(rest, key);
      }
      KeysCount(rest, keys - {k});
    }
  }

  lemma {:induction false} MemoryClaimRefines(m: Memory, view: Table, key: Key, hash: string, now: real, ttl: real, max: nat)
    requires DistinctKeys(m) && Shows(At(view, now), m, now) && ttl > 0.0
    requires HasRoom(view, Claim(key, hash, now), max)
    ensures var (after, answer) := MemoryClaim(m, key, hash, now, ttl, max);
      var (viewAfter, viewAnswer) := ViewStep(view, Claim(key, hash, now), ttl);
      && answer == viewAnswer && DistinctKeys(after) && Shows(viewAfter, after, now)
  {
    var live := Live(m, now);
    LiveKeepsShape(m, now);
    forall k
      ensures Lookup(live, k) == if k in At(view, now) then Some(At(view, now)[k]) else None
    {
      LookupLive(m, k, now);
      assert ShowsAt(At(view, now), m, now, k);
    }
    LookupIs(live, key);
    if key !in At(view, now) {
      LiveCount(m, now, At(view, now));
      var slot := Slot(key, Reserved(hash, None), now + ttl);
      assert Insert(live, slot, max) == live + [slot];
      forall k {
        LookupAppend(live, slot, k);
      }
    }
  }

  lemma {:induction false} MemoryFinishRefines(m: Memory, view: Table, key: Key, hash: string, response: Response, now: real)
    requires DistinctKeys(m) && Shows(At(view, now), m, now)
    ensures var after := MemoryFinish(m, key, hash, response);
      DistinctKeys(after) && Shows(TableFinish(At(view, now), key, hash, response), after, now)
  {
    var after := MemoryFinish(m, key, hash, response);
    forall k
      ensures ShowsAt(TableFinish(At(view, now), key, hash, response), after, now, k)
    {
      LookupOverwrite(m, key, Reserved(hash, Some(response)), k);
      LookupIs(m, k);
      assert ShowsAt(At(view, now), m, now, k) && ShowsAt(At(view, now), m, now, key);
    }
    LookupOverwrite(m, key, Reserved(hash, Some(response)), key);
  }

  lemma {:induction false} MemoryAbandonRefines(m: Memory, view: Table, key: Key, hash: string, now: real)
    requires DistinctKeys(m) && Shows(At(view, now), m, now)
    ensures var after := MemoryAbandon(m, key, hash);
      DistinctKeys(after) && Shows(TableAbandon(At(view, now), key, hash), after, now)
  {
    var after := MemoryAbandon(m, key, hash);
    forall k
      ensures ShowsAt(TableAbandon(At(view, now), key, hash), after, now, k)
    {
      LookupRemove(m, key, k);
      LookupIs(m, k);
      assert ShowsAt(At(view, now), m, now, k) && ShowsAt(At(view, now), m, now, key);
    }
    LookupRemove(m, key, key);
  }

  lemma {:induction false} MemoryRefines(m: Memory, view: Table, op: Op, ttl: real, max: nat)
    requires DistinctKeys(m) && Shows(At(view, op.now), m, op.now) && ttl > 0.0 && HasRoom(view, op, max)
    ensures var (after, answer) := MemoryStep(m, op, ttl, max);
      var (viewAfter, viewAnswer) := ViewStep(view, op, ttl);
      answer == viewAnswer && DistinctKeys(after) && Shows(viewAfter, after, op.now)
  {
    match op
    case Claim(key, hash, now) => MemoryClaimRefines(m, view, key, hash, now, ttl, max);
    case Finish(key, hash, response, now) => MemoryFinishRefines(m, view, key, hash, response, now);
    case Abandon(key, hash, now) => MemoryAbandonRefines(m, view, key, hash, now);
  }

  // --------------------------------------------------------------- all runs

  predicate Monotone(ops: seq<Op>, clock: real) {
    ops == [] || (ops[0].now >= clock && Monotone(ops[1..], ops[0].now))
  }

  predicate BelowCapacity(view: Table, ops: seq<Op>, ttl: real, max: nat)
    decreases |ops|
  {
    ops == [] || (HasRoom(view, ops[0], max) && BelowCapacity(ViewStep(view, ops[0], ttl).0, ops[1..], ttl, max))
  }

  function ViewAnswers(view: Table, ops: seq<Op>, ttl: real): seq<Answer>
    decreases |ops|
  {
    if ops == [] then []
    else var (next, answer) := ViewStep(view, ops[0], ttl); [answer] + ViewAnswers(next, ops[1..], ttl)
  }

  function MemoryAnswers(m: Memory, ops: seq<Op>, ttl: real, max: nat): seq<Answer>
    decreases |ops|
  {
    if ops == [] then []
    else var (next, answer) := MemoryStep(m, ops[0], ttl, max); [answer] + MemoryAnswers(next, ops[1..], ttl, max)
  }

  function TableAnswers(t: Table, ops: seq<Op>, ttl: real): seq<Answer>
    decreases |ops|
  {
    if ops == [] then []
    else var (next, answer) := TableStep(t, ops[0], ttl); [answer] + TableAnswers(next, ops[1..], ttl)
  }

  /** Both stores hold the same live entries at `clock`. */
  ghost predicate Agree(m: Memory, t: Table, view: Table, clock: real) {
    && DistinctKeys(m) && Shows(At(view, clock), m, clock)
    && At(t, clock) == At(view, clock) && KeysMatch(t)
  }

  lemma {:induction false} AgreeLater(m: Memory, t: Table, view: Table, clock: real, later: real)
    requires Agree(m, t, view, clock) && later >= clock
    ensures Agree(m, t, view, later)
  {
    assert forall key :: key in At(t, clock) <==> key in t && t[key].expires > clock;
    assert forall key :: key in At(view, clock) <==> key in view && view[key].expires > clock;
    forall key
      ensures key in At(t, later) <==> key in At(view, later)
      ensures key in At(t, later) ==> At(t, later)[key] == At(view, later)[key]
      ensures ShowsAt(At(view, later), m, later, key)
    {
      assert ShowsAt(At(view, clock), m, clock, key);
      assert key in At(t, clock) <==> key in At(view, clock);
      if key in At(t, clock) {
        assert At(t, clock)[key] == At(view, clock)[key];
      }
    }
    assert At(t, later) == At(view, later);
  }

  /** Both stores start without entries. */
  lemma {:induction false} EmptyStoresAgree(clock: real)
    ensures Agree([], map[], map[], clock)
  {
    forall key
      ensures ShowsAt(At(map[], clock), [], clock, key)
    {
    }
  }

  lemma {:induction false} ViewStepIsLive(view: Table, op: Op, ttl: real)
    requires ttl > 0.0
    ensures At(ViewStep(view, op, ttl).0, op.now) == ViewStep(view, op, ttl).0
  {
  }

  /**
   Below capacity and on a clock that does not go back, the eagerly pruning memory store
   and the lazily deleting PostgreSQL store give every sequence of claims, finishes and
   abandons the answers of one map of live entries.
   */
  lemma {:induction false} StoresAnswerAlike(m: Memory, t: Table, view: Table, clock: real, ops: seq<Op>, ttl: real, max: nat)
    requires Agree(m, t, view, clock) && ttl > 0.0
    requires Monotone(ops, clock) && BelowCapacity(view, ops, ttl, max)
    ensures MemoryAnswers(m, ops, ttl, max) == ViewAnswers(view, ops, ttl) == TableAnswers(t, ops, ttl)
    decreases |ops|
  {
    if ops != [] {
      var op := ops[0];
      AgreeLater(m, t, view, clock, op.now);
      MemoryRefines(m, view, op, ttl, max);
      TableRefines(t, view, op, ttl);
      StepKeysMatch(t, op, ttl);
      ViewStepIsLive(view, op, ttl);
      StoresAnswerAlike(MemoryStep(m, op, ttl, max).0, TableStep(t, op, ttl).0, ViewStep(view, op, ttl).0,
                        op.now, ops[1..], ttl, max);
    }
  }

  /** So they do from the start. */
  lemma {:induction false} StoresAnswerAlikeFromStart(clock: real, ops: seq<Op>, ttl: real, max: nat)
    requires ttl > 0.0 && Monotone(ops, clock) && BelowCapacity(map[], ops, ttl, max)
    ensures MemoryAnswers([], ops, ttl, max) == ViewAnswers(map[], ops, ttl) == TableAnswers(map[], ops, ttl)
  {
    EmptyStoresAgree(clock);
    StoresAnswerAlike([], map[], map[], clock, ops, ttl, max);
  }

  lemma {:induction false} OverwriteExpired(m: Memory, key: Key, value: Reserved, later: real)
    requires Lookup(m, key).Some? ==> Lookup(m, key).value.expires <= later
    ensures Live(Overwrite(m, key, value), later) == Live(m, later)
    decreases |m|
  {
    if m != [] && m[0].key != key {
      OverwriteExpired(m[1..], key, value, later);
      assert ([m[0]] + Overwrite(m[1..], key, value))[1..] == Overwrite(m[1..], key, value);
    } else if m != [] {
      assert ([m[0].(value := value)] + m[1..])[1..] == m[1..];
    }
  }

  /** Finishing an entry that has expired changes nothing that can be seen of the in-memory store then or later. */
  lemma {:induction false} FinishingExpiredIsUnobservable(m: Memory, key: Key, hash: string, response: Response, now: real, later: real)
    requires DistinctKeys(m) && later >= now
    requires Lookup(m, key).Some? ==> Lookup(m, key).value.expires <= now
    ensures Live(MemoryFinish(m, key, hash, response), later) == Live(m, later)
  {
    if Lookup(m, key).Some? {
      OverwriteExpired(m, key, Reserved(hash, Some(response)), later);
    }
  }

  /** The same of the table. */
  lemma {:induction false} FinishingExpiredRowIsUnobservable(t: Table, key: Key, hash: string, response: Response, now: real, later: real)
    requires later >= now && (key in t ==> t[key].expires <= now)
    ensures At(TableFinish(t, key, hash, response), later) == At(t, later)
  {
  }

  /** A handler that finishes after its entry expired leaves both stores in agreement on the live entries there were. */
  lemma {:induction false} LateFinishIsUnobservable(m: Memory, t: Table, view: Table, clock: real, later: real,
                                   key: Key, hash: string, response: Response)
    requires Agree(m, t, view, clock) && later >= clock && key !in At(view, clock)
    ensures Agree(MemoryFinish(m, key, hash, response), TableFinish(t, key, hash, response), view, later)
  {
    assert ShowsAt(At(view, clock), m, clock, key);
    assert key !in At(t, clock);
    FinishingExpiredIsUnobservable(m, key, hash, response, clock, later);
    FinishingExpiredRowIsUnobservable(t, key, hash, response, clock, later);
    AgreeLater(m, t, view, clock, later);
    var finished := MemoryFinish(m, key, hash, response);
    LookupOverwrite(m, key, Reserved(hash, Some(response)), key);
    forall k
      ensures ShowsAt(At(view, later), finished, later, k)
    {
      assert ShowsAt(At(view, later), m, later, k);
      LookupLive(m, k, later);
      LookupLive(finished, k, later);
    }
  }

  // ------------------------------------- both stores, whatever is read when

  /** The memory store holds the rows of the table, but for those it has pruned. */
  ghost predicate Related(m: Memory, t: Table, pruned: set<Key>) {
    DistinctKeys(m) && forall key :: RelatedAt(m, t, pruned, key)
  }

  predicate RelatedAt(m: Memory, t: Table, pruned: set<Key>, key: Key) {
    Lookup(m, key) == if key in t && key !in pruned then Some(t[key]) else None
  }

  /** A claim prunes the rows it reads as expired; a row inserted anew is in the memory store again. */
  function Pruned(t: Table, pruned: set<Key>, op: Op, ttl: real): set<Key> {
    var (after, answer) := TableStep(t, op, ttl);
    set key | key in after && key in t && !(op.Claim? && answer == New && key == op.key)
              && (key in pruned || (op.Claim? && t[key].expires <= op.now))
  }

  /** A claim that reads the key's row as live although an earlier one has read it as expired. */
  predicate Stale(t: Table, pruned: set<Key>, op: Op) {
    op.Claim? && op.key in t && op.key in pruned && t[op.key].expires > op.now
  }

  predicate NeverStale(t: Table, pruned: set<Key>, ops: seq<Op>, ttl: real)
    decreases |ops|
  {
    ops == [] || (!Stale(t, pruned, ops[0])
                  && NeverStale(TableStep(t, ops[0], ttl).0, Pruned(t, pruned, ops[0], ttl), ops[1..], ttl))
  }

  /** Nothing is ever evicted: there is room whenever an entry is inserted. */
  predicate Room(m: Memory, op: Op, max: nat) {
    op.Claim? && Lookup(Live(m, op.now), op.key).None? ==> |Live(m, op.now)| < max
  }

  predicate NeverFull(m: Memory, ops: seq<Op>, ttl: real, max: nat)
    decreases |ops|
  {
    ops == [] || (Room(m, ops[0], max) && NeverFull(MemoryStep(m, ops[0], ttl, max).0, ops[1..], ttl, max))
  }

  lemma {:induction false} RelatedClaim(m: Memory, t: Table, pruned: set<Key>, key: Key, hash: string, now: real, ttl: real, max: nat)
    requires Related(m, t, pruned) && Room(m, Claim(key, hash, now), max) && !Stale(t, pruned, Claim(key, hash, now))
    ensures var (after, answer) := MemoryClaim(m, key, hash, now, ttl, max);
      answer == TableClaim(t, key, hash, now, ttl).1
      && Related(after, TableClaim(t, key, hash, now, ttl).0, Pruned(t, pruned, Claim(key, hash, now), ttl))
  {
    var live, slot := Live(m, now), Slot(key, Reserved(hash, None), now + ttl);
    LiveKeepsShape(m, now);
    LookupLive(m, key, now);
    LookupIs(live, key);
    assert RelatedAt(m, t, pruned, key);
    var after := MemoryClaim(m, key, hash, now, ttl, max).0;
    forall k
      ensures RelatedAt(after, TableClaim(t, key, hash, now, ttl).0, Pruned(t, pruned, Claim(key, hash, now), ttl), k)
    {
      assert RelatedAt(m, t, pruned, k);
      LookupLive(m, k, now);
      if Lookup(live, key).None? {
        LookupAppend(live, slot, k);
      }
    }
  }

  lemma {:induction false} RelatedFinish(m: Memory, t: Table, pruned: set<Key>, key: Key, hash: string, response: Response, now: real, ttl: real)
    requires Related(m, t, pruned)
    ensures Related(MemoryFinish(m, key, hash, response), TableFinish(t, key, hash, response),
                    Pruned(t, pruned, Finish(key, hash, response, now), ttl))
  {
    LookupOverwrite(m, key, Reserved(hash, Some(response)), key);
    assert RelatedAt(m, t, pruned, key);
    forall k
      ensures RelatedAt(MemoryFinish(m, key, hash, response), TableFinish(t, key, hash, response),
                        Pruned(t, pruned, Finish(key, hash, response, now), ttl), k)
    {
      assert RelatedAt(m, t, pruned, k);
      LookupOverwrite(m, key, Reserved(hash, Some(response)), k);
    }
  }

  lemma {:induction false} RelatedAbandon(m: Memory, t: Table, pruned: set<Key>, key: Key, hash: string, now: real, ttl: real)
    requires Related(m, t, pruned)
    ensures Related(MemoryAbandon(m, key, hash), TableAbandon(t, key, hash), Pruned(t, pruned, Abandon(key, hash, now), ttl))
  {
    LookupRemove(m, key, key);
    assert RelatedAt(m, t, pruned, key);
    forall k
      ensures RelatedAt(MemoryAbandon(m, key, hash), TableAbandon(t, key, hash), Pruned(t, pruned, Abandon(key, hash, now), ttl), k)
    {
      assert RelatedAt(m, t, pruned, k);
      LookupRemove(m, key, k);
    }
  }

  lemma {:induction false} RelatedStep(m: Memory, t: Table, pruned: set<Key>, op: Op, ttl: real, max: nat)
    requires Related(m, t, pruned) && Room(m, op, max) && !Stale(t, pruned, op)
    ensures MemoryStep(m, op, ttl, max).1 == TableStep(t, op, ttl).1
    ensures Related(MemoryStep(m, op, ttl, max).0, TableStep(t, op, ttl).0, Pruned(t, pruned, op, ttl))
  {
    match op
    case Claim(key, hash, now) => RelatedClaim(m, t, pruned, key, hash, now, ttl, max);
    case Finish(key, hash, response, now) => RelatedFinish(m, t, pruned, key, hash, response, now, ttl);
    case Abandon(key, hash, now) => RelatedAbandon(m, t, pruned, key, hash, now, ttl);
  }

  /**
   Below capacity, with readings in any order, the two stores answer alike exactly when no
   claim reads a row as live that an earlier claim, of any key, has read as expired.
   */
  lemma {:induction false} StoresAnswerAlikeExactly(m: Memory, t: Table, pruned: set<Key>, ops: seq<Op>, ttl: real, max: nat)
    requires Related(m, t, pruned) && NeverFull(m, ops, ttl, max)
    ensures MemoryAnswers(m, ops, ttl, max) == TableAnswers(t, ops, ttl) <==> NeverStale(t, pruned, ops, ttl)
    decreases |ops|
  {
    if ops != [] {
      var op := ops[0];
      var memory, table := MemoryAnswers(m, ops, ttl, max), TableAnswers(t, ops, ttl);
      if Stale(t, pruned, op) {
        assert RelatedAt(m, t, pruned, op.key);
        LookupIs(m, op.key);
        LookupLive(m, op.key, op.now);
        assert memory[0] == New && table[0] != New;
      } else {
        RelatedStep(m, t, pruned, op, ttl, max);
        StoresAnswerAlikeExactly(MemoryStep(m, op, ttl, max).0, TableStep(t, op, ttl).0, Pruned(t, pruned, op, ttl), ops[1..], ttl, max);
        assert memory[1..] == MemoryAnswers(MemoryStep(m, op, ttl, max).0, ops[1..], ttl, max);
        assert table[1..] == TableAnswers(TableStep(t, op, ttl).0, ops[1..], ttl);
        assert memory[0] == table[0];
        assert memory == [memory[0]] + memory[1..] && table == [table[0]] + table[1..];
      }
    }
  }

  /** Readings in lock order are never stale. */
  lemma {:induction false} InOrderIsNeverStale(t: Table, pruned: set<Key>, clock: real, ops: seq<Op>, ttl: real)
    requires Monotone(ops, clock) && forall key :: key in pruned && key in t ==> t[key].expires <= clock
    ensures NeverStale(t, pruned, ops, ttl)
    decreases |ops|
  {
    if ops != [] {
      InOrderIsNeverStale(TableStep(t, ops[0], ttl).0, Pruned(t, pruned, ops[0], ttl), ops[0].now, ops[1..], ttl);
    }
  }

  /** Any late claim separates them: what the table still answers for, the memory store takes as new. */
  lemma {:induction false} LateClaimSeparates(key: Key, other: Key, hash: string, late: real, ttl: real, max: nat)
    requires key != other && 0.0 <= late < ttl && max >= 2
    ensures var ops := [Claim(key, hash, 0.0), Claim(other, hash, ttl), Claim(key, hash, late)];
      && NeverFull([], ops, ttl, max) && MemoryAnswers([], ops, ttl, max) != TableAnswers(map[], ops, ttl)
  {
    var ops := [Claim(key, hash, 0.0), Claim(other, hash, ttl), Claim(key, hash, late)];
    var a, b := Slot(key, Reserved(hash, None), 0.0 + ttl), Slot(other, Reserved(hash, None), ttl + ttl);
    var empty: Memory, none: Table := [], map[];
    var one, two := none[key := a], none[key := a][other := b];
    assert ops[1..] == [ops[1], ops[2]] && ops[1..][1..] == [ops[2]] && [ops[2]][1..] == [];
    assert Live(empty, 0.0) == empty && Live([a], ttl) == empty && empty + [a] == [a] && empty + [b] == [b];
    InsertWithRoom(empty, a, max);
    InsertWithRoom(empty, b, max);
    assert MemoryStep(empty, ops[0], ttl, max).0 == [a] && MemoryStep([a], ops[1], ttl, max).0 == [b];
    AllLive([b], late);
    assert NeverFull([b], ops[1..][1..], ttl, max) && NeverFull([a], ops[1..], ttl, max);
    assert TableStep(none, ops[0], ttl).0 == one && TableStep(one, ops[1], ttl).0 == two;
    var pruned := Pruned(one, {}, ops[1], ttl);
    assert Pruned(none, {}, ops[0], ttl) == {} && Stale(two, pruned, ops[2]);
    assert !NeverStale(two, pruned, ops[1..][1..], ttl) && !NeverStale(one, {}, ops[1..], ttl);
    assert forall k :: RelatedAt(empty, none, {}, k);
    StoresAnswerAlikeExactly(empty, none, {}, ops, ttl, max);
  }

  // --------------------------------------------------------------- eviction

  /** In expiry order, ties included, the oldest slot is the first inserted one. */
  lemma {:induction false} OldestIsFirst<V>(slots: seq<Slot<V>>)
    requires slots != [] && InExpiryOrder(slots)
    ensures Oldest(slots) == 0
  {
  }

  /** Inserting in expiry order drops the first slot when the store is full. */
  lemma {:induction false} InsertIsFifo<V>(slots: seq<Slot<V>>, slot: Slot<V>, max: nat)
    requires InExpiryOrder(slots) && |slots| <= max && max >= 1
    ensures Insert(slots, slot, max) == (if |slots| == max then slots[1..] else slots) + [slot]
  {
    if |slots| == max {
      OldestIsFirst(slots);
    }
  }

  lemma {:induction false} AppendAges<V>(slots: seq<Slot<V>>, slot: Slot<V>, now: real, ttl: real)
    requires Aged(slots, now, ttl) && slot.expires == now + ttl
    ensures Aged(slots + [slot], now, ttl)
  {
  }

  lemma {:induction false} InsertAges<V>(slots: seq<Slot<V>>, slot: Slot<V>, max: nat, now: real, ttl: real)
    requires Aged(slots, now, ttl) && slot.expires == now + ttl && max >= 1
    requires |slots| <= max && DistinctKeys(slots) && Lookup(slots, slot.key).None?
    ensures Insert(slots, slot, max) == (if |slots| == max then slots[1..] else slots) + [slot]
    ensures Aged(Insert(slots, slot, max), now, ttl) && |Insert(slots, slot, max)| <= max
    ensures DistinctKeys(Insert(slots, slot, max))
  {
    LookupIs(slots, slot.key);
    InsertIsFifo(slots, slot, max);
    var kept := if |slots| == max then slots[1..] else slots;
    AppendAges(kept, slot, now, ttl);
  }

  ghost predicate MemoryOk(m: Memory, clock: real, ttl: real, max: nat) {
    DistinctKeys(m) && Aged(m, clock, ttl) && |m| <= max
  }

  lemma {:induction false} LiveAges<V>(slots: seq<Slot<V>>, clock: real, now: real, ttl: real)
    requires Aged(slots, clock, ttl) && now >= clock
    ensures Aged(Live(slots, now), now, ttl)
  {
    LiveKeepsShape(slots, now);
    forall i | 0 <= i < |Live(slots, now)|
      ensures Live(slots, now)[i].expires <= now + ttl
    {
      LiveIn(slots, now, Live(slots, now)[i]);
    }
  }

  lemma {:induction false} ClaimOk(m: Memory, clock: real, key: Key, hash: string, now: real, ttl: real, max: nat)
    requires MemoryOk(m, clock, ttl, max) && now >= clock && max >= 1
    ensures MemoryOk(MemoryClaim(m, key, hash, now, ttl, max).0, now, ttl, max)
    ensures MemoryClaim(m, key, hash, now, ttl, max).1 == New ==>
      var live := Live(m, now);
      && Lookup(live, key).None?
      && MemoryClaim(m, key, hash, now, ttl, max).0
         == (if |live| == max then live[1..] else live) + [Slot(key, Reserved(hash, None), now + ttl)]
  {
    LiveKeepsShape(m, now);
    LiveAges(m, clock, now, ttl);
    if Lookup(Live(m, now), key).None? {
      InsertAges(Live(m, now), Slot(key, Reserved(hash, None), now + ttl), max, now, ttl);
    }
  }

  lemma {:induction false} RemoveOk(m: Memory, clock: real, key: Key, now: real, ttl: real, max: nat)
    requires MemoryOk(m, clock, ttl, max) && now >= clock
    ensures MemoryOk(Remove(m, key), now, ttl, max)
  {
    LookupRemove(m, key, key);
    var after := Remove(m, key);
    forall i | 0 <= i < |after|
      ensures after[i].expires <= now + ttl
    {
      assert after[i] in m;
    }
  }

  /** When clock readings come to the lock in order, the store stays in expiry order, so eviction is first-in first-out. */
  lemma {:induction false} MemoryStepOk(m: Memory, clock: real, op: Op, ttl: real, max: nat)
    requires MemoryOk(m, clock, ttl, max) && op.now >= clock && max >= 1
    ensures MemoryOk(MemoryStep(m, op, ttl, max).0, op.now, ttl, max)
    ensures op.Claim? && MemoryStep(m, op, ttl, max).1 == New ==>
      var live := Live(m, op.now);
      MemoryStep(m, op, ttl, max).0
        == (if |live| == max then live[1..] else live) + [Slot(op.key, Reserved(op.hash, None), op.now + ttl)]
  {
    match op
    case Claim(key, hash, now) => ClaimOk(m, clock, key, hash, now, ttl, max);
    case Finish(key, hash, response, now) => LookupOverwrite(m, key, Reserved(hash, Some(response)), key);
    case Abandon(key, hash, now) => RemoveOk(m, clock, key, now, ttl, max);
  }

  // ------------------------------------------- eviction, whatever is read when

  /** The clock is read before the lock is taken, so readings may come to the store in any order. */
  predicate Sized<V>(slots: seq<Slot<V>>, max: nat) {
    DistinctKeys(slots) && |slots| <= max
  }

  function NotBefore<V>(slots: seq<Slot<V>>, e: real): nat {
    if slots == [] then 0 else (if slots[0].expires >= e then 1 else 0) + NotBefore(slots[1..], e)
  }

  /** How many slots outrank the key's slot of expiry `e`: those before it that expire later, and those behind it that expire no earlier. */
  function Rivals<V>(slots: seq<Slot<V>>, key: Key, e: real): nat {
    if slots == [] then 0
    else if slots[0].key == key then NotBefore(slots[1..], e)
    else (if slots[0].expires > e then 1 else 0) + Rivals(slots[1..], key, e)
  }

  lemma {:induction false} NotBeforeLive<V>(slots: seq<Slot<V>>, now: real, e: real)
    ensures NotBefore(Live(slots, now), e) <= NotBefore(slots, e)
    decreases |slots|
  {
    if slots != [] {
      NotBeforeLive(slots[1..], now, e);
      if slots[0].expires > now {
        assert Live(slots, now)[1..] == Live(slots[1..], now);
      } else {
        assert Live(slots, now) == Live(slots[1..], now);
      }
    }
  }

  lemma {:induction false} RivalsLive<V>(slots: seq<Slot<V>>, key: Key, now: real, e: real)
    requires Lookup(slots, key).Some? && Lookup(slots, key).value.expires > now
    ensures Rivals(Live(slots, now), key, e) <= Rivals(slots, key, e)
    decreases |slots|
  {
    if slots[0].key == key {
      NotBeforeLive(slots[1..], now, e);
      assert Live(slots, now)[1..] == Live(slots[1..], now);
    } else {
      RivalsLive(slots[1..], key, now, e);
      if slots[0].expires > now {
        assert Live(slots, now)[1..] == Live(slots[1..], now);
      } else {
        assert Live(slots, now) == Live(slots[1..], now);
      }
    }
  }

  lemma {:induction false} NotBeforeRemove<V>(slots: seq<Slot<V>>, gone: Key, e: real)
    ensures NotBefore(Remove(slots, gone), e) <= NotBefore(slots, e)
    decreases |slots|
  {
    if slots != [] && slots[0].key != gone {
      NotBeforeRemove(slots[1..], gone, e);
      assert Remove(slots, gone)[1..] == Remove(slots[1..], gone);
    }
  }

  lemma {:induction false} RivalsRemove<V>(slots: seq<Slot<V>>, key: Key, gone: Key, e: real)
    requires key != gone
    ensures Rivals(Remove(slots, gone), key, e) <= Rivals(slots, key, e)
    decreases |slots|
  {
    if slots != [] && slots[0].key != gone {
      assert Remove(slots, gone)[1..] == Remove(slots[1..], gone);
      NotBeforeRemove(slots[1..], gone, e);
      if slots[0].key != key {
        RivalsRemove(slots[1..], key, gone, e);
      }
    }
  }

  lemma {:induction false} NotBeforeOverwrite<V>(slots: seq<Slot<V>>, target: Key, value: V, e: real)
    ensures NotBefore(Overwrite(slots, target, value), e) == NotBefore(slots, e)
    decreases |slots|
  {
    if slots != [] {
      if slots[0].key == target {
        assert Overwrite(slots, target, value)[1..] == slots[1..];
      } else {
        NotBeforeOverwrite(slots[1..], target, value, e);
        assert Overwrite(slots, target, value)[1..] == Overwrite(slots[1..], target, value);
      }
    }
  }

  lemma {:induction false} RivalsOverwrite<V>(slots: seq<Slot<V>>, key: Key, target: Key, value: V, e: real)
    ensures Rivals(Overwrite(slots, target, value), key, e) == Rivals(slots, key, e)
    decreases |slots|
  {
    if slots != [] {
      if slots[0].key == target {
        assert Overwrite(slots, target, value)[1..] == slots[1..];
      } else {
        NotBeforeOverwrite(slots[1..], target, value, e);
        RivalsOverwrite(slots[1..], key, target, value, e);
        assert Overwrite(slots, target, value)[1..] == Overwrite(slots[1..], target, value);
      }
    }
  }

  lemma {:induction false} NotBeforeAppend<V>(slots: seq<Slot<V>>, slot: Slot<V>, e: real)
    ensures NotBefore(slots + [slot], e) == NotBefore(slots, e) + if slot.expires >= e then 1 else 0
    decreases |slots|
  {
    if slots != [] {
      assert (slots + [slot])[1..] == slots[1..] + [slot];
      NotBeforeAppend(slots[1..], slot, e);
    }
  }

  lemma {:induction false} RivalsAppend<V>(slots: seq<Slot<V>>, slot: Slot<V>, key: Key, e: real)
    ensures Lookup(slots, key).Some? ==>
      Rivals(slots + [slot], key, e) == Rivals(slots, key, e) + if slot.expires >= e then 1 else 0
    ensures Lookup(slots, key).None? && slot.key == key ==> Rivals(slots + [slot], key, e) == Rivals(slots, key, e)
    decreases |slots|
  {
    if slots != [] {
      assert (slots + [slot])[1..] == slots[1..] + [slot];
      NotBeforeAppend(slots[1..], slot, e);
      RivalsAppend(slots[1..], slot, key, e);
    }
  }

  lemma {:induction false} NotBeforeAll<V>(slots: seq<Slot<V>>, e: real)
    ensures NotBefore(slots, e) <= |slots|
    ensures NotBefore(slots, e) == |slots| <==> forall j :: 0 <= j < |slots| ==> slots[j].expires >= e
    decreases |slots|
  {
    if slots != [] {
      var rest := slots[1..];
      assert forall j :: 0 < j < |slots| ==> slots[j] == rest[j - 1];
      NotBeforeAll(rest, e);
    }
  }

  /** Every other slot outranks the one at `i`. */
  predicate Lowest<V>(slots: seq<Slot<V>>, i: nat, e: real)
    requires i < |slots|
  {
    (forall j :: 0 <= j < i ==> slots[j].expires > e) && (forall j :: i < j < |slots| ==> slots[j].expires >= e)
  }

  lemma {:induction false} LowestRest<V>(slots: seq<Slot<V>>, i: nat, e: real)
    requires 0 < i < |slots|
    ensures Lowest(slots, i, e) <==> slots[0].expires > e && Lowest(slots[1..], i - 1, e)
  {
    var rest := slots[1..];
    assert forall j :: 0 < j < |slots| ==> slots[j] == rest[j - 1];
    if slots[0].expires > e && Lowest(rest, i - 1, e) {
      forall j | 0 <= j < |slots| && j != i
        ensures if j < i then slots[j].expires > e else slots[j].expires >= e
      {
        if j > 0 {
          assert slots[j] == rest[j - 1];
        }
      }
    }
    if Lowest(slots, i, e) {
      forall j | 0 <= j < |rest| && j != i - 1
        ensures if j < i - 1 then rest[j].expires > e else rest[j].expires >= e
      {
        assert rest[j] == slots[j + 1];
      }
    }
  }

  lemma {:induction false} AllRivals<V>(slots: seq<Slot<V>>, i: nat, e: real)
    requires DistinctKeys(slots) && i < |slots|
    ensures Rivals(slots, slots[i].key, e) <= |slots| - 1
    ensures Rivals(slots, slots[i].key, e) == |slots| - 1 <==> Lowest(slots, i, e)
    decreases |slots|
  {
    var rest := slots[1..];
    assert forall j :: 0 < j < |slots| ==> slots[j] == rest[j - 1];
    if i == 0 {
      NotBeforeAll(rest, e);
      assert Lowest(slots, 0, e) <==> forall j :: 0 <= j < |rest| ==> rest[j].expires >= e by {
        assert forall j :: 0 <= j < |rest| ==> rest[j] == slots[j + 1];
      }
    } else {
      assert slots[0].key != slots[i].key && rest[i - 1] == slots[i];
      AllRivals(rest, i - 1, e);
      LowestRest(slots, i, e);
    }
  }

  /** The oldest slot by expiry is the one that all others outrank. */
  lemma {:induction false} OldestIsLowest<V>(slots: seq<Slot<V>>, i: nat)
    requires i < |slots|
    ensures Oldest(slots) == i <==> Lowest(slots, i, slots[i].expires)
  {
    var o := Oldest(slots);
    if o < i {
      assert slots[o].expires <= slots[i].expires;
    }
  }

  lemma {:induction false} EvictIsRemove<V>(slots: seq<Slot<V>>, i: nat)
    requires DistinctKeys(slots) && i < |slots|
    ensures slots[..i] + slots[i + 1..] == Remove(slots, slots[i].key)
  {
    FirstAt(slots, slots[i].key, i);
  }

  /** The slot of a key is the oldest exactly when all others outrank it. */
  lemma {:induction false} OldestHasAllRivals<V>(slots: seq<Slot<V>>, key: Key)
    requires DistinctKeys(slots) && Lookup(slots, key).Some?
    ensures var e := Lookup(slots, key).value.expires;
      && Rivals(slots, key, e) <= |slots| - 1
      && (slots[Oldest(slots)].key == key <==> Rivals(slots, key, e) == |slots| - 1)
  {
    var found := Lookup(slots, key).value;
    LookupIs(slots, key);
    var i :| 0 <= i < |slots| && slots[i] == found;
    AllRivals(slots, i, found.expires);
    OldestIsLowest(slots, i);
  }

  lemma {:induction false} KeptSpares<V>(slots: seq<Slot<V>>, max: nat, key: Key)
    requires Sized(slots, max) && max >= 1 && Lookup(slots, key).Some?
    ensures var kept, e := Kept(slots, max), Lookup(slots, key).value.expires;
      && Lookup(kept, key) == (if Rivals(slots, key, e) == max - 1 then None else Lookup(slots, key))
      && Rivals(kept, key, e) <= Rivals(slots, key, e)
  {
    OldestHasAllRivals(slots, key);
    if |slots| == max {
      var gone, e := slots[Oldest(slots)].key, Lookup(slots, key).value.expires;
      EvictIsRemove(slots, Oldest(slots));
      LookupRemove(slots, gone, key);
      if gone != key {
        RivalsRemove(slots, key, gone, e);
      } else {
        assert Rivals(slots, key, e) == max - 1;
        RivalsOfNone(Kept(slots, max), key, e);
      }
    }
  }

  lemma {:induction false} RivalsOfNone<V>(slots: seq<Slot<V>>, key: Key, e: real)
    ensures Rivals(slots, key, e) <= |slots|
    decreases |slots|
  {
    if slots != [] {
      NotBeforeAll(slots[1..], e);
      RivalsOfNone(slots[1..], key, e);
    }
  }

  lemma {:induction false} KeptLacks<V>(slots: seq<Slot<V>>, max: nat, key: Key)
    requires DistinctKeys(slots) && Lookup(slots, key).None?
    ensures DistinctKeys(Kept(slots, max)) && Lookup(Kept(slots, max), key).None?
    ensures |Kept(slots, max)| <= |slots| && (|slots| == max >= 1 ==> |Kept(slots, max)| == max - 1)
  {
    if |slots| >= max && slots != [] {
      var gone := slots[Oldest(slots)].key;
      EvictIsRemove(slots, Oldest(slots));
      LookupRemove(slots, gone, key);
    }
  }

  /** An insertion drops an entry exactly when the store is full and every other entry was read later, or at the same time and inserted later. */
  lemma {:induction false} InsertDropsExactly<V>(slots: seq<Slot<V>>, slot: Slot<V>, max: nat, key: Key)
    requires Sized(slots, max) && max >= 1 && Lookup(slots, slot.key).None? && Lookup(slots, key).Some?
    ensures var found, after := Lookup(slots, key), Insert(slots, slot, max);
      var e := found.value.expires;
      && Lookup(after, key) == (if Rivals(slots, key, e) == max - 1 then None else found)
      && (Lookup(after, key).Some? ==> Rivals(after, key, e) <= Rivals(slots, key, e) + if slot.expires >= e then 1 else 0)
  {
    var kept, e := Kept(slots, max), Lookup(slots, key).value.expires;
    KeptSpares(slots, max, key);
    KeptLacks(slots, max, slot.key);
    LookupAppend(kept, slot, key);
    RivalsAppend(kept, slot, key, e);
    assert Insert(slots, slot, max) == kept + [slot];
  }

  /** What an insertion appends the new slot to. */
  function Kept<V>(slots: seq<Slot<V>>, max: nat): seq<Slot<V>> {
    if |slots| >= max && slots != [] then slots[..Oldest(slots)] + slots[Oldest(slots) + 1..] else slots
  }

  lemma {:induction false} InsertSized<V>(slots: seq<Slot<V>>, slot: Slot<V>, max: nat)
    requires Sized(slots, max) && max >= 1 && Lookup(slots, slot.key).None?
    ensures Sized(Insert(slots, slot, max), max) && Lookup(Insert(slots, slot, max), slot.key) == Some(slot)
    ensures Rivals(Insert(slots, slot, max), slot.key, slot.expires) <= Rivals(slots, slot.key, slot.expires)
  {
    var kept := Kept(slots, max);
    KeptLacks(slots, max, slot.key);
    KeptFewerRivals(slots, max, slot.key, slot.expires);
    AppendDistinct(kept, slot);
    LookupAppend(kept, slot, slot.key);
    RivalsAppend(kept, slot, slot.key, slot.expires);
    assert Insert(slots, slot, max) == kept + [slot];
  }

  lemma {:induction false} AppendDistinct<V>(slots: seq<Slot<V>>, slot: Slot<V>)
    requires DistinctKeys(slots) && Lookup(slots, slot.key).None?
    ensures DistinctKeys(slots + [slot])
  {
    LookupIs(slots, slot.key);
  }

  lemma {:induction false} KeptFewerRivals<V>(slots: seq<Slot<V>>, max: nat, key: Key, e: real)
    requires DistinctKeys(slots) && Lookup(slots, key).None?
    ensures Rivals(Kept(slots, max), key, e) <= Rivals(slots, key, e)
  {
    if |slots| >= max && slots != [] {
      LookupIs(slots, key);
      EvictIsRemove(slots, Oldest(slots));
      RivalsRemove(slots, key, slots[Oldest(slots)].key, e);
    }
  }

  lemma {:induction false} ClaimSized(m: Memory, key: Key, hash: string, now: real, ttl: real, max: nat)
    requires Sized(m, max) && max >= 1
    ensures Sized(MemoryClaim(m, key, hash, now, ttl, max).0, max)
    ensures MemoryClaim(m, key, hash, now, ttl, max).1 == New ==>
      Lookup(MemoryClaim(m, key, hash, now, ttl, max).0, key) == Some(Slot(key, Reserved(hash, None), now + ttl))
  {
    LiveKeepsShape(m, now);
    if Lookup(Live(m, now), key).None? {
      InsertSized(Live(m, now), Slot(key, Reserved(hash, None), now + ttl), max);
    }
  }

  lemma {:induction false} FinishSized(m: Memory, key: Key, hash: string, response: Response, max: nat)
    requires Sized(m, max)
    ensures Sized(MemoryFinish(m, key, hash, response), max)
  {
    LookupOverwrite(m, key, Reserved(hash, Some(response)), key);
  }

  /** The store never outgrows its capacity, whatever the readings. */
  lemma {:induction false} MemoryStepSized(m: Memory, op: Op, ttl: real, max: nat)
    requires Sized(m, max) && max >= 1
    ensures Sized(MemoryStep(m, op, ttl, max).0, max)
  {
    match op
    case Claim(key, hash, now) => ClaimSized(m, key, hash, now, ttl, max);
    case Finish(key, hash, response, now) => FinishSized(m, key, hash, response, max);
    case Abandon(key, hash, now) => LookupRemove(m, key, key);
  }

  /**
   A claim of another key makes the store lose an entry exactly when it reads the entry as
   expired, or inserts into a full store in which every other live entry outranks it.
   */
  lemma {:induction false} ClaimDropsExactly(m: Memory, claimed: Key, hash: string, now: real, ttl: real, max: nat, key: Key)
    requires Sized(m, max) && max >= 1 && Lookup(m, key).Some? && claimed != key
    ensures var (after, answer) := MemoryClaim(m, claimed, hash, now, ttl, max);
      var found := Lookup(m, key);
      Lookup(after, key) ==
        if found.value.expires <= now || (answer == New && Rivals(Live(m, now), key, found.value.expires) == max - 1)
        then None else found
  {
    var live := Live(m, now);
    LiveKeepsShape(m, now);
    LookupLive(m, key, now);
    LookupIs(live, claimed);
    if Lookup(live, claimed).None? {
      if Lookup(live, key).Some? {
        InsertDropsExactly(live, Slot(claimed, Reserved(hash, None), now + ttl), max, key);
      } else {
        InsertAdds(live, Slot(claimed, Reserved(hash, None), now + ttl), max, key);
      }
    }
  }

  lemma {:induction false} InsertAdds<V>(slots: seq<Slot<V>>, slot: Slot<V>, max: nat, key: Key)
    requires DistinctKeys(slots) && Lookup(slots, slot.key).None? && Lookup(slots, key).None? && key != slot.key
    ensures Lookup(Insert(slots, slot, max), key).None?
  {
    LookupIs(slots, key);
    LookupIs(Kept(slots, max), key);
    LookupIs(slots, slot.key);
    LookupIs(Kept(slots, max), slot.key);
    LookupAppend(Kept(slots, max), slot, key);
  }

  // --------------------------------------------------------------- survival

  function MemoryAfter(m: Memory, ops: seq<Op>, ttl: real, max: nat): Memory
    decreases |ops|
  {
    if ops == [] then m else MemoryAfter(MemoryStep(m, ops[0], ttl, max).0, ops[1..], ttl, max)
  }

  /** How many of the claims inserted a new entry. */
  function Insertions(m: Memory, ops: seq<Op>, ttl: real, max: nat): nat
    decreases |ops|
  {
    if ops == [] then 0
    else
      var (next, answer) := MemoryStep(m, ops[0], ttl, max);
      (if ops[0].Claim? && answer == New then 1 else 0) + Insertions(next, ops[1..], ttl, max)
  }

  /**
   Nothing is inserted once `max - 1` others read no earlier than `reading` have been;
   `rivals` is how many there are to begin with.
   */
  predicate Roomy(m: Memory, ops: seq<Op>, reading: real, rivals: nat, ttl: real, max: nat)
    decreases |ops|
  {
    ops == [] ||
    var (next, answer) := MemoryStep(m, ops[0], ttl, max);
    var inserts := ops[0].Claim? && answer == New;
    && (inserts ==> rivals + 2 <= max)
    && Roomy(next, ops[1..], reading, if inserts && ops[0].now >= reading then rivals + 1 else rivals, ttl, max)
  }

  /** No operation abandons the key, and all come before `deadline`. */
  predicate Spares(ops: seq<Op>, key: Key, deadline: real) {
    forall i :: 0 <= i < |ops| ==> ops[i].now < deadline && !(ops[i].Abandon? && ops[i].key == key)
  }

  lemma {:induction false} PruningSpares<V>(slots: seq<Slot<V>>, now: real, max: nat, key: Key)
    requires Sized(slots, max) && Lookup(slots, key).Some? && now < Lookup(slots, key).value.expires
    ensures var live := Live(slots, now);
      && Sized(live, max) && Lookup(live, key) == Lookup(slots, key)
      && Rivals(live, key, Lookup(slots, key).value.expires) <= Rivals(slots, key, Lookup(slots, key).value.expires)
  {
    LiveKeepsShape(slots, now);
    LookupLive(slots, key, now);
    RivalsLive(slots, key, now, Lookup(slots, key).value.expires);
  }

  /** An insertion after pruning spares an entry that fewer than `max - 1` others outrank. */
  lemma {:induction false} InsertionSpares<V>(slots: seq<Slot<V>>, slot: Slot<V>, now: real, max: nat, key: Key)
    requires Sized(slots, max) && max >= 1 && Lookup(slots, key).Some? && now < Lookup(slots, key).value.expires
    requires Lookup(Live(slots, now), slot.key).None? && Rivals(slots, key, Lookup(slots, key).value.expires) + 2 <= max
    ensures var after, e := Insert(Live(slots, now), slot, max), Lookup(slots, key).value.expires;
      && Lookup(after, key) == Lookup(slots, key)
      && Rivals(after, key, e) <= Rivals(slots, key, e) + if slot.expires >= e then 1 else 0
  {
    PruningSpares(slots, now, max, key);
    InsertDropsExactly(Live(slots, now), slot, max, key);
  }

  lemma {:induction false} ClaimSurvives(m: Memory, claimed: Key, hash: string, now: real, ttl: real, max: nat, key: Key)
    requires Sized(m, max) && max >= 1 && Lookup(m, key).Some? && now < Lookup(m, key).value.expires
    requires MemoryClaim(m, claimed, hash, now, ttl, max).1 == New ==> Rivals(m, key, Lookup(m, key).value.expires) + 2 <= max
    ensures var (after, answer) := MemoryClaim(m, claimed, hash, now, ttl, max);
      var e := Lookup(m, key).value.expires;
      && Lookup(after, key) == Lookup(m, key)
      && Rivals(after, key, e) <= Rivals(m, key, e) + if answer == New && now + ttl >= e then 1 else 0
  {
    if Lookup(Live(m, now), claimed).None? {
      InsertionSpares(m, Slot(claimed, Reserved(hash, None), now + ttl), now, max, key);
    } else {
      PruningSpares(m, now, max, key);
    }
  }

  lemma {:induction false} StepSurvives(m: Memory, op: Op, ttl: real, max: nat, key: Key)
    requires Sized(m, max) && max >= 1
    requires Lookup(m, key).Some? && op.now < Lookup(m, key).value.expires && !(op.Abandon? && op.key == key)
    requires op.Claim? && MemoryStep(m, op, ttl, max).1 == New ==> Rivals(m, key, Lookup(m, key).value.expires) + 2 <= max
    ensures var (after, answer) := MemoryStep(m, op, ttl, max);
      var e := Lookup(m, key).value.expires;
      && Lookup(after, key).Some? && Lookup(after, key).value.expires == e
      && Lookup(after, key).value.value.hash == Lookup(m, key).value.value.hash
      && Rivals(after, key, e) <= Rivals(m, key, e) + if op.Claim? && answer == New && op.now + ttl >= e then 1 else 0
  {
    var e := Lookup(m, key).value.expires;
    match op
    case Claim(k, hash, now) => ClaimSurvives(m, k, hash, now, ttl, max, key);
    case Finish(k, hash, response, now) =>
      LookupIs(m, k);
      LookupOverwrite(m, k, Reserved(hash, Some(response)), key);
      RivalsOverwrite(m, key, k, Reserved(hash, Some(response)), e);
    case Abandon(k, hash, now) =>
      LookupRemove(m, k, key);
      RivalsRemove(m, key, k, e);
  }

  lemma {:induction false} RoomySurvives(m: Memory, ops: seq<Op>, reading: real, rivals: nat, ttl: real, max: nat, key: Key)
    requires Sized(m, max) && max >= 1
    requires Lookup(m, key).Some? && Lookup(m, key).value.expires == reading + ttl && Rivals(m, key, reading + ttl) <= rivals
    requires Spares(ops, key, reading + ttl) && Roomy(m, ops, reading, rivals, ttl, max)
    ensures var after := MemoryAfter(m, ops, ttl, max);
      Lookup(after, key).Some? && Lookup(after, key).value.value.hash == Lookup(m, key).value.value.hash
    decreases |ops|
  {
    if ops != [] {
      assert Spares(ops[1..], key, reading + ttl) by {
        assert forall i :: 0 <= i < |ops[1..]| ==> ops[1..][i] == ops[i + 1];
      }
      var (next, answer) := MemoryStep(m, ops[0], ttl, max);
      StepSurvives(m, ops[0], ttl, max, key);
      MemoryStepSized(m, ops[0], ttl, max);
      RoomySurvives(next, ops[1..], reading,
                    if ops[0].Claim? && answer == New && ops[0].now >= reading then rivals + 1 else rivals, ttl, max, key);
    }
  }

  /**
   Within its ttl an accepted entry that is not abandoned is still there after any further
   operations, whatever their readings and in whatever order they come to the lock, that
   insert nothing more once `max - 1` other entries with readings not before its own have
   been inserted, before it or after it.
   */
  lemma {:induction false} AcceptedEntrySurvives(m: Memory, key: Key, hash: string, now: real, ops: seq<Op>, ttl: real, max: nat)
    requires Sized(m, max) && max >= 1 && MemoryClaim(m, key, hash, now, ttl, max).1 == New
    requires var accepted := MemoryClaim(m, key, hash, now, ttl, max).0;
      Spares(ops, key, now + ttl) && Roomy(accepted, ops, now, Rivals(accepted, key, now + ttl), ttl, max)
    ensures var after := MemoryAfter(MemoryClaim(m, key, hash, now, ttl, max).0, ops, ttl, max);
      Lookup(after, key).Some? && Lookup(after, key).value.value.hash == hash
  {
    var accepted := MemoryClaim(m, key, hash, now, ttl, max).0;
    ClaimSized(m, key, hash, now, ttl, max);
    RoomySurvives(accepted, ops, now, Rivals(accepted, key, now + ttl), ttl, max, key);
  }

  lemma {:induction false} FewInsertionsAreRoomy(m: Memory, ops: seq<Op>, reading: real, rivals: nat, ttl: real, max: nat)
    requires rivals + Insertions(m, ops, ttl, max) + 1 <= max
    ensures Roomy(m, ops, reading, rivals, ttl, max)
    decreases |ops|
  {
    if ops != [] {
      var (next, answer) := MemoryStep(m, ops[0], ttl, max);
      FewInsertionsAreRoomy(next, ops[1..], reading,
                            if ops[0].Claim? && answer == New && ops[0].now >= reading then rivals + 1 else rivals, ttl, max);
    }
  }

  lemma {:induction false} NoRivals<V>(slots: seq<Slot<V>>, key: Key, e: real)
    requires Lookup(slots, key).None? && forall i :: 0 <= i < |slots| ==> slots[i].expires <= e
    ensures Rivals(slots, key, e) == 0
    decreases |slots|
  {
    if slots != [] {
      assert forall j :: 0 < j < |slots| ==> slots[j] == slots[1..][j - 1];
      NoRivals(slots[1..], key, e);
    }
  }

  /** An entry that was not read earlier than those already there survives any `max - 1` insertions. */
  lemma {:induction false} TimelyEntrySurvives(m: Memory, clock: real, key: Key, hash: string, now: real, ops: seq<Op>, ttl: real, max: nat)
    requires MemoryOk(m, clock, ttl, max) && now >= clock && max >= 1
    requires MemoryClaim(m, key, hash, now, ttl, max).1 == New && Spares(ops, key, now + ttl)
    requires Insertions(MemoryClaim(m, key, hash, now, ttl, max).0, ops, ttl, max) <= max - 1
    ensures var after := MemoryAfter(MemoryClaim(m, key, hash, now, ttl, max).0, ops, ttl, max);
      Lookup(after, key).Some? && Lookup(after, key).value.value.hash == hash
  {
    var accepted := MemoryClaim(m, key, hash, now, ttl, max).0;
    LiveKeepsShape(m, now);
    LiveAges(m, clock, now, ttl);
    NoRivals(Live(m, now), key, now + ttl);
    InsertSized(Live(m, now), Slot(key, Reserved(hash, None), now + ttl), max);
    FewInsertionsAreRoomy(accepted, ops, now, 0, ttl, max);
    AcceptedEntrySurvives(m, key, hash, now, ops, ttl, max);
  }

  // ---------------------------------------------------------- late readings

  function Other(key: Key, n: nat): Key {
    (key.0, key.1, key.2 + seq(n + 1, i => '+'))
  }

  /** Slots of that many other keys, all read at once. */
  function Fill<V>(key: Key, n: nat, value: V, expires: real): seq<Slot<V>> {
    seq(n, i requires 0 <= i < n => Slot(Other(key, i), value, expires))
  }

  lemma {:induction false} OthersDiffer(key: Key, i: nat, j: nat)
    requires i != j
    ensures Other(key, i) != key && Other(key, i) != Other(key, j)
  {
    assert |Other(key, i).2| == |key.2| + i + 1 && |Other(key, j).2| == |key.2| + j + 1;
  }

  lemma {:induction false} FillIs<V>(key: Key, n: nat, value: V, expires: real)
    ensures DistinctKeys(Fill(key, n, value, expires)) && Lookup(Fill(key, n, value, expires), key).None?
    ensures Lookup(Fill(key, n, value, expires), Other(key, n)).None?
  {
    var slots := Fill(key, n, value, expires);
    forall i, j | 0 <= i < j < n
      ensures slots[i].key != slots[j].key
    {
      OthersDiffer(key, i, j);
    }
    forall i | 0 <= i < n
      ensures slots[i].key != key && slots[i].key != Other(key, n)
    {
      OthersDiffer(key, i, n);
    }
    LookupIs(slots, key);
    LookupIs(slots, Other(key, n));
  }

  lemma {:induction false} AllLive<V>(slots: seq<Slot<V>>, now: real)
    requires forall i :: 0 <= i < |slots| ==> slots[i].expires > now
    ensures Live(slots, now) == slots
    decreases |slots|
  {
    if slots != [] {
      assert forall j :: 0 < j < |slots| ==> slots[j] == slots[1..][j - 1];
      AllLive(slots[1..], now);
    }
  }

  lemma {:induction false} FillGrows<V>(key: Key, n: nat, value: V, expires: real, max: nat)
    requires n < max
    ensures var slot := Slot(Other(key, n), value, expires);
      Insert(Fill(key, n, value, expires), slot, max) == Fill(key, n + 1, value, expires)
  {
  }

  /** A slot of an earlier expiry, inserted behind `max - 1` later ones, is the next to go. */
  lemma {:induction false} LateSlotIsDropped<V>(key: Key, value: V, early: real, late: real, max: nat)
    requires max >= 2 && early < late
    ensures var full := Fill(key, max - 1, value, late) + [Slot(key, value, early)];
      var last := Slot(Other(key, max - 1), value, late);
      && Sized(full, max) && Lookup(full, key).Some? && Lookup(full, last.key).None?
      && Lookup(Insert(full, last, max), key).None?
  {
    var others, slot, last := Fill(key, max - 1, value, late), Slot(key, value, early), Slot(Other(key, max - 1), value, late);
    var full := others + [slot];
    FillIs(key, max - 1, value, late);
    OthersDiffer(key, max - 1, max);
    LookupIs(others, key);
    LookupAppend(others, slot, key);
    LookupAppend(others, slot, last.key);
    AllRivals(full, max - 1, early);
    InsertDropsExactly(full, last, max, key);
  }

  lemma {:induction false} FillIsLive<V>(key: Key, n: nat, value: V, expires: real, now: real)
    requires expires > now
    ensures Live(Fill(key, n, value, expires), now) == Fill(key, n, value, expires)
  {
    AllLive(Fill(key, n, value, expires), now);
  }

  lemma {:induction false} FillWithIsLive<V>(key: Key, n: nat, value: V, expires: real, slot: Slot<V>, now: real)
    requires expires > now && slot.expires > now
    ensures Live(Fill(key, n, value, expires) + [slot], now) == Fill(key, n, value, expires) + [slot]
  {
    AllLive(Fill(key, n, value, expires) + [slot], now);
  }

  lemma {:induction false} InsertWithRoom<V>(slots: seq<Slot<V>>, slot: Slot<V>, max: nat)
    requires |slots| < max
    ensures Insert(slots, slot, max) == slots + [slot]
  {
  }

  lemma {:induction false} GoneStaysGone<V>(slots: seq<Slot<V>>, key: Key, now: real)
    requires Lookup(slots, key).None?
    ensures Lookup(Live(slots, now), key).None?
  {
    LookupIs(slots, key);
    LiveElements(slots, now);
    LookupIs(Live(slots, now), key);
  }

  /** The slot of a key read at zero, put behind `max - 1` others read at `late`, and then one more of these. */
  lemma {:induction false} LateSlotIsForgotten<V>(key: Key, value: V, late: real, ttl: real, max: nat)
    requires max >= 2 && 0.0 < late < ttl
    ensures var others := Fill(key, max - 1, value, late + ttl);
      var full, last := others + [Slot(key, value, 0.0 + ttl)], Slot(Other(key, max - 1), value, late + ttl);
      && Live(others, 0.0) == others && Lookup(others, key).None? && Insert(others, Slot(key, value, 0.0 + ttl), max) == full
      && Live(full, late) == full && Lookup(full, last.key).None?
      && Lookup(Live(Insert(full, last, max), late), key).None?
  {
    var others, slot := Fill(key, max - 1, value, late + ttl), Slot(key, value, 0.0 + ttl);
    var last := Slot(Other(key, max - 1), value, late + ttl);
    FillIs(key, max - 1, value, late + ttl);
    FillIsLive(key, max - 1, value, late + ttl, 0.0);
    FillWithIsLive(key, max - 1, value, late + ttl, slot, late);
    InsertWithRoom(others, slot, max);
    LateSlotIsDropped(key, value, 0.0 + ttl, late + ttl, max);
    GoneStaysGone(Insert(others + [slot], last, max), key, late);
  }

  function FillOps(key: Key, n: nat, hash: string, now: real): seq<Op> {
    seq(n, i requires 0 <= i < n => Claim(Other(key, i), hash, now))
  }

  lemma {:induction false} MemoryAfterSnoc(m: Memory, ops: seq<Op>, op: Op, ttl: real, max: nat)
    ensures MemoryAfter(m, ops + [op], ttl, max) == MemoryStep(MemoryAfter(m, ops, ttl, max), op, ttl, max).0
    decreases |ops|
  {
    if ops != [] {
      assert (ops + [op])[1..] == ops[1..] + [op];
      MemoryAfterSnoc(MemoryStep(m, ops[0], ttl, max).0, ops[1..], op, ttl, max);
    } else {
      assert (ops + [op])[1..] == [];
    }
  }

  lemma {:induction false} FillRun(key: Key, n: nat, hash: string, now: real, ttl: real, max: nat)
    requires n <= max && ttl > 0.0
    ensures MemoryAfter([], FillOps(key, n, hash, now), ttl, max) == Fill(key, n, Reserved(hash, None), now + ttl)
  {
    if n > 0 {
      FillRun(key, n - 1, hash, now, ttl, max);
      var op := Claim(Other(key, n - 1), hash, now);
      assert FillOps(key, n, hash, now) == FillOps(key, n - 1, hash, now) + [op];
      MemoryAfterSnoc([], FillOps(key, n - 1, hash, now), op, ttl, max);
      AllLive(Fill(key, n - 1, Reserved(hash, None), now + ttl), now);
      FillIs(key, n - 1, Reserved(hash, None), now + ttl);
      FillGrows(key, n - 1, Reserved(hash, None), now + ttl, max);
    }
  }

  /**
   For every capacity from two on, an entry whose reading came late to the lock, behind
   `max - 1` later ones, is lost to the next insertion, well within its ttl: the key is
   claimed again as new.
   */
  lemma {:induction false} LateEntryIsEvictedNext(key: Key, hash: string, late: real, ttl: real, max: nat)
    requires max >= 2 && 0.0 < late < ttl
    ensures var before := MemoryAfter([], FillOps(key, max - 1, hash, late), ttl, max);
      var (accepted, first) := MemoryClaim(before, key, hash, 0.0, ttl, max);
      var (after, second) := MemoryClaim(accepted, Other(key, max - 1), hash, late, ttl, max);
      first == second == New && MemoryClaim(after, key, hash, late, ttl, max).1 == New
  {
    FillRun(key, max - 1, hash, late, ttl, max);
    LateSlotIsForgotten(key, Reserved(hash, None), late, ttl, max);
  }

  // ---------------------------------------------------------------- objects

  lemma {:induction false} LiveSnoc<V>(slots: seq<Slot<V>>, last: Slot<V>, now: real)
    ensures Live(slots + [last], now) == Live(slots, now) + if last.expires > now then [last] else []
    decreases |slots|
  {
    if slots != [] {
      assert (slots + [last])[1..] == slots[1..] + [last];
      LiveSnoc(slots[1..], last, now);
    }
  }

  /** The comprehension that rebuilds the dictionary with its live entries. */
  method KeepLive<V>(slots: seq<Slot<V>>, now: real) returns (kept: seq<Slot<V>>)
    ensures kept == Live(slots, now)
  {
    kept := [];
    for i := 0 to |slots|
      invariant kept == Live(slots[..i], now)
    {
      assert slots[..i + 1] == slots[..i] + [slots[i]];
      LiveSnoc(slots[..i], slots[i], now);
      if slots[i].expires > now {
        kept := kept + [slots[i]];
      }
    }
    assert slots[..|slots|] == slots;
  }

  method IndexOf<V>(slots: seq<Slot<V>>, key: Key) returns (at: nat)
    ensures at <= |slots|
    ensures at == |slots| <==> Lookup(slots, key).None?
    ensures at < |slots| ==> Lookup(slots, key) == Some(slots[at])
    ensures at < |slots| ==> Remove(slots, key) == slots[..at] + slots[at + 1..]
    ensures at < |slots| ==> forall v :: Overwrite(slots, key, v) == slots[at := slots[at].(value := v)]
  {
    at := 0;
    while at < |slots| && slots[at].key != key
      invariant at <= |slots|
      invariant forall i :: 0 <= i < at ==> slots[i].key != key
    {
      at := at + 1;
    }
    FirstAt(slots, key, at);
  }

  method OldestAt<V>(slots: seq<Slot<V>>) returns (at: nat)
    requires slots != []
    ensures at == Oldest(slots)
  {
    at := 0;
    var i := 1;
    while i < |slots|
      invariant at < i <= |slots|
      invariant forall j :: 0 <= j < i ==> slots[at].expires <= slots[j].expires
      invariant forall j :: 0 <= j < at ==> slots[at].expires < slots[j].expires
    {
      if slots[i].expires < slots[at].expires {
        at := i;
      }
      i := i + 1;
    }
  }

  class MemoryIdempotencyStore {
    const ttl: real
    const max: nat
    var values: Memory

    constructor (ttl: real, max: nat)
      ensures values == [] && this.ttl == ttl && this.max == max
    {
      this.ttl, this.max := ttl, max;
      values := [];
    }

    method DoClaim(key: Key, hash: string, now: real) returns (answer: Answer)
      modifies this
      ensures (values, answer) == MemoryClaim(old(values), key, hash, now, ttl, max)
    {
      values := KeepLive(values, now);
      var at := IndexOf(values, key);
      if at < |values| {
        var existing := values[at].value;
        if existing.hash != hash {
          return Conflict;
        }
        if existing.response.None? {
          return Pending;
        }
        return Cached(existing.response.value);
      }
      if |values| >= max && values != [] {
        var oldest := OldestAt(values);
        values := values[..oldest] + values[oldest + 1..];
      }
      values := values + [Slot(key, Reserved(hash, None), now + ttl)];
      answer := New;
    }

    method DoFinish(key: Key, hash: string, response: Response)
      modifies this
      ensures values == MemoryFinish(old(values), key, hash, response)
    {
      var at := IndexOf(values, key);
      if at < |values| && values[at].value.hash == hash {
        values := values[at := values[at].(value := Reserved(hash, Some(response)))];
      }
    }

    method DoAbandon(key: Key, hash: string)
      modifies this
      ensures values == MemoryAbandon(old(values), key, hash)
    {
      var at := IndexOf(values, key);
      if at < |values| && values[at].value.hash == hash && values[at].value.response.None? {
        values := values[..at] + values[at + 1..];
      }
    }
  }

  lemma {:induction false} FirstAt<V>(slots: seq<Slot<V>>, key: Key, at: nat)
    requires at <= |slots| && forall i :: 0 <= i < at ==> slots[i].key != key
    requires at < |slots| ==> slots[at].key == key
    ensures at == |slots| <==> Lookup(slots, key).None?
    ensures at < |slots| ==>
      && Lookup(slots, key) == Some(slots[at])
      && Remove(slots, key) == slots[..at] + slots[at + 1..]
      && forall v :: Overwrite(slots, key, v) == slots[at := slots[at].(value := v)]
    decreases at
  {
    if at > 0 {
      FirstAt(slots[1..], key, at - 1);
      if at < |slots| {
        assert [slots[0]] + slots[1..][..at - 1] == slots[..at];
        assert slots[1..][at..] == slots[at + 1..];
        forall v
          ensures Overwrite(slots, key, v) == slots[at := slots[at].(value := v)]
        {
          assert [slots[0]] + slots[1..][at - 1 := slots[at].(value := v)] == slots[at := slots[at].(value := v)];
        }
      }
    } else if slots != [] {
      assert slots[..0] == [];
      forall v
        ensures Overwrite(slots, key, v) == slots[0 := slots[0].(value := v)]
      {
        assert [slots[0].(value := v)] + slots[1..] == slots[0 := slots[0].(value := v)];
      }
    }
  }

  /** The rows of idempotency_record that belong to one service. */
  class PostgresIdempotencyStore {
    const ttl: real
    var rows: Table

    constructor (ttl: real)
      ensures rows == map[] && this.ttl == ttl
    {
      this.ttl := ttl;
      rows := map[];
    }

    method DoClaim(key: Key, hash: string, now: real) returns (answer: Answer)
      modifies this
      ensures (rows, answer) == TableClaim(old(rows), key, hash, now, ttl)
    {
      if key in rows && rows[key].expires <= now {
        rows := rows - {key};
      }
      if key !in rows {
        rows := rows[key := Slot(key, Reserved(hash, None), now + ttl)];
        return New;
      }
      var existing := rows[key].value;
      if existing.hash != hash {
        return Conflict;
      }
      match existing.response {
        case None => return Pending;
        case Some(response) => return Cached(response);
      }
    }

    method DoFinish(key: Key, hash: string, response: Response)
      modifies this
      ensures rows == TableFinish(old(rows), key, hash, response)
    {
      if key in rows && rows[key].value.hash == hash {
        rows := rows[key := rows[key].(value := Reserved(hash, Some(response)))];
      }
    }

    method DoAbandon(key: Key, hash: string)
      modifies this
      ensures rows == TableAbandon(old(rows), key, hash)
    {
      if key in rows && rows[key].value.hash == hash && rows[key].value.response.None? {
        rows := rows - {key};
      }
    }
  }
}
