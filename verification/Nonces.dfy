/**
 Authentication of workload requests (shared/atlantis_contracts/security.py) over the two
 nonce stores of shared/atlantis_contracts/persistence.py.

 Times are real seconds on one clock; `int(time.time())` is `Floor`, and both ttl and skew
 are whole seconds. Signatures are symbolic.
 */
module Nonces {
  import opened Common
  import opened Stores

  /** What a workload signs; the tenant is read from the body. `timestamp` is `None` when it is not a number. */
  datatype Message = Message(timestamp: Option<int>, nonce: string, verb: string, path: string, tenant: string, body: string)

  datatype Signature = Mac(secret: string, message: Message) | OtherText(text: string)

  /**
   A request whose timestamp is looked at at one moment; for its nonce the clock is read at
   a second, and the store's lock or transaction had at a third.
   */
  datatype Presentation = Presentation(service: string, message: Message, signature: Signature, checkedAt: real, read: real, at: real)

  datatype Verdict =
    | Accepted | NotConfigured | TimestampInvalid | Stale | SignatureInvalid | TenantRequired | Replay

  datatype Config = Config(secrets: map<string, string>, skew: nat, ttl: nat, max: nat)

  function Distance(a: int, b: int): nat {
    if a < b then b - a else a - b
  }

  function NonceKey(p: Presentation): Key {
    (p.message.tenant, p.service, p.message.nonce)
  }

  /** Why a request is refused before its nonce is looked at. */
  function Refusal(c: Config, p: Presentation): Option<Verdict> {
    if p.service !in c.secrets || |c.secrets[p.service]| < 32 then Some(NotConfigured)
    else if p.message.timestamp.None? then Some(TimestampInvalid)
    else if Distance(p.checkedAt.Floor, p.message.timestamp.value) > c.skew then Some(Stale)
    else if p.signature != Mac(c.secrets[p.service], p.message) then Some(SignatureInvalid)
    else if p.message.tenant == "" then Some(TenantRequired)
    else None
  }

  // ---------------------------------------------------------------- memory

  type NonceSlots = seq<Slot<()>>

  function MemoryRemember(m: NonceSlots, key: Key, now: real, ttl: nat, max: nat): (NonceSlots, bool) {
    var live := Live(m, now);
    if Lookup(live, key).Some? then (live, false)
    else (Insert(live, Slot(key, (), now + ttl as real), max), true)
  }

  function MemoryVerify(c: Config, m: NonceSlots, p: Presentation): (NonceSlots, Verdict) {
    match Refusal(c, p)
    case Some(verdict) => (m, verdict)
    case None =>
      var (after, first) := MemoryRemember(m, NonceKey(p), p.read, c.ttl, c.max);
      (after, if first then Accepted else Replay)
  }

  function MemoryVerdicts(c: Config, m: NonceSlots, ps: seq<Presentation>): (vs: seq<Verdict>)
    ensures |vs| == |ps|
    decreases |ps|
  {
    if ps == [] then []
    else var (after, verdict) := MemoryVerify(c, m, ps[0]); [verdict] + MemoryVerdicts(c, after, ps[1..])
  }

  // ------------------------------------------------------------- PostgreSQL

  /** The rows of workload_nonce: when each expires. */
  type Rows = map<Key, int>

  function TableRemember(t: Rows, key: Key, issued: int, now: real, ttl: nat): (Rows, bool) {
    var kept := map k | k in t && (k.0 != key.0 || t[k] as real > now) :: t[k];
    if key in kept then (kept, false) else (kept[key := issued + ttl], true)
  }

  function TableVerify(c: Config, t: Rows, p: Presentation): (Rows, Verdict) {
    match Refusal(c, p)
    case Some(verdict) => (t, verdict)
    case None =>
      var (after, first) := TableRemember(t, NonceKey(p), p.message.timestamp.value, p.read, c.ttl);
      (after, if first then Accepted else Replay)
  }

  function TableVerdicts(c: Config, t: Rows, ps: seq<Presentation>): (vs: seq<Verdict>)
    ensures |vs| == |ps|
    decreases |ps|
  {
    if ps == [] then []
    else var (after, verdict) := TableVerify(c, t, ps[0]); [verdict] + TableVerdicts(c, after, ps[1..])
  }

  // --------------------------------------------------- what acceptance takes

  /**
   A request is accepted exactly when its service has a secret of at least 32 characters, its
   timestamp is a number at most `skew` seconds away from the whole second it is checked in, it
   carries the MAC of its message under that secret, it names a tenant, and no unexpired entry
   holds its nonce. Otherwise the first of these that fails, in this order, gives the verdict.
   */
  lemma {:induction false} MemoryVerdictExactly(c: Config, m: NonceSlots, p: Presentation)
    ensures var verdict := MemoryVerify(c, m, p).1;
      var key := (p.message.tenant, p.service, p.message.nonce);
      var configured := p.service in c.secrets && |c.secrets[p.service]| >= 32;
      var numbered := p.message.timestamp.Some?;
      var recent := numbered &&
        p.message.timestamp.value - c.skew <= p.checkedAt.Floor <= p.message.timestamp.value + c.skew;
      var signed := configured && p.signature == Mac(c.secrets[p.service], p.message);
      var named := p.message.tenant != "";
      var remembered := exists i :: 0 <= i < |m| && m[i].key == key && m[i].expires > p.read;
      && (verdict == Accepted <==> configured && recent && signed && named && !remembered)
      && (verdict == NotConfigured <==> !configured)
      && (verdict == TimestampInvalid <==> configured && !numbered)
      && (verdict == Stale <==> configured && numbered && !recent)
      && (verdict == SignatureInvalid <==> configured && recent && !signed)
      && (verdict == TenantRequired <==> configured && recent && signed && !named)
      && (verdict == Replay <==> configured && recent && signed && named && remembered)
  {
    RememberedExactly(m, NonceKey(p), p.read);
  }

  lemma {:induction false} RememberedExactly(m: NonceSlots, key: Key, now: real)
    ensures Lookup(Live(m, now), key).Some? <==> exists i :: 0 <= i < |m| && m[i].key == key && m[i].expires > now
  {
    var live := Live(m, now);
    LookupIs(live, key);
    match Lookup(live, key) {
      case Some(slot) => LiveIn(m, now, slot);
      case None =>
        forall i | 0 <= i < |m| && m[i].key == key
          ensures m[i].expires <= now
        {
          LiveIn(m, now, m[i]);
        }
    }
  }

  /**
   A request refused before its nonce is looked at leaves the store as it is, a replay only
   drops expired entries, and an accepted one also puts its nonce last, to expire `ttl` after
   its reading; with room left no unexpired entry is lost.
   */
  lemma {:induction false} MemoryAfterVerdict(c: Config, m: NonceSlots, p: Presentation)
    ensures var (after, verdict) := MemoryVerify(c, m, p);
      var key := (p.message.tenant, p.service, p.message.nonce);
      && (verdict !in {Accepted, Replay} ==> after == m)
      && (verdict == Replay ==> forall slot :: slot in after <==> slot in m && slot.expires > p.read)
      && (verdict == Accepted ==>
            && after != [] && after[|after| - 1] == Slot(key, (), p.read + c.ttl as real)
            && (forall slot :: slot in after[..|after| - 1] ==> slot in m && slot.expires > p.read)
            && (|Live(m, p.read)| < c.max ==> forall slot :: slot in m && slot.expires > p.read ==> slot in after))
  {
    var live, slot := Live(m, p.read), Slot(NonceKey(p), (), p.read + c.ttl as real);
    forall other
      ensures other in live <==> other in m && other.expires > p.read
    {
      LiveIn(m, p.read, other);
    }
    InsertPutsLast(live, slot, c.max);
  }

  lemma {:induction false} InsertPutsLast<V>(slots: seq<Slot<V>>, slot: Slot<V>, max: nat)
    ensures var after := Insert(slots, slot, max);
      && after != [] && after[|after| - 1] == slot
      && (forall other :: other in after[..|after| - 1] ==> other in slots)
      && (|slots| < max ==> after == slots + [slot])
  {
    var after := Insert(slots, slot, max);
    if |slots| >= max && slots != [] {
      var i := Oldest(slots);
      assert after[..|after| - 1] == slots[..i] + slots[i + 1..];
    } else {
      assert after[..|after| - 1] == slots;
    }
  }

  /** The same of the PostgreSQL store, where the nonce's row counts unless it is expired at the reading. */
  lemma {:induction false} TableVerdictExactly(c: Config, t: Rows, p: Presentation)
    ensures var verdict := TableVerify(c, t, p).1;
      var key := (p.message.tenant, p.service, p.message.nonce);
      var configured := p.service in c.secrets && |c.secrets[p.service]| >= 32;
      var numbered := p.message.timestamp.Some?;
      var recent := numbered &&
        p.message.timestamp.value - c.skew <= p.checkedAt.Floor <= p.message.timestamp.value + c.skew;
      var signed := configured && p.signature == Mac(c.secrets[p.service], p.message);
      var named := p.message.tenant != "";
      var remembered := key in t && t[key] as real > p.read;
      && (verdict == Accepted <==> configured && recent && signed && named && !remembered)
      && (verdict == NotConfigured <==> !configured)
      && (verdict == TimestampInvalid <==> configured && !numbered)
      && (verdict == Stale <==> configured && numbered && !recent)
      && (verdict == SignatureInvalid <==> configured && recent && !signed)
      && (verdict == TenantRequired <==> configured && recent && signed && !named)
      && (verdict == Replay <==> configured && recent && signed && named && remembered)
  {
    assert NonceKey(p) == (p.message.tenant, p.service, p.message.nonce);
  }

  /**
   A request refused before its nonce is looked at leaves the table as it is; otherwise
   exactly the tenant's expired rows go, and an accepted nonce gets a row that expires `ttl`
   after the request's own timestamp.
   */
  lemma {:induction false} TableAfterVerdict(c: Config, t: Rows, p: Presentation)
    ensures var (after, verdict) := TableVerify(c, t, p);
      var key := (p.message.tenant, p.service, p.message.nonce);
      && (verdict !in {Accepted, Replay} ==> after == t)
      && (verdict in {Accepted, Replay} ==>
            && p.message.timestamp.Some?
            && (forall k :: k != key || verdict == Replay ==>
                  (k in after <==> k in t && (k.0 == p.message.tenant ==> t[k] as real > p.read)))
            && (forall k :: k in after && (k != key || verdict == Replay) ==> after[k] == t[k])
            && (verdict == Accepted ==> key in after && after[key] == p.message.timestamp.value + c.ttl))
  {
    assert NonceKey(p) == (p.message.tenant, p.service, p.message.nonce);
  }

  // ----------------------------------------------------------- at most once

  /** Locks are had in this order. Clocks need not have been read in it. */
  predicate InTime(ps: seq<Presentation>, clock: real) {
    ps == [] || (ps[0].at >= clock && InTime(ps[1..], ps[0].at))
  }

  /** Nothing is ever evicted: there is room whenever a nonce is remembered. */
  predicate BelowCapacity(c: Config, m: NonceSlots, ps: seq<Presentation>)
    decreases |ps|
  {
    ps == [] ||
    ((Refusal(c, ps[0]).None? ==> |Live(m, ps[0].read)| < c.max) && BelowCapacity(c, MemoryVerify(c, m, ps[0]).0, ps[1..]))
  }

  /** The nonce is remembered after the timestamp was checked, and at most `delay` later. */
  predicate Prompt(ps: seq<Presentation>, delay: real) {
    forall i :: 0 <= i < |ps| ==> ps[i].checkedAt <= ps[i].read <= ps[i].at <= ps[i].checkedAt + delay
  }

  /** The same signed request, apart from when it arrives. */
  predicate SameRequest(p: Presentation, q: Presentation) {
    p.(checkedAt := q.checkedAt, read := q.read, at := q.at) == q
  }

  ghost predicate AcceptedOnce(ps: seq<Presentation>, vs: seq<Verdict>)
    requires |vs| == |ps|
  {
    forall i, j :: 0 <= i < j < |ps| && vs[i] == Accepted && SameRequest(ps[i], ps[j]) ==> vs[j] != Accepted
  }

  /** The nonce of a request that is not stale is remembered before this moment. */
  function Deadline(c: Config, p: Presentation, delay: real): real
    requires p.message.timestamp.Some?
  {
    (p.message.timestamp.value + c.skew + 1) as real + delay
  }

  lemma {:induction false} FreshIsInWindow(c: Config, p: Presentation, delay: real)
    requires Refusal(c, p).None? && Prompt([p], delay)
    ensures (p.message.timestamp.value - c.skew) as real <= p.read <= p.at < Deadline(c, p, delay)
  {
    var issued := p.message.timestamp.value;
    assert [p][0] == p;
    assert p.checkedAt.Floor as real <= p.checkedAt < p.checkedAt.Floor as real + 1.0;
    assert issued - c.skew <= p.checkedAt.Floor <= issued + c.skew;
    assert p.checkedAt.Floor as real + 1.0 == (p.checkedAt.Floor + 1) as real;
  }

  lemma {:induction false} MemoryRefusesAfter(c: Config, m: NonceSlots, ps: seq<Presentation>, clock: real, delay: real,
                             p: Presentation, j: nat)
    requires DistinctKeys(m) && InTime(ps, clock) && BelowCapacity(c, m, ps) && Prompt(ps, delay) && p.message.timestamp.Some?
    requires clock >= Deadline(c, p, delay)
      || (Lookup(m, NonceKey(p)).Some? && Lookup(m, NonceKey(p)).value.expires >= Deadline(c, p, delay))
    requires j < |ps| && SameRequest(p, ps[j])
    ensures MemoryVerdicts(c, m, ps)[j] != Accepted
    decreases |ps|
  {
    var q, key := ps[0], NonceKey(p);
    var (after, verdict) := MemoryVerify(c, m, q);
    LiveKeepsShape(m, q.read);
    LookupLive(m, key, q.read);
    LookupLive(m, NonceKey(q), q.read);
    if Refusal(c, q).None? && Lookup(Live(m, q.read), NonceKey(q)).None? {
      LookupIs(Live(m, q.read), NonceKey(q));
      LookupAppend(Live(m, q.read), Slot(NonceKey(q), (), q.read + c.ttl as real), key);
    }
    assert Prompt([q], delay) by {
      assert ps[0].checkedAt <= ps[0].read <= ps[0].at <= ps[0].checkedAt + delay;
    }
    if Refusal(c, q).None? {
      FreshIsInWindow(c, q, delay);
    }
    if j > 0 {
      MemoryRefusesAfter(c, after, ps[1..], q.at, delay, p, j - 1);
    }
  }

  lemma {:induction false} MemoryAcceptsOnce(c: Config, m: NonceSlots, ps: seq<Presentation>, clock: real, delay: real)
    requires DistinctKeys(m) && InTime(ps, clock) && BelowCapacity(c, m, ps) && Prompt(ps, delay)
    requires c.ttl as real >= (2 * c.skew + 1) as real + delay
    ensures AcceptedOnce(ps, MemoryVerdicts(c, m, ps))
    decreases |ps|
  {
    if ps != [] {
      var p := ps[0];
      var (after, verdict) := MemoryVerify(c, m, p);
      AfterRemember(c, m, p, delay);
      MemoryAcceptsOnce(c, after, ps[1..], p.at, delay);
      var vs := MemoryVerdicts(c, m, ps);
      forall j | 0 < j < |ps| && verdict == Accepted && SameRequest(p, ps[j])
        ensures vs[j] != Accepted
      {
        MemoryRefusesAfter(c, after, ps[1..], p.at, delay, p, j - 1);
      }
      assert forall i :: 0 < i < |ps| ==> ps[i] == ps[1..][i - 1] && vs[i] == vs[1..][i - 1];
    }
  }

  /** An accepted nonce is in the store until `ttl` after its reading. */
  lemma {:induction false} AfterRemember(c: Config, m: NonceSlots, p: Presentation, delay: real)
    requires DistinctKeys(m) && Prompt([p], delay) && (Refusal(c, p).None? ==> |Live(m, p.read)| < c.max)
    ensures var (after, verdict) := MemoryVerify(c, m, p);
      && DistinctKeys(after)
      && (verdict == Accepted ==>
            && Lookup(after, NonceKey(p)).Some?
            && Lookup(after, NonceKey(p)).value.expires == p.read + c.ttl as real
            && (c.ttl as real >= (2 * c.skew + 1) as real + delay ==> p.read + c.ttl as real >= Deadline(c, p, delay)))
  {
    LiveKeepsShape(m, p.read);
    if Refusal(c, p).None? {
      FreshIsInWindow(c, p, delay);
      var live, slot := Live(m, p.read), Slot(NonceKey(p), (), p.read + c.ttl as real);
      LookupIs(live, NonceKey(p));
      if Lookup(live, NonceKey(p)).None? {
        LookupAppend(live, slot, NonceKey(p));
      }
    }
  }

  ghost predicate MemoryRun(c: Config, ps: seq<Presentation>, delay: real) {
    (ps == [] || InTime(ps, ps[0].at)) && BelowCapacity(c, [], ps) && Prompt(ps, delay)
  }

  /**
   With the in-memory store, below capacity, no signed request is accepted twice in any run
   exactly when the ttl is at least twice the skew plus one second plus the longest delay
   between checking a timestamp and remembering its nonce. Without any delay that is a ttl
   of more than twice the skew, which the default ttl of 120 seconds with the default skew
   of 60 is not.
   */
  lemma {:induction false} MemoryAcceptsOnceExactly(c: Config, delay: real)
    requires c.max >= 1 && delay >= 0.0 && exists service :: service in c.secrets && |c.secrets[service]| >= 32
    ensures (forall ps: seq<Presentation> :: MemoryRun(c, ps, delay) ==> AcceptedOnce(ps, MemoryVerdicts(c, [], ps)))
       <==> c.ttl as real >= (2 * c.skew + 1) as real + delay
  {
    if c.ttl as real >= (2 * c.skew + 1) as real + delay {
      forall ps: seq<Presentation> | MemoryRun(c, ps, delay)
        ensures AcceptedOnce(ps, MemoryVerdicts(c, [], ps))
      {
        if ps != [] {
          MemoryAcceptsOnce(c, [], ps, ps[0].at, delay);
        }
      }
    } else {
      var service :| service in c.secrets && |c.secrets[service]| >= 32;
      MemoryAcceptsTwice(c, service, delay);
    }
  }

  /** One request, signed by a configured service, checked and remembered twice. */
  function Twice(c: Config, service: string, issued: int, first: (real, real), second: (real, real)): seq<Presentation>
    requires service in c.secrets
  {
    var message := Message(Some(issued), "nonce", "POST", "/", "tenant", "");
    var signature := Mac(c.secrets[service], message);
    [Presentation(service, message, signature, first.0, first.1, first.1),
     Presentation(service, message, signature, second.0, second.1, second.1)]
  }

  /** The earliest moment at which a nonce remembered at `at` can have been checked. */
  function Earliest(at: real, delay: real): real {
    if at > delay then at - delay else 0.0
  }

  lemma {:induction false} WindowFloor(t: real, bound: nat)
    requires 0.0 <= t < bound as real
    ensures 0 <= t.Floor < bound
  {
  }

  lemma {:induction false} MemoryAcceptsTwice(c: Config, service: string, delay: real)
    requires c.max >= 1 && service in c.secrets && |c.secrets[service]| >= 32
    requires delay >= 0.0 && (c.ttl as real) < (2 * c.skew + 1) as real + delay
    ensures var ps := Twice(c, service, c.skew, (0.0, 0.0), (Earliest(c.ttl as real, delay), c.ttl as real));
      MemoryRun(c, ps, delay) && !AcceptedOnce(ps, MemoryVerdicts(c, [], ps))
  {
    var ps := Twice(c, service, c.skew, (0.0, 0.0), (Earliest(c.ttl as real, delay), c.ttl as real));
    var vs := MemoryVerdicts(c, [], ps);
    assert ps[0].checkedAt.Floor == 0;
    WindowFloor(ps[1].checkedAt, 2 * c.skew + 1);
    assert Refusal(c, ps[0]).None? && Refusal(c, ps[1]).None?;
    var empty: NonceSlots, slot := [], Slot(NonceKey(ps[0]), (), ps[0].read + c.ttl as real);
    assert Live(empty, ps[0].read) == empty && empty + [slot] == [slot];
    assert MemoryVerify(c, empty, ps[0]) == ([slot], Accepted);
    assert Live([slot], ps[1].read) == [];
    assert MemoryVerify(c, [slot], ps[1]).1 == Accepted;
    assert ps[1..] == [ps[1]];
    assert vs[1..] == MemoryVerdicts(c, [slot], [ps[1]]);
    assert vs[0] == Accepted && vs[1] == vs[1..][0] == Accepted;
    assert BelowCapacity(c, [slot], ps[1..]) by {
      assert BelowCapacity(c, MemoryVerify(c, [slot], ps[1]).0, ps[1..][1..]);
    }
    assert InTime(ps, ps[0].at) by {
      assert InTime(ps[1..], ps[0].at);
    }
    assert SameRequest(ps[0], ps[1]);
  }

  // -------------------------------------------------- PostgreSQL at most once

  lemma {:induction false} TableRefusesAfter(c: Config, t: Rows, ps: seq<Presentation>, clock: real, delay: real, p: Presentation, j: nat)
    requires InTime(ps, clock) && Prompt(ps, delay) && p.message.timestamp.Some?
    requires clock >= Deadline(c, p, delay) || (NonceKey(p) in t && t[NonceKey(p)] as real >= Deadline(c, p, delay))
    requires j < |ps| && SameRequest(p, ps[j])
    ensures TableVerdicts(c, t, ps)[j] != Accepted
    decreases |ps|
  {
    var q := ps[0];
    if Refusal(c, q).None? {
      FreshIsInWindow(c, q, delay);
    }
    if j > 0 {
      TableRefusesAfter(c, TableVerify(c, t, q).0, ps[1..], q.at, delay, p, j - 1);
    }
  }

  lemma {:induction false} TableAcceptsOnce(c: Config, t: Rows, ps: seq<Presentation>, clock: real, delay: real)
    requires InTime(ps, clock) && Prompt(ps, delay) && c.ttl as real >= (c.skew + 1) as real + delay
    ensures AcceptedOnce(ps, TableVerdicts(c, t, ps))
    decreases |ps|
  {
    if ps != [] {
      var p := ps[0];
      var (after, verdict) := TableVerify(c, t, p);
      TableAcceptsOnce(c, after, ps[1..], p.at, delay);
      var vs := TableVerdicts(c, t, ps);
      forall j | 0 < j < |ps| && verdict == Accepted && SameRequest(p, ps[j])
        ensures vs[j] != Accepted
      {
        TableRefusesAfter(c, after, ps[1..], p.at, delay, p, j - 1);
      }
      assert forall i :: 0 < i < |ps| ==> ps[i] == ps[1..][i - 1] && vs[i] == vs[1..][i - 1];
    }
  }

  ghost predicate TableRun(ps: seq<Presentation>, delay: real) {
    (ps == [] || InTime(ps, ps[0].at)) && Prompt(ps, delay)
  }

  /**
   With the PostgreSQL store no signed request is accepted twice in any run exactly when the
   ttl is at least the skew plus one second plus the longest such delay, whatever rows the
   table starts with. Without any delay that is a ttl of more than the skew.
   */
  lemma {:induction false} TableAcceptsOnceExactly(c: Config, delay: real)
    requires delay >= 0.0 && exists service :: service in c.secrets && |c.secrets[service]| >= 32
    ensures (forall t: Rows, ps: seq<Presentation> :: TableRun(ps, delay) ==> AcceptedOnce(ps, TableVerdicts(c, t, ps)))
       <==> c.ttl as real >= (c.skew + 1) as real + delay
  {
    if c.ttl as real >= (c.skew + 1) as real + delay {
      forall t: Rows, ps: seq<Presentation> | TableRun(ps, delay)
        ensures AcceptedOnce(ps, TableVerdicts(c, t, ps))
      {
        if ps != [] {
          TableAcceptsOnce(c, t, ps, ps[0].at, delay);
        }
      }
    } else {
      var service :| service in c.secrets && |c.secrets[service]| >= 32;
      TableAcceptsTwice(c, service, delay);
    }
  }

  lemma {:induction false} TableAcceptsTwice(c: Config, service: string, delay: real)
    requires service in c.secrets && |c.secrets[service]| >= 32
    requires delay >= 0.0 && (c.ttl as real) < (c.skew + 1) as real + delay
    ensures var late := (Earliest(c.ttl as real, delay), c.ttl as real);
      var ps := Twice(c, service, 0, late, late);
      TableRun(ps, delay) && !AcceptedOnce(ps, TableVerdicts(c, map[], ps))
  {
    var late := (Earliest(c.ttl as real, delay), c.ttl as real);
    var ps := Twice(c, service, 0, late, late);
    var vs := TableVerdicts(c, map[], ps);
    WindowFloor(ps[0].checkedAt, c.skew + 1);
    assert Refusal(c, ps[0]).None? && Refusal(c, ps[1]).None?;
    var key := NonceKey(ps[0]);
    var empty: Rows := map[];
    assert TableVerify(c, empty, ps[0]) == (empty[key := c.ttl], Accepted);
    assert TableVerify(c, empty[key := c.ttl], ps[1]).1 == Accepted;
    assert ps[1..] == [ps[1]];
    assert vs[1..] == TableVerdicts(c, empty[key := c.ttl], [ps[1]]);
    assert vs[0] == Accepted && vs[1] == vs[1..][0] == Accepted;
    assert InTime(ps, ps[0].at) by {
      assert InTime(ps[1..], ps[0].at);
    }
    assert SameRequest(ps[0], ps[1]);
  }

  // --------------------------------------------------------------- eviction

  function MemoryAfter(c: Config, m: NonceSlots, ps: seq<Presentation>): NonceSlots
    decreases |ps|
  {
    if ps == [] then m else MemoryAfter(c, MemoryVerify(c, m, ps[0]).0, ps[1..])
  }

  function Acceptances(vs: seq<Verdict>): nat {
    if vs == [] then 0 else (if vs[0] == Accepted then 1 else 0) + Acceptances(vs[1..])
  }

  lemma {:induction false} RememberSized(m: NonceSlots, key: Key, now: real, ttl: nat, max: nat)
    requires Sized(m, max) && max >= 1
    ensures var (after, first) := MemoryRemember(m, key, now, ttl, max);
      && Sized(after, max)
      && (first ==> Lookup(after, key) == Some(Slot(key, (), now + ttl as real)))
  {
    LiveKeepsShape(m, now);
    if Lookup(Live(m, now), key).None? {
      InsertSized(Live(m, now), Slot(key, (), now + ttl as real), max);
    }
  }

  /** The nonce store never outgrows its capacity, whatever the readings. */
  lemma {:induction false} VerifySized(c: Config, m: NonceSlots, p: Presentation)
    requires Sized(m, c.max) && c.max >= 1
    ensures Sized(MemoryVerify(c, m, p).0, c.max)
  {
    RememberSized(m, NonceKey(p), p.read, c.ttl, c.max);
  }

  lemma {:induction false} RememberSpares(m: NonceSlots, remembered: Key, now: real, ttl: nat, max: nat, key: Key)
    requires Sized(m, max) && max >= 1 && Lookup(m, key).Some? && now < Lookup(m, key).value.expires
    requires MemoryRemember(m, remembered, now, ttl, max).1 ==> Rivals(m, key, Lookup(m, key).value.expires) + 2 <= max
    ensures var (after, first) := MemoryRemember(m, remembered, now, ttl, max);
      var e := Lookup(m, key).value.expires;
      && Lookup(after, key) == Lookup(m, key)
      && Rivals(after, key, e) <= Rivals(m, key, e) + if first && now + ttl as real >= e then 1 else 0
  {
    if Lookup(Live(m, now), remembered).None? {
      InsertionSpares(m, Slot(remembered, (), now + ttl as real), now, max, key);
    } else {
      PruningSpares(m, now, max, key);
    }
  }

  lemma {:induction false} VerifySurvives(c: Config, m: NonceSlots, p: Presentation, key: Key)
    requires Sized(m, c.max) && c.max >= 1 && Lookup(m, key).Some? && p.read < Lookup(m, key).value.expires
    requires MemoryVerify(c, m, p).1 == Accepted ==> Rivals(m, key, Lookup(m, key).value.expires) + 2 <= c.max
    ensures var (after, verdict) := MemoryVerify(c, m, p);
      var e := Lookup(m, key).value.expires;
      && Lookup(after, key) == Lookup(m, key)
      && Rivals(after, key, e) <= Rivals(m, key, e) + if verdict == Accepted && p.read + c.ttl as real >= e then 1 else 0
  {
    if Refusal(c, p).None? {
      RememberSpares(m, NonceKey(p), p.read, c.ttl, c.max, key);
    }
  }

  /**
   Nothing is accepted once `max - 1` others read no earlier than `reading` have been;
   `rivals` is how many there are to begin with.
   */
  predicate Roomy(c: Config, m: NonceSlots, ps: seq<Presentation>, reading: real, rivals: nat)
    decreases |ps|
  {
    ps == [] ||
    var (next, verdict) := MemoryVerify(c, m, ps[0]);
    && (verdict == Accepted ==> rivals + 2 <= c.max)
    && Roomy(c, next, ps[1..], reading, if verdict == Accepted && ps[0].read >= reading then rivals + 1 else rivals)
  }

  lemma {:induction false} RoomySurvives(c: Config, m: NonceSlots, ps: seq<Presentation>, reading: real, rivals: nat, key: Key)
    requires Sized(m, c.max) && c.max >= 1 && Lookup(m, key).Some? && Lookup(m, key).value.expires == reading + c.ttl as real
    requires Rivals(m, key, reading + c.ttl as real) <= rivals && Roomy(c, m, ps, reading, rivals)
    requires forall i :: 0 <= i < |ps| ==> ps[i].read < reading + c.ttl as real
    ensures Lookup(MemoryAfter(c, m, ps), key) == Lookup(m, key) && Sized(MemoryAfter(c, m, ps), c.max)
    decreases |ps|
  {
    if ps != [] {
      var (next, verdict) := MemoryVerify(c, m, ps[0]);
      VerifySurvives(c, m, ps[0], key);
      VerifySized(c, m, ps[0]);
      RoomySurvives(c, next, ps[1..], reading, if verdict == Accepted && ps[0].read >= reading then rivals + 1 else rivals, key);
    }
  }

  /**
   At any load, and whatever order the clock was read in, a nonce accepted within its ttl
   stays refused as a replay as long as nothing more is accepted once `max - 1` others with
   readings not before its own have been, before it or after it.
   */
  lemma {:induction false} ReplayRefusedWhileRemembered(c: Config, m: NonceSlots, p: Presentation, between: seq<Presentation>, again: Presentation)
    requires Sized(m, c.max) && c.max >= 1 && MemoryVerify(c, m, p).1 == Accepted && NonceKey(again) == NonceKey(p)
    requires var accepted := MemoryVerify(c, m, p).0;
      Roomy(c, accepted, between, p.read, Rivals(accepted, NonceKey(p), p.read + c.ttl as real))
    requires again.read < p.read + c.ttl as real && forall i :: 0 <= i < |between| ==> between[i].read < p.read + c.ttl as real
    ensures MemoryVerify(c, MemoryAfter(c, MemoryVerify(c, m, p).0, between), again).1 != Accepted
  {
    var accepted, key := MemoryVerify(c, m, p).0, NonceKey(p);
    RememberSized(m, key, p.read, c.ttl, c.max);
    RoomySurvives(c, accepted, between, p.read, Rivals(accepted, key, p.read + c.ttl as real), key);
    LookupLive(MemoryAfter(c, accepted, between), key, again.read);
  }

  lemma {:induction false} FewAcceptancesAreRoomy(c: Config, m: NonceSlots, ps: seq<Presentation>, reading: real, rivals: nat)
    requires rivals + Acceptances(MemoryVerdicts(c, m, ps)) + 1 <= c.max
    ensures Roomy(c, m, ps, reading, rivals)
    decreases |ps|
  {
    if ps != [] {
      var (next, verdict) := MemoryVerify(c, m, ps[0]);
      assert MemoryVerdicts(c, m, ps)[1..] == MemoryVerdicts(c, next, ps[1..]);
      FewAcceptancesAreRoomy(c, next, ps[1..], reading, if verdict == Accepted && ps[0].read >= reading then rivals + 1 else rivals);
    }
  }

  lemma {:induction false} LatestHasNoRivals(m: NonceSlots, key: Key, now: real, ttl: nat, max: nat)
    requires Sized(m, max) && max >= 1 && MemoryRemember(m, key, now, ttl, max).1
    requires forall i :: 0 <= i < |m| ==> m[i].expires <= now + ttl as real
    ensures Rivals(MemoryRemember(m, key, now, ttl, max).0, key, now + ttl as real) == 0
  {
    LiveKeepsShape(m, now);
    LiveElements(m, now);
    assert forall i :: 0 <= i < |Live(m, now)| ==> Live(m, now)[i].expires <= now + ttl as real;
    LatestSlotHasNoRivals(Live(m, now), Slot(key, (), now + ttl as real), max);
  }

  lemma {:induction false} LatestSlotHasNoRivals(slots: NonceSlots, slot: Slot<()>, max: nat)
    requires Sized(slots, max) && max >= 1 && Lookup(slots, slot.key).None?
    requires forall i :: 0 <= i < |slots| ==> slots[i].expires <= slot.expires
    ensures Rivals(Insert(slots, slot, max), slot.key, slot.expires) == 0
  {
    NoRivals(slots, slot.key, slot.expires);
    InsertSized(slots, slot, max);
  }

  /** A nonce that was not read earlier than those already there is safe from any `max - 1` acceptances. */
  lemma {:induction false} TimelyReplayRefused(c: Config, m: NonceSlots, p: Presentation, between: seq<Presentation>, again: Presentation)
    requires Sized(m, c.max) && c.max >= 1 && MemoryVerify(c, m, p).1 == Accepted && NonceKey(again) == NonceKey(p)
    requires forall i :: 0 <= i < |m| ==> m[i].expires <= p.read + c.ttl as real
    requires again.read < p.read + c.ttl as real && forall i :: 0 <= i < |between| ==> between[i].read < p.read + c.ttl as real
    requires Acceptances(MemoryVerdicts(c, MemoryVerify(c, m, p).0, between)) <= c.max - 1
    ensures MemoryVerify(c, MemoryAfter(c, MemoryVerify(c, m, p).0, between), again).1 != Accepted
  {
    LatestHasNoRivals(m, NonceKey(p), p.read, c.ttl, c.max);
    FewAcceptancesAreRoomy(c, MemoryVerify(c, m, p).0, between, p.read, 0);
    ReplayRefusedWhileRemembered(c, m, p, between, again);
  }

  // ---------------------------------------------------------- late readings

  /** A properly signed request with this nonce, issued and checked at zero. */
  function Signed(c: Config, service: string, nonce: string, read: real, at: real): Presentation
    requires service in c.secrets
  {
    var message := Message(Some(0), nonce, "POST", "/", "tenant", "");
    Presentation(service, message, Mac(c.secrets[service], message), 0.0, read, at)
  }

  function Others(c: Config, service: string, n: nat, at: real): seq<Presentation>
    requires service in c.secrets
  {
    seq(n, i requires 0 <= i < n => Signed(c, service, Other(("tenant", service, "nonce"), i).2, at, at))
  }

  lemma {:induction false} AfterSnoc(c: Config, m: NonceSlots, ps: seq<Presentation>, p: Presentation)
    ensures MemoryAfter(c, m, ps + [p]) == MemoryVerify(c, MemoryAfter(c, m, ps), p).0
    decreases |ps|
  {
    if ps != [] {
      assert (ps + [p])[1..] == ps[1..] + [p];
      AfterSnoc(c, MemoryVerify(c, m, ps[0]).0, ps[1..], p);
    } else {
      assert (ps + [p])[1..] == [];
    }
  }

  lemma {:induction false} SignedIsFresh(c: Config, service: string, nonce: string, read: real, at: real)
    requires service in c.secrets && |c.secrets[service]| >= 32
    ensures Refusal(c, Signed(c, service, nonce, read, at)).None?
    ensures NonceKey(Signed(c, service, nonce, read, at)) == ("tenant", service, nonce)
  {
    assert (0.0).Floor == 0;
  }

  lemma {:induction false} OthersFill(c: Config, service: string, n: nat, at: real)
    requires service in c.secrets && |c.secrets[service]| >= 32 && n <= c.max && c.ttl > 0
    ensures MemoryAfter(c, [], Others(c, service, n, at)) == Fill(("tenant", service, "nonce"), n, (), at + c.ttl as real)
  {
    var key := ("tenant", service, "nonce");
    if n > 0 {
      OthersFill(c, service, n - 1, at);
      var p := Signed(c, service, Other(key, n - 1).2, at, at);
      assert Others(c, service, n, at) == Others(c, service, n - 1, at) + [p];
      AfterSnoc(c, [], Others(c, service, n - 1, at), p);
      SignedIsFresh(c, service, Other(key, n - 1).2, at, at);
      AllLive(Fill(key, n - 1, (), at + c.ttl as real), at);
      FillIs(key, n - 1, (), at + c.ttl as real);
      FillGrows(key, n - 1, (), at + c.ttl as real, c.max);
    }
  }

  lemma {:induction false} LateKeyIsForgotten(key: Key, late: real, ttl: nat, max: nat)
    requires max >= 2 && 0.0 < late < ttl as real
    ensures var before := Fill(key, max - 1, (), late + ttl as real);
      var (accepted, one) := MemoryRemember(before, key, 0.0, ttl, max);
      var (after, two) := MemoryRemember(accepted, Other(key, max - 1), late, ttl, max);
      one && two && MemoryRemember(after, key, late, ttl, max).1
  {
    var others, slot := Fill(key, max - 1, (), late + ttl as real), Slot(key, (), 0.0 + ttl as real);
    LateSlotIsForgotten(key, (), late, ttl as real, max);
    RememberNew(others, key, 0.0, ttl, max);
    RememberNew(others + [slot], Other(key, max - 1), late, ttl, max);
  }

  lemma {:induction false} RememberNew(m: NonceSlots, key: Key, now: real, ttl: nat, max: nat)
    requires Live(m, now) == m && Lookup(m, key).None?
    ensures MemoryRemember(m, key, now, ttl, max) == (Insert(m, Slot(key, (), now + ttl as real), max), true)
  {
  }

  lemma {:induction false} LateRequestIsForgotten(c: Config, m: NonceSlots, key: Key, late: real,
                                 first: Presentation, second: Presentation, again: Presentation)
    requires c.max >= 2 && 0.0 < late < c.ttl as real && m == Fill(key, c.max - 1, (), late + c.ttl as real)
    requires Refusal(c, first).None? && Refusal(c, second).None? && Refusal(c, again).None?
    requires NonceKey(first) == NonceKey(again) == key && NonceKey(second) == Other(key, c.max - 1)
    requires first.read == 0.0 && second.read == again.read == late
    ensures var (accepted, one) := MemoryVerify(c, m, first);
      var (after, two) := MemoryVerify(c, accepted, second);
      one == two == Accepted && MemoryVerify(c, after, again).1 == Accepted
  {
    LateKeyIsForgotten(key, late, c.ttl, c.max);
  }

  /**
   For every configured service and capacity from two on: a nonce whose reading came late
   to the lock, behind `max - 1` later ones, is forgotten with the next acceptance, and the
   same request accepted again well within the ttl.
   */
  lemma {:induction false} LateNonceIsReplayed(c: Config, service: string, late: real)
    requires service in c.secrets && |c.secrets[service]| >= 32 && c.max >= 2 && 0.0 < late < c.ttl as real
    ensures var before := MemoryAfter(c, [], Others(c, service, c.max - 1, late));
      var first, again := Signed(c, service, "nonce", 0.0, late), Signed(c, service, "nonce", late, late);
      var (accepted, one) := MemoryVerify(c, before, first);
      var (after, two) := MemoryVerify(c, accepted, Signed(c, service, Other(("tenant", service, "nonce"), c.max - 1).2, late, late));
      SameRequest(first, again) && one == two == Accepted && MemoryVerify(c, after, again).1 == Accepted
  {
    var key := ("tenant", service, "nonce");
    OthersFill(c, service, c.max - 1, late);
    SignedIsFresh(c, service, "nonce", 0.0, late);
    SignedIsFresh(c, service, Other(key, c.max - 1).2, late, late);
    SignedIsFresh(c, service, "nonce", late, late);
    LateRequestIsForgotten(
      c, MemoryAfter(c, [], Others(c, service, c.max - 1, late)), key, late, Signed(c, service, "nonce", 0.0, late),
      Signed(c, service, Other(key, c.max - 1).2, late, late), Signed(c, service, "nonce", late, late));
  }

  // ---------------------------------------------------------------- objects

  class MemoryNonceStore {
    const ttl: nat
    const max: nat
    var values: NonceSlots

    constructor (ttl: nat, max: nat)
      ensures values == [] && this.ttl == ttl && this.max == max
    {
      this.ttl, this.max := ttl, max;
      values := [];
    }

    method Remember(key: Key, now: real) returns (first: bool)
      modifies this
      ensures (values, first) == MemoryRemember(old(values), key, now, ttl, max)
    {
      values := KeepLive(values, now);
      var at := IndexOf(values, key);
      if at < |values| {
        return false;
      }
      if |values| >= max && values != [] {
        var oldest := OldestAt(values);
        values := values[..oldest] + values[oldest + 1..];
      }
      values := values + [Slot(key, (), now + ttl as real)];
      first := true;
    }
  }

  class PostgresNonceStore {
    const ttl: nat
    var rows: Rows

    constructor (ttl: nat)
      ensures rows == map[] && this.ttl == ttl
    {
      this.ttl := ttl;
      rows := map[];
    }

    method Remember(key: Key, issued: int, now: real) returns (first: bool)
      modifies this
      ensures (rows, first) == TableRemember(old(rows), key, issued, now, ttl)
    {
      rows := map k | k in rows && (k.0 != key.0 || rows[k] as real > now) :: rows[k];
      if key in rows {
        return false;
      }
      rows := rows[key := issued + ttl];
      first := true;
    }
  }

  class WorkloadRequestVerifier {
    const secrets: map<string, string>
    const skew: nat
    const nonces: MemoryNonceStore

    constructor (secrets: map<string, string>, skew: nat, nonces: MemoryNonceStore)
      ensures this.secrets == secrets && this.skew == skew && this.nonces == nonces
    {
      this.secrets, this.skew, this.nonces := secrets, skew, nonces;
    }

    method Verify(p: Presentation) returns (verdict: Verdict)
      modifies nonces
      ensures (nonces.values, verdict)
           == MemoryVerify(Config(secrets, skew, nonces.ttl, nonces.max), old(nonces.values), p)
      ensures verdict in {Accepted, Replay} <==>
        && p.service in secrets && |secrets[p.service]| >= 32 && p.message.timestamp.Some?
        && p.message.timestamp.value - skew <= p.checkedAt.Floor <= p.message.timestamp.value + skew
        && p.signature == Mac(secrets[p.service], p.message) && p.message.tenant != ""
      ensures verdict !in {Accepted, Replay} ==> nonces.values == old(nonces.values)
    {
      if p.service !in secrets || |secrets[p.service]| < 32 {
        return NotConfigured;
      }
      if p.message.timestamp.None? {
        return TimestampInvalid;
      }
      var clock, issued := p.checkedAt.Floor, p.message.timestamp.value;
      if clock - issued > skew || issued - clock > skew {
        return Stale;
      }
      if p.signature != Mac(secrets[p.service], p.message) {
        return SignatureInvalid;
      }
      if p.message.tenant == "" {
        return TenantRequired;
      }
      var first := nonces.Remember((p.message.tenant, p.service, p.message.nonce), p.read);
      verdict := if first then Accepted else Replay;
    }
  }
}
