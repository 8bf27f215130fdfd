/**
 The per-minute request limit of shared/atlantis_contracts/middleware.py. The minute of a
 call is read from the clock before the lock is taken, so calls may arrive a little out of order.
 */
module RateLimit {
  type Window = (string, int)

  type Windows = map<Window, nat>

  const PRUNE_ABOVE := 10_000

  function Get(w: Windows, key: Window): nat {
    if key in w then w[key] else 0
  }

  function Keep(w: Windows, minute: int): Windows {
    map key | key in w && key.1 >= minute - 1 :: w[key]
  }

  /** The counters after a call, and whether it is admitted. */
  function Call(w: Windows, key: Window, limit: int): (Windows, bool) {
    var count := Get(w, key) + 1;
    var counted := w[key := count];
    (if |counted| > PRUNE_ABOVE then Keep(counted, key.1) else counted, count <= limit)
  }

  /** The counters after these calls. */
  function After(calls: seq<Window>, limit: int): Windows {
    if calls == [] then map[] else Call(After(calls[..|calls| - 1], limit), calls[|calls| - 1], limit).0
  }

  predicate Admits(calls: seq<Window>, next: Window, limit: int) {
    Call(After(calls, limit), next, limit).1
  }

  function Count(calls: seq<Window>, key: Window): nat {
    if calls == [] then 0 else Count(calls[..|calls| - 1], key) + if calls[|calls| - 1] == key then 1 else 0
  }

  /** No call is more than a minute behind any earlier one. */
  predicate NearlyOrdered(calls: seq<Window>) {
    forall i, j :: 0 <= i < j < |calls| ==> calls[j].1 >= calls[i].1 - 1
  }

  /** The call's minute is at most one behind every earlier call's. */
  predicate NotTooLate(past: seq<Window>, key: Window) {
    forall i :: 0 <= i < |past| ==> key.1 >= past[i].1 - 1
  }

  /** The counters of every window that can still be asked for are exact. */
  ghost predicate Exact(w: Windows, past: seq<Window>) {
    forall key: Window :: NotTooLate(past, key) ==> Get(w, key) == Count(past, key)
  }

  lemma {:induction false} CallKeepsExact(w: Windows, past: seq<Window>, key: Window, limit: int)
    requires Exact(w, past) && NotTooLate(past, key)
    ensures Exact(Call(w, key, limit).0, past + [key])
    ensures Call(w, key, limit).1 <==> Count(past, key) < limit
  {
    var longer := past + [key];
    assert longer[..|past|] == past && longer[|past|] == key;
    forall k: Window | NotTooLate(longer, k)
      ensures Get(Call(w, key, limit).0, k) == Count(longer, k)
    {
      assert k.1 >= longer[|past|].1 - 1;
      assert forall i :: 0 <= i < |past| ==> k.1 >= longer[i].1 - 1;
      assert Get(w, k) == Count(past, k);
    }
  }

  lemma {:induction false} CountersAreExact(calls: seq<Window>, limit: int)
    requires NearlyOrdered(calls)
    ensures Exact(After(calls, limit), calls)
    decreases |calls|
  {
    if calls != [] {
      var past, last := calls[..|calls| - 1], calls[|calls| - 1];
      CountersAreExact(past, limit);
      CallKeepsExact(After(past, limit), past, last, limit);
      assert calls == past + [last];
    }
  }

  /**
   Pruning is never noticed: as long as calls are at most a minute late, a call is admitted
   exactly when fewer than `limit` earlier calls had its identity and minute.
   */
  lemma {:induction false} AdmitsExactlyTheLimit(calls: seq<Window>, next: Window, limit: int)
    requires NearlyOrdered(calls + [next])
    ensures Admits(calls, next, limit) <==> Count(calls, next) < limit
  {
    var all := calls + [next];
    assert forall i :: 0 <= i < |calls| ==> all[i] == calls[i] && all[|calls|] == next;
    CountersAreExact(calls, limit);
    CallKeepsExact(After(calls, limit), calls, next, limit);
  }

  function Minute(clock: real): int {
    (clock / 60.0).Floor
  }

  /** A call by this identity with the clock at this reading. */
  type Timed = (string, real)

  function Windows'(calls: seq<Timed>): seq<Window> {
    seq(|calls|, i requires 0 <= i < |calls| => (calls[i].0, Minute(calls[i].1)))
  }

  /** How many of these calls are admitted of one identity with the clock from `from` to a minute later. */
  function Admitted(calls: seq<Timed>, limit: int, identity: string, from: real): nat {
    if calls == [] then 0
    else
      var past, last := calls[..|calls| - 1], calls[|calls| - 1];
      Admitted(past, limit, identity, from)
      + if last.0 == identity && from <= last.1 < from + 60.0 && Admits(Windows'(past), (last.0, Minute(last.1)), limit)
        then 1 else 0
  }

  predicate AtMostAMinuteLate(calls: seq<Timed>) {
    NearlyOrdered(Windows'(calls))
  }

  lemma {:induction false} MinuteIs(clock: real, minute: int)
    ensures Minute(clock) == minute <==> 60.0 * minute as real <= clock < 60.0 * minute as real + 60.0
  {
    var m := Minute(clock);
    assert m as real <= clock / 60.0 < m as real + 1.0;
    assert 60.0 * (clock / 60.0) == clock;
    assert 60.0 * m as real <= clock < 60.0 * m as real + 60.0;
    if m < minute {
      assert (m + 1) as real <= minute as real;
    } else if m > minute {
      assert (minute + 1) as real <= m as real;
    }
  }

  /** What was admitted in a window is what was asked for, up to the limit. */
  lemma {:induction false} AdmittedIsCapped(calls: seq<Timed>, limit: nat, identity: string, minute: int)
    requires AtMostAMinuteLate(calls)
    ensures var asked := Count(Windows'(calls), (identity, minute));
      Admitted(calls, limit, identity, 60.0 * minute as real) == if asked < limit then asked else limit
    decreases |calls|
  {
    if calls != [] {
      var past, last := calls[..|calls| - 1], calls[|calls| - 1];
      var windows, next := Windows'(past), (last.0, Minute(last.1));
      assert Windows'(calls) == windows + [next];
      assert forall i :: 0 <= i < |windows| ==> Windows'(calls)[i] == windows[i];
      AdmittedIsCapped(past, limit, identity, minute);
      AdmitsExactlyTheLimit(windows, next, limit);
      MinuteIs(last.1, minute);
      assert (windows + [next])[..|windows|] == windows;
    }
  }

  /** In each minute of the clock an identity is admitted exactly as often as it calls, up to the limit and never beyond it. */
  lemma {:induction false} AtMostTheLimitPerMinute(calls: seq<Timed>, limit: nat, identity: string, minute: int)
    requires AtMostAMinuteLate(calls)
    ensures Admitted(calls, limit, identity, 60.0 * minute as real) <= limit
    ensures Count(Windows'(calls), (identity, minute)) <= limit ==>
      Admitted(calls, limit, identity, 60.0 * minute as real) == Count(Windows'(calls), (identity, minute))
  {
    AdmittedIsCapped(calls, limit, identity, minute);
  }

  class RateLimitMiddleware {
    const limit: int
    var windows: Windows

    constructor (limit: int)
      ensures windows == map[] && this.limit == limit
    {
      this.limit := limit;
      windows := map[];
    }

    method DoCall(identity: string, clock: real) returns (admitted: bool)
      modifies this
      ensures (windows, admitted) == Call(old(windows), (identity, Minute(clock)), limit)
    {
      var key := (identity, (clock / 60.0).Floor);
      var count := Get(windows, key) + 1;
      windows := windows[key := count];
      if |windows| > PRUNE_ABOVE {
        windows := map k | k in windows && k.1 >= key.1 - 1 :: windows[k];
      }
      admitted := count <= limit;
    }
  }
}
