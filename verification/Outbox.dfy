/**
 The outbox worker and its retry policy (services/orchestrator/app/resilience.py).
 Preflight and dispatch are inputs: each call of `process` is told how they ended.
 */
module Outbox {
  datatype Status = Queued | Sent | Cancelled | Blocked | Dead | Retry

  datatype Ending = Delivered | Denied | Permanent | Transient(jitter: real)

  datatype Item = Item(status: Status, attempts: nat, retryAfter: real)

  datatype Policy = Policy(maxAttempts: nat, base: real, most: real)

  function Power(n: nat): real {
    if n == 0 then 1.0 else 2.0 * Power(n - 1)
  }

  function Min(a: real, b: real): real {
    if a < b then a else b
  }

  function Scaled(x: real, factor: real): real {
    x * factor
  }

  function Delay(p: Policy, attempt: nat, jitter: real): real {
    Scaled(Min(p.most, p.base * Power(if attempt == 0 then 0 else attempt - 1)), 0.5 + jitter / 2.0)
  }

  function Process(p: Policy, item: Item, ending: Ending): Item {
    if item.status in {Sent, Cancelled} then item
    else match ending
      case Delivered => Item(Sent, item.attempts + 1, item.retryAfter)
      case Denied => Item(Blocked, item.attempts + 1, item.retryAfter)
      case Permanent => Item(Dead, item.attempts + 1, item.retryAfter)
      case Transient(jitter) =>
        if item.attempts + 1 >= p.maxAttempts then Item(Dead, item.attempts + 1, item.retryAfter)
        else Item(Retry, item.attempts + 1, Delay(p, item.attempts + 1, jitter))
  }

  /** What one try does, for each way it can end; items that are sent or cancelled are not tried. */
  lemma {:induction false} TriesExactly(p: Policy, item: Item, ending: Ending)
    ensures var next := Process(p, item, ending);
      && (item.status in {Sent, Cancelled} ==> next == item)
      && (item.status !in {Sent, Cancelled} ==>
            && next.attempts == item.attempts + 1
            && (next.status == Sent <==> ending == Delivered)
            && (next.status == Blocked <==> ending == Denied)
            && (next.status == Retry <==> ending.Transient? && item.attempts + 1 < p.maxAttempts)
            && (next.status == Dead <==> ending == Permanent || (ending.Transient? && item.attempts + 1 >= p.maxAttempts))
            && (next.status != Retry ==> next.retryAfter == item.retryAfter))
  {
  }

  /** The wait before a retry: from half of the capped doubling up to all of it, in proportion to the jitter. */
  lemma {:induction false} WaitsExactly(p: Policy, item: Item, ending: Ending)
    requires item.status !in {Sent, Cancelled} && Process(p, item, ending).status == Retry
    ensures var doubled := p.base * Power(item.attempts);
      var cap := if doubled < p.most then doubled else p.most;
      Process(p, item, ending).retryAfter == cap / 2.0 + cap * ending.jitter / 2.0
    ensures Power(0) == 1.0 && Power(item.attempts + 1) == 2.0 * Power(item.attempts)
  {
    var doubled := p.base * Power(item.attempts);
    var cap := if doubled < p.most then doubled else p.most;
    assert Process(p, item, ending).retryAfter == Scaled(cap, 0.5 + ending.jitter / 2.0);
    assert cap * (0.5 + ending.jitter / 2.0) == cap / 2.0 + cap * ending.jitter / 2.0;
  }

  function After(p: Policy, item: Item, endings: seq<Ending>): Item
    decreases |endings|
  {
    if endings == [] then item else After(p, Process(p, item, endings[0]), endings[1..])
  }

  /**
   How often it was delivered: calls whose dispatch returned. A dispatch that raises after its
   effect took place does not count, and the retry repeats that effect.
   */
  function Deliveries(p: Policy, item: Item, endings: seq<Ending>): nat
    decreases |endings|
  {
    if endings == [] then 0
    else
      (if item.status !in {Sent, Cancelled} && endings[0] == Delivered then 1 else 0)
      + Deliveries(p, Process(p, item, endings[0]), endings[1..])
  }

  lemma {:induction false} SettledStays(p: Policy, item: Item, endings: seq<Ending>)
    requires item.status in {Sent, Cancelled}
    ensures After(p, item, endings) == item && Deliveries(p, item, endings) == 0
    decreases |endings|
  {
    if endings != [] {
      SettledStays(p, item, endings[1..]);
    }
  }

  /**
   Passing each returned item back in, however often and with whatever endings, delivers at
   most once; the final item is SENT exactly when it was delivered or started out SENT.
   A BLOCKED or DEAD item that is passed back in is tried again.
   */
  lemma {:induction false} DeliversAtMostOnce(p: Policy, item: Item, endings: seq<Ending>)
    ensures Deliveries(p, item, endings) <= 1
    ensures After(p, item, endings).status == Sent <==> Deliveries(p, item, endings) == 1 || item.status == Sent
    decreases |endings|
  {
    if item.status in {Sent, Cancelled} {
      SettledStays(p, item, endings);
    } else if endings != [] {
      DeliversAtMostOnce(p, Process(p, item, endings[0]), endings[1..]);
      if endings[0] == Delivered {
        SettledStays(p, Process(p, item, endings[0]), endings[1..]);
      }
    }
  }

  /** Every call but the last returned RETRY: what a caller that retries only RETRY items does. */
  predicate RetriesOnly(p: Policy, item: Item, endings: seq<Ending>)
    decreases |endings|
  {
    |endings| <= 1 || (Process(p, item, endings[0]).status == Retry && RetriesOnly(p, Process(p, item, endings[0]), endings[1..]))
  }

  function Backoff(p: Policy, item: Item, endings: seq<Ending>): real
    decreases |endings|
  {
    if endings == [] then 0.0
    else
      var next := Process(p, item, endings[0]);
      (if next.status == Retry then next.retryAfter else 0.0) + Backoff(p, next, endings[1..])
  }

  predicate Sensible(p: Policy, endings: seq<Ending>) {
    p.base >= 0.0 && p.most >= 0.0
    && forall i :: 0 <= i < |endings| && endings[i].Transient? ==> 0.0 <= endings[i].jitter <= 1.0
  }

  lemma {:induction false} DelayBounds(p: Policy, attempt: nat, jitter: real)
    requires p.base >= 0.0 && p.most >= 0.0 && 0.0 <= jitter <= 1.0 && attempt >= 1
    ensures 0.0 <= Delay(p, attempt, jitter) <= p.most
    ensures Delay(p, attempt, jitter) <= p.base * Power(attempt - 1)
  {
    var factor, wait := 0.5 + jitter / 2.0, Min(p.most, p.base * Power(attempt - 1));
    PowerPositive(attempt - 1);
    assert p.base * Power(attempt - 1) >= 0.0;
    assert 0.0 <= factor <= 1.0;
    assert Delay(p, attempt, jitter) == Scaled(wait, factor);
    Shrinks(wait, factor);
  }

  lemma {:induction false} Shrinks(x: real, factor: real)
    requires x >= 0.0 && 0.0 <= factor <= 1.0
    ensures 0.0 <= Scaled(x, factor) <= x
  {
    assert x * (1.0 - factor) >= 0.0;
  }

  lemma {:induction false} PowerPositive(n: nat)
    ensures Power(n) >= 1.0
    decreases n
  {
    if n > 0 {
      PowerPositive(n - 1);
    }
  }

  lemma {:induction false} Product(a: real, b: real)
    requires a >= 0.0 && b >= 0.0
    ensures a * b >= 0.0
  {
  }

  /** One more wait on top of the rest. */
  lemma {:induction false} Adds(base: real, most: real, now: real, last: real, n: nat, wait: real, rest: real)
    requires n >= 1 && 0.0 <= wait <= most && wait <= base * now
    requires 0.0 <= rest <= most * (n - 1) as real && rest <= base * (last - 2.0 * now)
    ensures 0.0 <= wait + rest <= most * n as real && wait + rest <= base * (last - now)
  {
    assert most * (n - 1) as real + most == most * n as real;
    assert base * now + base * (last - 2.0 * now) == base * (last - now);
  }

  /** An item that is passed back only while it says RETRY is tried at most `maxAttempts` times, and at least once. */
  lemma {:induction false} TriesAreBounded(p: Policy, item: Item, endings: seq<Ending>)
    requires item.status !in {Sent, Cancelled} && RetriesOnly(p, item, endings)
    ensures |endings| <= if item.attempts + 1 >= p.maxAttempts then 1 else p.maxAttempts - item.attempts
    decreases |endings|
  {
    if |endings| > 1 {
      TriesAreBounded(p, Process(p, item, endings[0]), endings[1..]);
    }
  }

  lemma {:induction false} RetryWaits(p: Policy, item: Item, ending: Ending)
    requires Sensible(p, [ending]) && item.status !in {Sent, Cancelled} && Process(p, item, ending).status == Retry
    ensures var wait := Process(p, item, ending).retryAfter;
      0.0 <= wait <= p.most && wait <= p.base * Power(item.attempts)
    ensures Process(p, item, ending).attempts == item.attempts + 1
  {
    assert [ending][0] == ending;
    DelayBounds(p, item.attempts + 1, ending.jitter);
  }

  predicate Bounded(p: Policy, item: Item, wait: real, tries: nat) {
    && 0.0 <= wait <= p.most * tries as real
    && wait <= p.base * (Power(item.attempts + tries) - Power(item.attempts))
  }

  lemma {:induction false} NoWait(p: Policy, item: Item, tries: nat)
    requires p.base >= 0.0 && p.most >= 0.0
    ensures Bounded(p, item, 0.0, tries)
  {
    PowerGrows(item.attempts, tries);
    Product(p.base, Power(item.attempts + tries) - Power(item.attempts));
    Product(p.most, tries as real);
  }

  lemma {:induction false} OneMoreWait(p: Policy, item: Item, next: Item, rest: real, tries: nat)
    requires next.attempts == item.attempts + 1 && Bounded(p, next, rest, tries)
    requires 0.0 <= next.retryAfter <= p.most && next.retryAfter <= p.base * Power(item.attempts)
    ensures Bounded(p, item, next.retryAfter + rest, tries + 1)
  {
    Adds(p.base, p.most, Power(item.attempts), Power(item.attempts + tries + 1), tries + 1, next.retryAfter, rest);
  }

  /**
   The waiting adds up to at most `most` per try and to at most `base * (2^(a + n) - 2^a)`
   for n tries of an item that had a attempts before.
   */
  lemma {:induction false} BackoffIsBounded(p: Policy, item: Item, endings: seq<Ending>)
    requires item.status !in {Sent, Cancelled} && RetriesOnly(p, item, endings) && Sensible(p, endings)
    ensures Bounded(p, item, Backoff(p, item, endings), |endings|)
    decreases |endings|
  {
    if endings == [] || Process(p, item, endings[0]).status != Retry {
      assert Backoff(p, item, endings) == 0.0 by {
        if endings != [] {
          assert endings[1..] == [];
        }
      }
      NoWait(p, item, |endings|);
    } else {
      var next := Process(p, item, endings[0]);
      assert Sensible(p, [endings[0]]) && Sensible(p, endings[1..]);
      RetryWaits(p, item, endings[0]);
      BackoffIsBounded(p, next, endings[1..]);
      OneMoreWait(p, item, next, Backoff(p, next, endings[1..]), |endings| - 1);
    }
  }

  lemma {:induction false} PowerGrows(n: nat, more: nat)
    ensures Power(n + more) >= Power(n)
    decreases more
  {
    if more > 0 {
      PowerPositive(n + more - 1);
      PowerGrows(n, more - 1);
    }
  }

  class OutboxWorker {
    const policy: Policy
    var deadLetters: seq<Item>

    constructor (policy: Policy)
      ensures this.policy == policy && deadLetters == []
    {
      this.policy := policy;
      deadLetters := [];
    }

    method DoProcess(item: Item, ending: Ending) returns (r: Item)
      modifies this
      ensures r == Process(policy, item, ending)
      ensures deadLetters == if item.status !in {Sent, Cancelled} && r.status in {Blocked, Dead}
                             then old(deadLetters) + [r] else old(deadLetters)
    {
      if item.status == Sent || item.status == Cancelled {
        return item;
      }
      match ending {
        case Delivered => r := item.(status := Sent, attempts := item.attempts + 1);
        case Denied =>
          r := item.(status := Blocked, attempts := item.attempts + 1);
          deadLetters := deadLetters + [r];
        case Permanent =>
          r := item.(status := Dead, attempts := item.attempts + 1);
          deadLetters := deadLetters + [r];
        case Transient(jitter) =>
          var attempts := item.attempts + 1;
          if attempts >= policy.maxAttempts {
            r := item.(status := Dead, attempts := attempts);
            deadLetters := deadLetters + [r];
          } else {
            r := Item(Retry, attempts, Delay(policy, attempts, jitter));
          }
      }
    }
  }
}
