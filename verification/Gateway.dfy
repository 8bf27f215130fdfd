/**
 Provider fallback of services/model_gateway/app/gateway.py.

 What each provider would answer is an input (`replies`); redaction only enters as
 the byte length of the redacted prompt. `Gateway.ModelGateway` is the stateful
 object, `Scan` and `Completion` the value form its methods are proved equal to.
 */
module Gateway {
  import opened Common

  datatype Provider = Provider(name: string, model: string)

  /** One provider call: parsed output with its cost, a ProviderError, or any other exception. */
  datatype Reply = Output(fields: set<string>, cost: int) | Failure(text: string) | Exception

  datatype Request = Request(
    tenant: string, task: string, promptBytes: nat, restricted: bool,
    maxCost: int, schema: set<string>)

  datatype Outcome =
    | Answered(provider: string, model: string, cost: int)
    | Refused(text: string)
    | NoApprovedProvider(errors: seq<string>)
    | Crashed

  datatype State = State(spent: map<(string, string), int>, unhealthy: set<string>)

  const PROTOCOL_OVERHEAD_UNITS := 64
  const MINIMUM_OUTPUT_UNITS := 16
  const FRESH := State(map[], {})

  function Spent(s: State, tenant: string, task: string): int {
    if (tenant, task) in s.spent then s.spent[(tenant, task)] else 0
  }

  function Remaining(s: State, req: Request): int {
    req.maxCost - Spent(s, req.tenant, req.task)
  }

  predicate HealthFailure(text: string) {
    !Contains(text, "BUDGET") && !Contains(text, "INVALID_STRUCTURED")
  }

  predicate Allowed(p: Provider, req: Request, unhealthy: set<string>, allowlist: set<string>) {
    p.name !in unhealthy && (req.restricted ==> p.name in allowlist)
  }

  predicate Acceptable(reply: Reply, req: Request, remaining: int) {
    reply.Output? && reply.cost <= remaining && req.schema <= reply.fields
  }

  /** The ProviderError an unacceptable reply ends in. */
  function ErrorText(reply: Reply, remaining: int): string
    requires !reply.Exception?
  {
    match reply
    case Failure(text) => text
    case Output(_, cost) => if cost > remaining then "BUDGET_EXCEEDED" else "INVALID_STRUCTURED_OUTPUT"
  }

  function Charge(s: State, req: Request, cost: int): State {
    s.(spent := s.spent[(req.tenant, req.task) := Spent(s, req.tenant, req.task) + cost])
  }

  /** The provider loop from position `i` on, with the errors collected so far. */
  function Scan(s: State, req: Request, providers: seq<Provider>, replies: seq<Reply>, allowlist: set<string>,
                i: nat, errors: seq<string>): (State, Outcome)
    requires |replies| == |providers| && i <= |providers|
    decreases |providers| - i
  {
    if i == |providers| then (s, NoApprovedProvider(errors))
    else if !Allowed(providers[i], req, s.unhealthy, allowlist) then
      Scan(s, req, providers, replies, allowlist, i + 1, errors)
    else if Remaining(s, req) <= 0 then (s, Refused("BUDGET_EXCEEDED"))
    else if replies[i].Exception? then (s, Crashed)
    else if Acceptable(replies[i], req, Remaining(s, req)) then
      var charged := Charge(s, req, replies[i].cost);
      (charged.(unhealthy := charged.unhealthy - {providers[i].name}),
       Answered(providers[i].name, providers[i].model, replies[i].cost))
    else
      var text := ErrorText(replies[i], Remaining(s, req));
      var next := if HealthFailure(text) then s.(unhealthy := s.unhealthy + {providers[i].name}) else s;
      Scan(next, req, providers, replies, allowlist, i + 1, errors + [text])
  }

  predicate Admissible(req: Request, policyMax: int) {
    1 <= req.maxCost <= policyMax
    && req.maxCost - (req.promptBytes + PROTOCOL_OVERHEAD_UNITS) >= MINIMUM_OUTPUT_UNITS
  }

  function Rejection(req: Request, policyMax: int): string {
    if req.maxCost < 1 then "BUDGET_INVALID"
    else if req.maxCost > policyMax then "BUDGET_POLICY_LIMIT_EXCEEDED"
    else "BUDGET_EXCEEDED_PRECALL"
  }

  function Completion(s: State, req: Request, providers: seq<Provider>, replies: seq<Reply>, allowlist: set<string>,
                    policyMax: int): (State, Outcome)
    requires |replies| == |providers|
  {
    if !Admissible(req, policyMax) then (s, Refused(Rejection(req, policyMax)))
    else Scan(s, req, providers, replies, allowlist, 0, [])
  }

  // ------------------------------------------- independent characterisation

  /** One call of the gateway that passed the checks before the loop. */
  datatype Round = Round(s: State, req: Request, providers: seq<Provider>, replies: seq<Reply>, allowlist: set<string>) {
    ghost predicate Valid() {
      |replies| == |providers|
    }

    ghost function Left(): int {
      Remaining(s, req)
    }

    /** Names that failed their health before position `j`, if the loop gets there. */
    ghost function FailedBefore(j: nat): set<string>
      requires Valid() && j <= |providers|
      decreases j, 0
    {
      if j == 0 then {}
      else if Called(j - 1) && replies[j - 1].Failure? && HealthFailure(replies[j - 1].text)
      then FailedBefore(j - 1) + {providers[j - 1].name}
      else FailedBefore(j - 1)
    }

    /** Provider `j` is called when the loop reaches it: healthy then, and allowed. */
    ghost predicate Called(j: nat)
      requires Valid() && j < |providers|
      decreases j, 1
    {
      && providers[j].name !in s.unhealthy
      && providers[j].name !in FailedBefore(j)
      && (req.restricted ==> providers[j].name in allowlist)
    }

    /** The loop ends at `j` when `j` is called and is answered from, out of budget, or crashes. */
    ghost predicate EndsAt(j: nat)
      requires Valid() && j < |providers|
    {
      Called(j) && (Left() <= 0 || replies[j].Exception? || Acceptable(replies[j], req, Left()))
    }

    ghost predicate FirstEnd(k: nat)
      requires Valid()
    {
      k < |providers| && EndsAt(k) && forall j: nat :: j < k ==> !EndsAt(j)
    }

    ghost function ErrorsBefore(j: nat): seq<string>
      requires Valid() && j <= |providers|
    {
      if j == 0 then []
      else if Called(j - 1) && !replies[j - 1].Exception?
      then ErrorsBefore(j - 1) + [ErrorText(replies[j - 1], Left())]
      else ErrorsBefore(j - 1)
    }

    /** The loop's own state on reaching position `j`. */
    ghost function At(j: nat): State
      requires Valid() && j <= |providers|
    {
      s.(unhealthy := s.unhealthy + FailedBefore(j))
    }

    ghost function Result(): (State, Outcome)
      requires Valid()
    {
      Scan(s, req, providers, replies, allowlist, 0, [])
    }

    lemma {:induction false} LoopReaches(j: nat)
      requires Valid() && j <= |providers|
      requires forall k: nat :: k < j ==> !EndsAt(k)
      ensures Result() == Scan(At(j), req, providers, replies, allowlist, j, ErrorsBefore(j))
    {
      if j == 0 {
        assert At(0) == s;
      } else {
        LoopReaches(j - 1);
        assert !EndsAt(j - 1);
        if Called(j - 1) {
          if replies[j - 1].Output? {
            OwnErrorsKeepHealth(replies[j - 1], Left());
          } else if HealthFailure(replies[j - 1].text) {
            assert At(j).unhealthy == At(j - 1).unhealthy + {providers[j - 1].name};
          }
        }
      }
    }

    /**
     The gateway answers from the first provider, in order, that is healthy, allowed and
     acceptable, charging exactly its cost and exactly once; out of budget, crashed or
     without such a provider it charges nothing. Health is lost by exactly the providers
     whose own failure was seen before that point.
     */
    lemma {:induction false} FirstFit()
      requires Valid()
      ensures forall k: nat :: FirstEnd(k) ==>
        var (after, outcome) := Result();
        && after.unhealthy == s.unhealthy + FailedBefore(k)
        && outcome == (if Left() <= 0 then Refused("BUDGET_EXCEEDED")
                       else if replies[k].Exception? then Crashed
                       else Answered(providers[k].name, providers[k].model, replies[k].cost))
        && after.spent == (if !outcome.Answered? then s.spent
                           else s.spent[(req.tenant, req.task) := Spent(s, req.tenant, req.task) + replies[k].cost])
      ensures (forall k: nat :: k < |providers| ==> !EndsAt(k)) ==>
        Result() == (At(|providers|), NoApprovedProvider(ErrorsBefore(|providers|)))
    {
      forall k: nat | FirstEnd(k)
        ensures Result() == Scan(At(k), req, providers, replies, allowlist, k, ErrorsBefore(k))
        ensures At(k).unhealthy - {providers[k].name} == At(k).unhealthy
      {
        LoopReaches(k);
      }
      if forall k: nat :: k < |providers| ==> !EndsAt(k) {
        LoopReaches(|providers|);
      }
    }

    /** Some provider ends the loop exactly when a first one does. */
    lemma {:induction false} FirstEndExists(j: nat)
      requires Valid() && j < |providers| && EndsAt(j)
      ensures exists k: nat :: k <= j && FirstEnd(k)
      decreases j
    {
      if exists i: nat :: i < j && EndsAt(i) {
        var i: nat :| i < j && EndsAt(i);
        FirstEndExists(i);
      } else {
        assert FirstEnd(j);
      }
    }

    /** The loop ends at the first such provider, or runs out of providers. */
    lemma {:induction false} Ends()
      requires Valid()
      ensures (exists k: nat :: FirstEnd(k)) || forall j: nat :: j < |providers| ==> !EndsAt(j)
      ensures forall k: nat :: FirstEnd(k) ==>
        var (after, outcome) := Result();
        && after.unhealthy == s.unhealthy + FailedBefore(k)
        && outcome == (if Left() <= 0 then Refused("BUDGET_EXCEEDED")
                       else if replies[k].Exception? then Crashed
                       else Answered(providers[k].name, providers[k].model, replies[k].cost))
        && after.spent == (if !outcome.Answered? then s.spent
                           else s.spent[(req.tenant, req.task) := Spent(s, req.tenant, req.task) + replies[k].cost])
      ensures (forall k: nat :: !FirstEnd(k)) ==> Result() == (At(|providers|), NoApprovedProvider(ErrorsBefore(|providers|)))
    {
      FirstFit();
      if j: nat :| j < |providers| && EndsAt(j) {
        FirstEndExists(j);
      }
    }

    lemma {:induction false} FailedGrows(j: nat, k: nat)
      requires Valid() && j <= k <= |providers|
      ensures FailedBefore(j) <= FailedBefore(k)
      decreases k
    {
      if j < k {
        FailedGrows(j, k - 1);
      }
    }

    lemma {:induction false} FailedFailed(k: nat, name: string)
      requires Valid() && k <= |providers| && name in FailedBefore(k)
      ensures exists j :: 0 <= j < k && providers[j].name == name && FailedItself(replies[j])
    {
      if !(Called(k - 1) && replies[k - 1].Failure? && HealthFailure(replies[k - 1].text) && providers[k - 1].name == name) {
        FailedFailed(k - 1, name);
      }
    }

    lemma {:induction false} PassedAreRemembered(end: nat)
      requires Valid() && end <= |providers|
      ensures Remembered(req, providers, replies, allowlist, s.unhealthy + FailedBefore(end), end)
    {
      if end > 0 {
        PassedAreRemembered(end - 1);
      }
    }

    lemma {:induction false} ErrorsExplained(k: nat)
      requires Valid() && k <= |providers| && forall j: nat :: j < k ==> !EndsAt(j)
      ensures forall text :: text in ErrorsBefore(k) ==> exists j :: 0 <= j < k && Explains(replies[j], req, Left(), text)
    {
      if k > 0 {
        ErrorsExplained(k - 1);
        assert !EndsAt(k - 1);
        if Called(k - 1) && !replies[k - 1].Exception? {
          assert Explains(replies[k - 1], req, Left(), ErrorText(replies[k - 1], Left()));
        }
      }
    }
  }

  lemma {:induction false} OwnErrorsKeepHealth(reply: Reply, remaining: int)
    requires reply.Output?
    ensures !HealthFailure(ErrorText(reply, remaining))
  {
    var a := "BUDGET_EXCEEDED";
    assert "BUDGET" <= a;
    var b := "INVALID_STRUCTURED_OUTPUT";
    assert "INVALID_STRUCTURED" <= b;
  }

  // ------------------------------------------------------ runs of one gateway

  ghost predicate WithinPolicy(s: State, policyMax: int) {
    forall tenant, task :: Spent(s, tenant, task) <= policyMax
  }

  lemma {:induction false} CompleteKeepsPolicy(s: State, req: Request, providers: seq<Provider>, replies: seq<Reply>,
                            allowlist: set<string>, policyMax: int)
    requires |replies| == |providers| && WithinPolicy(s, policyMax)
    ensures var (after, outcome) := Completion(s, req, providers, replies, allowlist, policyMax);
      && WithinPolicy(after, policyMax)
      && s.unhealthy <= after.unhealthy
      && (outcome.Answered? ==> outcome.cost <= Remaining(s, req))
  {
    var round := Round(s, req, providers, replies, allowlist);
    var (after, outcome) := Completion(s, req, providers, replies, allowlist, policyMax);
    if Admissible(req, policyMax) {
      round.FirstFit();
      if j: nat :| j < |providers| && round.EndsAt(j) {
        round.FirstEndExists(j);
        var k: nat :| round.FirstEnd(k);
      }
      forall tenant, task
        ensures Spent(after, tenant, task) <= policyMax
      {
        assert Spent(s, tenant, task) <= policyMax;
      }
    }
  }

  datatype Call = Call(req: Request, replies: seq<Reply>)

  function Runs(s: State, calls: seq<Call>, providers: seq<Provider>, allowlist: set<string>, policyMax: int): State
    requires forall c :: c in calls ==> |c.replies| == |providers|
    decreases |calls|
  {
    if calls == [] then s
    else
      var (next, _) := Completion(s, calls[0].req, providers, calls[0].replies, allowlist, policyMax);
      Runs(next, calls[1..], providers, allowlist, policyMax)
  }

  function Names(providers: seq<Provider>): set<string> {
    set p | p in providers :: p.name
  }

  lemma {:induction false} FailedAreProviders(round: Round, j: nat)
    requires round.Valid() && j <= |round.providers|
    ensures round.FailedBefore(j) <= Names(round.providers)
    decreases j
  {
    if j > 0 {
      FailedAreProviders(round, j - 1);
      assert round.providers[j - 1] in round.providers;
    }
  }

  /**
   Over any run of calls on one gateway, spend per tenant and task stays within the
   policy maximum, the unhealthy set only grows, and it never exceeds the providers' names.
   */
  lemma {:induction false} RunsStayWithinPolicy(s: State, calls: seq<Call>, providers: seq<Provider>,
                                                allowlist: set<string>, policyMax: int)
    requires forall c :: c in calls ==> |c.replies| == |providers|
    requires WithinPolicy(s, policyMax)
    ensures var after := Runs(s, calls, providers, allowlist, policyMax);
      && WithinPolicy(after, policyMax)
      && s.unhealthy <= after.unhealthy <= s.unhealthy + Names(providers)
    decreases |calls|
  {
    if calls != [] {
      var req, replies := calls[0].req, calls[0].replies;
      var (next, outcome) := Completion(s, req, providers, replies, allowlist, policyMax);
      CompleteKeepsPolicy(s, req, providers, replies, allowlist, policyMax);
      var round := Round(s, req, providers, replies, allowlist);
      round.FirstFit();
      if Admissible(req, policyMax) {
        if j: nat :| j < |providers| && round.EndsAt(j) {
          round.FirstEndExists(j);
          var k: nat :| round.FirstEnd(k);
          FailedAreProviders(round, k);
        } else {
          FailedAreProviders(round, |providers|);
        }
      }
      RunsStayWithinPolicy(next, calls[1..], providers, allowlist, policyMax);
    }
  }

  /** A fresh ledger never charges more than the request allowed, which is what was reserved for it. */
  lemma {:induction false} FreshCostIsBounded(req: Request, providers: seq<Provider>, replies: seq<Reply>,
                           allowlist: set<string>, policyMax: int)
    requires |replies| == |providers|
    ensures var outcome := Completion(FRESH, req, providers, replies, allowlist, policyMax).1;
      outcome.Answered? ==> outcome.cost <= req.maxCost <= policyMax
  {
    if policyMax >= 0 {
      CompleteKeepsPolicy(FRESH, req, providers, replies, allowlist, policyMax);
    }
  }

  // ------------------------------------------------- what a call is charged

  /**
   An answered call adds its cost to the spend of its own tenant and task and to no other; a
   call that is not answered leaves the ledger as it is.
   */
  lemma {:induction false} AnswerIsCharged(s: State, req: Request, providers: seq<Provider>, replies: seq<Reply>,
                         allowlist: set<string>, policyMax: int)
    requires |replies| == |providers|
    ensures var (after, outcome) := Completion(s, req, providers, replies, allowlist, policyMax);
      var key := (req.tenant, req.task);
      && (!outcome.Answered? ==> after.spent == s.spent)
      && (outcome.Answered? ==>
            && key in after.spent
            && after.spent[key] == (if key in s.spent then s.spent[key] else 0) + outcome.cost
            && forall other :: other != key ==>
                 (other in after.spent <==> other in s.spent) && (other in s.spent ==> after.spent[other] == s.spent[other]))
  {
    if Admissible(req, policyMax) {
      Round(s, req, providers, replies, allowlist).Ends();
    }
  }

  /** The request is refused before any provider is looked at exactly under these conditions, and then nothing changes. */
  lemma {:induction false} RefusedBeforeAnyProvider(s: State, req: Request, providers: seq<Provider>, replies: seq<Reply>,
                                  allowlist: set<string>, policyMax: int)
    requires |replies| == |providers|
    ensures var result := Completion(s, req, providers, replies, allowlist, policyMax);
      && (req.maxCost < 1 ==> result == (s, Refused("BUDGET_INVALID")))
      && (req.maxCost >= 1 && req.maxCost > policyMax ==> result == (s, Refused("BUDGET_POLICY_LIMIT_EXCEEDED")))
      && (1 <= req.maxCost <= policyMax && req.maxCost < req.promptBytes + 64 + 16 ==>
            result == (s, Refused("BUDGET_EXCEEDED_PRECALL")))
      && (1 <= req.maxCost <= policyMax && req.maxCost >= req.promptBytes + 64 + 16 && providers == [] ==>
            result == (s, NoApprovedProvider([])))
  {
  }

  /** A provider the call may use, and a reply the gateway can answer from. */
  predicate MayServe(p: Provider, req: Request, unhealthy: set<string>, allowlist: set<string>) {
    p.name !in unhealthy && (!req.restricted || p.name in allowlist)
  }

  predicate Fits(reply: Reply, req: Request, left: int) {
    match reply
    case Output(fields, cost) => cost <= left && forall field :: field in req.schema ==> field in fields
    case _ => false
  }

  /**
   An answer comes from a provider that was healthy and allowed and whose output has the
   schema's fields at a cost within what was left; no provider before it that is still healthy
   would have done. Without an answer none at all would have, unless the budget was used up
   or a call raised.
   */
  lemma {:induction false} AnswerIsEarned(s: State, req: Request, providers: seq<Provider>, replies: seq<Reply>,
                        allowlist: set<string>, policyMax: int)
    requires |replies| == |providers| && 1 <= req.maxCost <= policyMax && req.maxCost >= req.promptBytes + 64 + 16
    ensures var (after, outcome) := Completion(s, req, providers, replies, allowlist, policyMax);
      var left := req.maxCost - (if (req.tenant, req.task) in s.spent then s.spent[(req.tenant, req.task)] else 0);
      match outcome
      case Answered(name, model, cost) =>
        left > 0 && exists k ::
          && 0 <= k < |providers|
          && providers[k] == Provider(name, model) && MayServe(providers[k], req, s.unhealthy, allowlist)
          && Fits(replies[k], req, left) && replies[k].cost == cost
          && forall j :: 0 <= j < k && MayServe(providers[j], req, after.unhealthy, allowlist) ==> !Fits(replies[j], req, left)
      case NoApprovedProvider(_) =>
        forall j :: 0 <= j < |providers| && MayServe(providers[j], req, after.unhealthy, allowlist) ==>
          left > 0 && !Fits(replies[j], req, left) && !replies[j].Exception?
      case Refused(text) =>
        text == "BUDGET_EXCEEDED" && left <= 0 && exists k :: 0 <= k < |providers| && MayServe(providers[k], req, s.unhealthy, allowlist)
      case Crashed =>
        left > 0 && exists k :: 0 <= k < |providers| && replies[k].Exception? && MayServe(providers[k], req, s.unhealthy, allowlist)
  {
    var round := Round(s, req, providers, replies, allowlist);
    round.Ends();
    if k: nat :| round.FirstEnd(k) {
      assert replies[k].Exception? || Acceptable(replies[k], req, round.Left()) || round.Left() <= 0;
      forall j: nat | j < k && MayServe(providers[j], req, round.Result().0.unhealthy, allowlist)
        ensures !Fits(replies[j], req, round.Left())
      {
        assert !round.EndsAt(j);
        round.FailedGrows(j, k);
      }
    } else {
      forall j: nat | j < |providers| && MayServe(providers[j], req, round.Result().0.unhealthy, allowlist)
        ensures round.Left() > 0 && !Fits(replies[j], req, round.Left()) && !replies[j].Exception?
      {
        assert !round.EndsAt(j);
        round.FailedGrows(j, |providers|);
      }
    }
  }

  /**
   A provider newly marked unhealthy failed in this very call, with an error that is neither
   about budget nor about the output's structure; every error reported is a provider's own, or
   that its output cost too much or lacked a field.
   */
  lemma {:induction false} FailuresAreSeen(s: State, req: Request, providers: seq<Provider>, replies: seq<Reply>,
                         allowlist: set<string>, policyMax: int, name: string)
    requires |replies| == |providers|
    ensures var (after, outcome) := Completion(s, req, providers, replies, allowlist, policyMax);
      var left := req.maxCost - (if (req.tenant, req.task) in s.spent then s.spent[(req.tenant, req.task)] else 0);
      && (name in after.unhealthy && name !in s.unhealthy ==>
            exists j :: 0 <= j < |providers| && providers[j].name == name && FailedItself(replies[j]))
      && (outcome.NoApprovedProvider? ==> forall text :: text in outcome.errors ==>
            exists j :: 0 <= j < |providers| && Explains(replies[j], req, left, text))
  {
    if Admissible(req, policyMax) {
      var round := Round(s, req, providers, replies, allowlist);
      round.Ends();
      if k: nat :| round.FirstEnd(k) {
        if name in round.FailedBefore(k) {
          round.FailedFailed(k, name);
        }
      } else {
        if name in round.FailedBefore(|providers|) {
          round.FailedFailed(|providers|, name);
        }
        round.ErrorsExplained(|providers|);
      }
    }
  }

  /** A provider's own error that is neither about budget nor about the output's structure. */
  predicate FailedItself(reply: Reply) {
    reply.Failure? && !Contains(reply.text, "BUDGET") && !Contains(reply.text, "INVALID_STRUCTURED")
  }

  /** Every allowed provider before this one that failed by itself is among the unhealthy. */
  predicate Remembered(req: Request, providers: seq<Provider>, replies: seq<Reply>, allowlist: set<string>, unhealthy: set<string>, end: nat)
    requires |replies| == |providers| && end <= |providers|
  {
    forall j :: 0 <= j < end && (!req.restricted || providers[j].name in allowlist) && FailedItself(replies[j]) ==>
      providers[j].name in unhealthy
  }

  /** The loop leaves no failure of a provider it passed unrecorded. */
  lemma {:induction false} FailuresAreRemembered(s: State, req: Request, providers: seq<Provider>, replies: seq<Reply>,
                               allowlist: set<string>, policyMax: int)
    requires |replies| == |providers| && 1 <= req.maxCost <= policyMax && req.maxCost >= req.promptBytes + 64 + 16
    ensures var (after, outcome) := Completion(s, req, providers, replies, allowlist, policyMax);
      && (outcome.NoApprovedProvider? ==> Remembered(req, providers, replies, allowlist, after.unhealthy, |providers|))
      && (outcome.Answered? ==>
            exists end: nat :: end < |providers| && providers[end] == Provider(outcome.provider, outcome.model)
              && Remembered(req, providers, replies, allowlist, after.unhealthy, end))
  {
    var round := Round(s, req, providers, replies, allowlist);
    round.Ends();
    if k: nat :| round.FirstEnd(k) {
      round.PassedAreRemembered(k);
    } else {
      round.PassedAreRemembered(|providers|);
    }
  }

  /** Why a reply is no answer, as the gateway reports it. */
  predicate Explains(reply: Reply, req: Request, left: int, text: string) {
    match reply
    case Failure(own) => text == own
    case Output(fields, cost) =>
      if cost > left then text == "BUDGET_EXCEEDED"
      else text == "INVALID_STRUCTURED_OUTPUT" && exists field :: field in req.schema && field !in fields
    case Exception => false
  }

  /** What the answered calls of one task cost, over a run of the gateway. */
  function Charged(s: State, calls: seq<Call>, providers: seq<Provider>, allowlist: set<string>, policyMax: int,
                   tenant: string, task: string): int
    requires forall c :: c in calls ==> |c.replies| == |providers|
    decreases |calls|
  {
    if calls == [] then 0
    else
      var (next, outcome) := Completion(s, calls[0].req, providers, calls[0].replies, allowlist, policyMax);
      (if outcome.Answered? && calls[0].req.tenant == tenant && calls[0].req.task == task then outcome.cost else 0)
      + Charged(next, calls[1..], providers, allowlist, policyMax, tenant, task)
  }

  /** Over any run of calls the spend of a task grows by exactly what its answered calls cost. */
  lemma {:induction false} SpendIsSumOfAnswers(s: State, calls: seq<Call>, providers: seq<Provider>, allowlist: set<string>,
                             policyMax: int, tenant: string, task: string)
    requires forall c :: c in calls ==> |c.replies| == |providers|
    ensures Spent(Runs(s, calls, providers, allowlist, policyMax), tenant, task)
         == Spent(s, tenant, task) + Charged(s, calls, providers, allowlist, policyMax, tenant, task)
    decreases |calls|
  {
    if calls != [] {
      var next := Completion(s, calls[0].req, providers, calls[0].replies, allowlist, policyMax).0;
      AnswerIsCharged(s, calls[0].req, providers, calls[0].replies, allowlist, policyMax);
      SpendIsSumOfAnswers(next, calls[1..], providers, allowlist, policyMax, tenant, task);
    }
  }

  // ------------------------------------------------------------ stateful form

  class ModelGateway {
    const providers: seq<Provider>
    const allowlist: set<string>
    const policyMax: int
    var spent: map<(string, string), int>
    var unhealthy: set<string>

    function Abstract(): State
      reads this
    {
      State(spent, unhealthy)
    }

    constructor (providers: seq<Provider>, allowlist: set<string>, policyMax: int)
      ensures this.providers == providers && this.allowlist == allowlist && this.policyMax == policyMax
      ensures Abstract() == FRESH
    {
      this.providers, this.allowlist, this.policyMax := providers, allowlist, policyMax;
      spent, unhealthy := map[], {};
    }

    method Complete(req: Request, replies: seq<Reply>) returns (outcome: Outcome)
      requires |replies| == |providers|
      modifies this
      ensures (Abstract(), outcome) == Completion(old(Abstract()), req, providers, replies, allowlist, policyMax)
    {
      if req.maxCost < 1 {
        return Refused("BUDGET_INVALID");
      }
      if req.maxCost > policyMax {
        return Refused("BUDGET_POLICY_LIMIT_EXCEEDED");
      }
      var maxOutput := req.maxCost - (req.promptBytes + PROTOCOL_OVERHEAD_UNITS);
      if maxOutput < MINIMUM_OUTPUT_UNITS {
        return Refused("BUDGET_EXCEEDED_PRECALL");
      }
      ghost var expected := Scan(Abstract(), req, providers, replies, allowlist, 0, []);
      var errors: seq<string> := [];
      for i := 0 to |providers|
        invariant spent == old(spent)
        invariant Scan(Abstract(), req, providers, replies, allowlist, i, errors) == expected
      {
        var p := providers[i];
        if p.name in unhealthy || (req.restricted && p.name !in allowlist) {
          continue;
        }
        var key := (req.tenant, req.task);
        var used := if key in spent then spent[key] else 0;
        if req.maxCost - used <= 0 {
          return Refused("BUDGET_EXCEEDED");
        }
        var failure: string;
        match replies[i] {
          case Exception => return Crashed;
          case Failure(text) => failure := text;
          case Output(fields, cost) =>
            if cost > req.maxCost - used {
              failure := "BUDGET_EXCEEDED";
            } else if !(req.schema <= fields) {
              failure := "INVALID_STRUCTURED_OUTPUT";
            } else {
              spent := spent[key := used + cost];
              unhealthy := unhealthy - {p.name};
              return Answered(p.name, p.model, cost);
            }
        }
        errors := errors + [failure];
        if !Contains(failure, "BUDGET") && !Contains(failure, "INVALID_STRUCTURED") {
          unhealthy := unhealthy + {p.name};
        }
      }
      outcome := NoApprovedProvider(errors);
    }
  }
}
