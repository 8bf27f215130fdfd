/**
 Runs of the whole chain in which a contact is made: the theorems of Chain are not about
 nothing, and no smaller bound than theirs holds.
 */
module ContactScenario {
  import opened Common
  import Crm
  import Policy
  import A = Authorization
  import C = Chain

  const MANIFEST := Crm.Manifest(map["voice" := "h"], false, None, false, None, "")

  const HISTORY: seq<Crm.Op> := [
    Crm.CreateContact("t", "c", "", "e1", ""),
    Crm.CreateCampaign("t", "v", "k", MANIFEST, "e2", ""),
    Crm.Approve("t", "v", "a", Crm.ManifestSha(MANIFEST), "e3", "")]

  /** A service call by voice at ten in the morning. */
  const BODY := Policy.Request(
    "t", "c", "v", "SERVICE", Policy.VOICE, "h", false, None, false, false, false, None, None, None,
    None, None, false, None, false, None, Some(10))

  lemma {:induction false} HistoryApproves()
    ensures var s := Crm.After(HISTORY);
      && ("t", "c") in s.contacts && s.suppressed == {} && ("t", "v") in s.campaigns
      && s.campaigns[("t", "v")].status == Crm.APPROVED && s.campaigns[("t", "v")].approvedHash.Some?
      && s.campaigns[("t", "v")].manifest == MANIFEST
  {
    var one, two := HISTORY[..1], HISTORY[..2];
    assert HISTORY[..2][..1] == one && one[..0] == [];
    assert Crm.After(one).contacts == {("t", "c")} by {
      assert Crm.After(one) == Crm.Apply(Crm.After(one[..0]), HISTORY[0]).0;
    }
    assert Crm.After(two) == Crm.Apply(Crm.After(one), HISTORY[1]).0;
    assert Crm.After(HISTORY) == Crm.Apply(Crm.After(two), HISTORY[2]).0;
  }

  lemma {:induction false} BodyIsPermitted()
    ensures C.EvidenceFor(Crm.After(HISTORY), BODY).Ok?
    ensures Policy.Permitted(Policy.Resolve(BODY, C.FromCrm(C.EvidenceFor(Crm.After(HISTORY), BODY).value)))
  {
    HistoryApproves();
    var request := Policy.Resolve(BODY, C.FromCrm(C.EvidenceFor(Crm.After(HISTORY), BODY).value));
    assert Upper("SERVICE") == "SERVICE";
    assert !Policy.Promotional(request);
  }

  function Request(): (request: Policy.Request)
    ensures C.Answered(HISTORY, request) && Policy.Permitted(request)
    ensures request.tenant == "t" && request.contact == "c" && request.versionId == "v"
    ensures request.channel == Policy.VOICE && request.contentHash == "h"
  {
    BodyIsPermitted();
    Policy.Resolve(BODY, C.FromCrm(C.EvidenceFor(Crm.After(HISTORY), BODY).value))
  }

  // --------------------------------------------------------------- run of steps

  lemma {:induction false} FirstStep(cfg: C.Config, s: C.System, a: C.Op, rest: seq<C.Op>)
    ensures C.IsRun(s, cfg, [a] + rest) <==> C.Enabled(s, a) && C.IsRun(C.Step(s, cfg, a), cfg, rest)
    ensures C.After(s, cfg, [a] + rest) == C.After(C.Step(s, cfg, a), cfg, rest)
  {
    assert ([a] + rest)[1..] == rest;
  }

  /** From `s` these operations run and end in `end`. */
  ghost predicate Leads(cfg: C.Config, s: C.System, ops: seq<C.Op>, end: C.System) {
    C.IsRun(s, cfg, ops) && C.After(s, cfg, ops) == end
  }

  /** One enabled step, then whatever leads on from there. */
  lemma {:induction false} Then(cfg: C.Config, s: C.System, a: C.Op, next: C.System, rest: seq<C.Op>, end: C.System)
    requires C.Enabled(s, a) && C.Step(s, cfg, a) == next && Leads(cfg, next, rest, end)
    ensures Leads(cfg, s, [a] + rest, end)
  {
    FirstStep(cfg, s, a, rest);
  }

  function AfterHistory(): C.System {
    C.START.(crmOps := HISTORY, crmAt := [0.0, 0.0, 0.0])
  }

  lemma {:induction false} HistoryRuns(cfg: C.Config, rest: seq<C.Op>, end: C.System) returns (ops: seq<C.Op>)
    requires Leads(cfg, AfterHistory(), rest, end)
    ensures Leads(cfg, C.START, ops, end)
  {
    var one := C.START.(crmOps := [HISTORY[0]], crmAt := [0.0]);
    var two := C.START.(crmOps := [HISTORY[0], HISTORY[1]], crmAt := [0.0, 0.0]);
    assert C.Step(two, cfg, C.DoCrm(HISTORY[2], 0.0)) == AfterHistory();
    Then(cfg, two, C.DoCrm(HISTORY[2], 0.0), AfterHistory(), rest, end);
    ops := [C.DoCrm(HISTORY[2], 0.0)] + rest;
    Then(cfg, one, C.DoCrm(HISTORY[1], 0.0), two, ops, end);
    ops := [C.DoCrm(HISTORY[1], 0.0)] + ops;
    Then(cfg, C.START, C.DoCrm(HISTORY[0], 0.0), one, ops, end);
    ops := [C.DoCrm(HISTORY[0], 0.0)] + ops;
  }

  // ------------------------------------------------------------------ schedule

  /** Evidence read at `readAt`, then `crm`; the decision falls on the whole second `second`. */
  datatype Schedule = Schedule(readAt: real, crm: Crm.Op, crmAt: real, second: nat, verifiedAt: real)

  /** The token is issued when the decision is as old as allowed, for the longest time, and verified within it. */
  ghost predicate Sensible(cfg: C.Config, p: Schedule) {
    && cfg.contextTtl > 0.0 && cfg.maxContexts >= 1 && cfg.maxDecisionAge >= 0
    && 0.0 <= p.readAt <= p.crmAt <= p.second as real
    && Expiry(cfg, p) - 1 <= p.verifiedAt.Floor < Expiry(cfg, p)
  }

  function Expiry(cfg: C.Config, p: Schedule): int {
    p.second + cfg.maxDecisionAge + A.MAX_TTL
  }

  function Basis(p: Schedule): C.Reading {
    C.Reading(Request(), 3, p.readAt)
  }

  function Decided(p: Schedule): C.Record {
    C.Record(A.Decision("d", Policy.ALLOW, p.second as real), Basis(p))
  }

  function Context(cfg: C.Config, p: Schedule): A.Entry {
    A.Entry(Decided(p).decision, Request(), p.second as real + cfg.contextTtl)
  }

  function Minted(cfg: C.Config, p: Schedule): A.Claims {
    A.Claims("j", cfg.issuer, A.AdapterFor(Policy.VOICE), "t", "c", "v", "d", Policy.VOICE, Request().purpose, "h",
             p.second + cfg.maxDecisionAge, Expiry(cfg, p))
  }

  function Contact(cfg: C.Config, p: Schedule): C.Dispatch {
    C.Dispatch("i", Policy.VOICE, Minted(cfg, p), p.verifiedAt, p.verifiedAt)
  }

  /** After the reading and the CRM operation. */
  function Waiting(p: Schedule): C.System {
    AfterHistory().(clock := p.crmAt, crmOps := HISTORY + [p.crm], crmAt := [0.0, 0.0, 0.0, p.crmAt],
                    reading := map[0 := Basis(p)])
  }

  function Unstored(p: Schedule): C.System {
    Waiting(p).(clock := p.second as real, reading := map[], decided := map["d" := Decided(p)], unstored := {"d"})
  }

  function Stored(cfg: C.Config, p: Schedule): C.System {
    Unstored(p).(unstored := {}, contexts := [Context(cfg, p)])
  }

  function Taken(cfg: C.Config, p: Schedule): C.System {
    Stored(cfg, p).(contexts := [], taken := map[0 := Context(cfg, p)])
  }

  function Issued(cfg: C.Config, p: Schedule): C.System {
    Taken(cfg, p).(clock := (p.second + cfg.maxDecisionAge) as real, taken := map[], minted := {Minted(cfg, p)},
                   rows := if cfg.durable then map["j" := A.Row("t", "d", Expiry(cfg, p), false)] else map[])
  }

  function Verified(cfg: C.Config, p: Schedule): C.System {
    Issued(cfg, p).(clock := p.verifiedAt, checked := map[0 := C.Checked("i", Policy.VOICE, Minted(cfg, p), p.verifiedAt)])
  }

  function Sent(cfg: C.Config, p: Schedule): C.System {
    Verified(cfg, p).(
      checked := map[], sent := [Contact(cfg, p)],
      rows := if cfg.durable then map["j" := A.Row("t", "d", Expiry(cfg, p), true)] else map[],
      seen := if cfg.durable then map[] else map["i" := {"j"}])
  }

  lemma {:induction false} Reads(cfg: C.Config, p: Schedule)
    requires 0.0 <= p.readAt <= p.crmAt
    ensures var read := AfterHistory().(clock := p.readAt, reading := map[0 := Basis(p)]);
      && C.Step(AfterHistory(), cfg, C.DoRead(0, BODY, p.readAt)) == read
      && C.Step(read, cfg, C.DoCrm(p.crm, p.crmAt)) == Waiting(p)
  {
    BodyIsPermitted();
    assert C.START.reading[0 := Basis(p)] == map[0 := Basis(p)];
    assert [0.0, 0.0, 0.0] + [p.crmAt] == [0.0, 0.0, 0.0, p.crmAt];
  }

  lemma {:induction false} Decides(cfg: C.Config, p: Schedule)
    ensures C.Step(Waiting(p), cfg, C.DoDecide(0, "d", p.second as real)) == Unstored(p)
  {
    assert Waiting(p).reading - {0} == map[];
  }

  lemma {:induction false} PutAlone(entry: A.Entry, now: real, max: nat)
    requires max >= 1
    ensures A.Put([], entry, now, max) == [entry]
  {
    var none: seq<A.Entry> := [];
    assert A.Prune(none, now) == none && A.Without(none, entry.decision.id) == none && none + [entry] == [entry];
  }

  lemma {:induction false} Stores(cfg: C.Config, p: Schedule)
    requires cfg.maxContexts >= 1
    ensures C.Step(Unstored(p), cfg, C.DoStore("d", p.second as real, p.second as real)) == Stored(cfg, p)
  {
    PutAlone(Context(cfg, p), p.second as real, cfg.maxContexts);
    assert Unstored(p).unstored - {"d"} == {};
  }

  lemma {:induction false} Takes(cfg: C.Config, p: Schedule)
    requires cfg.contextTtl > 0.0
    ensures C.Step(Stored(cfg, p), cfg, C.DoTake(0, "d", "t", p.second as real, p.second as real)) == Taken(cfg, p)
  {
    var all := [Context(cfg, p)];
    assert A.Find(all, "d") == Some(Context(cfg, p));
    assert A.Without(all, "d") == [] by {
      assert A.Without(all[1..], "d") == [];
    }
  }

  lemma {:induction false} Issues(cfg: C.Config, p: Schedule)
    requires cfg.maxDecisionAge >= 0
    ensures C.Step(Taken(cfg, p), cfg, C.DoIssue(0, A.AdapterFor(Policy.VOICE), A.MAX_TTL, "j",
                                                 (p.second + cfg.maxDecisionAge) as real)) == Issued(cfg, p)
  {
    assert (p.second as real).Floor == p.second;
    assert ((p.second + cfg.maxDecisionAge) as real).Floor == p.second + cfg.maxDecisionAge;
    assert Taken(cfg, p).taken - {0} == map[];
  }

  lemma {:induction false} Verifies(cfg: C.Config, p: Schedule)
    requires Sensible(cfg, p)
    ensures C.Step(Issued(cfg, p), cfg, C.DoVerify(0, "i", Policy.VOICE, A.Signed(Minted(cfg, p)), A.Command("t", "c", "v", "h"),
                                                   p.verifiedAt)) == Verified(cfg, p)
  {
  }

  lemma {:induction false} Consumes(cfg: C.Config, p: Schedule)
    requires Sensible(cfg, p)
    ensures C.Step(Verified(cfg, p), cfg, C.DoConsume(0, p.verifiedAt)) == Sent(cfg, p)
  {
    C.FloorBelow(p.verifiedAt, Expiry(cfg, p));
    C.ConsumeWrites(Verified(cfg, p), cfg, 0, p.verifiedAt);
    assert Verified(cfg, p).checked - {0} == map[];
    if cfg.durable {
      assert Verified(cfg, p).rows["j"] == A.Row("t", "d", Expiry(cfg, p), false);
    } else {
      assert {} + {"j"} == {"j"};
    }
  }

  lemma {:induction false} TokenIsUsed(cfg: C.Config, p: Schedule) returns (ops: seq<C.Op>)
    requires Sensible(cfg, p)
    ensures Leads(cfg, Taken(cfg, p), ops, Sent(cfg, p))
  {
    var issueAt := (p.second + cfg.maxDecisionAge) as real;
    Issues(cfg, p);
    Verifies(cfg, p);
    Consumes(cfg, p);
    var issue := C.DoIssue(0, A.AdapterFor(Policy.VOICE), A.MAX_TTL, "j", issueAt);
    var verify := C.DoVerify(0, "i", Policy.VOICE, A.Signed(Minted(cfg, p)), A.Command("t", "c", "v", "h"), p.verifiedAt);
    var consume := C.DoConsume(0, p.verifiedAt);
    Then(cfg, Verified(cfg, p), consume, Sent(cfg, p), [], Sent(cfg, p));
    Then(cfg, Issued(cfg, p), verify, Verified(cfg, p), [consume] + [], Sent(cfg, p));
    Then(cfg, Taken(cfg, p), issue, Issued(cfg, p), [verify] + ([consume] + []), Sent(cfg, p));
    ops := [issue] + ([verify] + ([consume] + []));
  }

  lemma {:induction false} DecisionIsTaken(cfg: C.Config, p: Schedule, rest: seq<C.Op>, end: C.System) returns (ops: seq<C.Op>)
    requires Sensible(cfg, p) && Leads(cfg, Taken(cfg, p), rest, end)
    ensures Leads(cfg, Waiting(p), ops, end)
  {
    var decide, store := C.DoDecide(0, "d", p.second as real), C.DoStore("d", p.second as real, p.second as real);
    var take := C.DoTake(0, "d", "t", p.second as real, p.second as real);
    Decides(cfg, p);
    Stores(cfg, p);
    Takes(cfg, p);
    Then(cfg, Stored(cfg, p), take, Taken(cfg, p), rest, end);
    Then(cfg, Unstored(p), store, Stored(cfg, p), [take] + rest, end);
    Then(cfg, Waiting(p), decide, Unstored(p), [store] + ([take] + rest), end);
    ops := [decide] + ([store] + ([take] + rest));
  }

  /** Every such schedule is a run that ends with the contact made. */
  lemma {:induction false} ScheduleRuns(cfg: C.Config, p: Schedule) returns (ops: seq<C.Op>)
    requires Sensible(cfg, p)
    ensures Leads(cfg, C.START, ops, Sent(cfg, p))
  {
    var read := AfterHistory().(clock := p.readAt, reading := map[0 := Basis(p)]);
    ops := TokenIsUsed(cfg, p);
    ops := DecisionIsTaken(cfg, p, ops, Sent(cfg, p));
    Reads(cfg, p);
    Then(cfg, read, C.DoCrm(p.crm, p.crmAt), Waiting(p), ops, Sent(cfg, p));
    ops := [C.DoCrm(p.crm, p.crmAt)] + ops;
    Then(cfg, AfterHistory(), C.DoRead(0, BODY, p.readAt), read, ops, Sent(cfg, p));
    ops := HistoryRuns(cfg, [C.DoRead(0, BODY, p.readAt)] + ops, Sent(cfg, p));
  }

  // -------------------------------------------------------------- main results

  /**
   `crm` lands `after` seconds behind the reading of the dispatch's evidence, the decision
   `gap` seconds behind it, and the dispatch `margin` short of the bound of the chain.
   */
  ghost predicate SentLate(s: C.System, cfg: C.Config, crm: Crm.Op, after: real, gap: real, margin: real) {
    && |s.sent| == 1 && |s.crmOps| == |s.crmAt| == 4 && s.crmOps[3] == crm
    && var d := s.sent[0];
       && d.claims.decisionId in s.decided
       && d.claims.tenant == "t" && d.claims.contact == "c" && d.claims.versionId == "v"
       && s.crmAt[3] == C.BasisOf(s, d).at + after && C.Gap(s, d) == gap
       && d.verifiedAt == d.at == s.crmAt[3] - after + gap + C.Delay(cfg) - margin
  }

  /**
   The bounds of SuppressionTakesEffect and AmendmentTakesEffect cannot be lowered: for every
   sensible configuration, every gap between reading and deciding, and every CRM operation at
   any moment of that gap, there is a run that contacts the person as little short of
   the bound as one likes.
   */
  lemma {:induction false} BoundIsReached(cfg: C.Config, crm: Crm.Op, after: real, gap: real, margin: real)
    requires cfg.contextTtl > 0.0 && cfg.maxContexts >= 1 && cfg.maxDecisionAge >= 0
    requires 0.0 <= after <= gap && 0.0 < margin <= 1.0
    ensures exists ops :: C.IsRun(C.START, cfg, ops) && SentLate(C.After(C.START, cfg, ops), cfg, crm, after, gap, margin)
  {
    var second := gap.Floor + 1;
    var readAt := second as real - gap;
    var expiry := second + cfg.maxDecisionAge + A.MAX_TTL;
    var p := Schedule(readAt, crm, readAt + after, second, expiry as real - margin);
    assert (expiry as real - margin).Floor == expiry - 1;
    var ops := ScheduleRuns(cfg, p);
    assert SentLate(Sent(cfg, p), cfg, crm, after, gap, margin);
  }

  /** CRM step 3 is the last one, `crm`, and the dispatch to its contact came later than the authorization delay allows. */
  ghost predicate TooLate(s: C.System, cfg: C.Config, crm: Crm.Op) {
    && |s.sent| == 1 && |s.crmOps| == |s.crmAt| == 4 && s.crmOps[3] == crm
    && s.sent[0].verifiedAt >= s.crmAt[3] + C.Delay(cfg)
    && (crm.Suppress? && crm.tenant == "t" && crm.contact == "c" ==> C.Suppresses(s, 3, s.sent[0]))
    && (Crm.Rewrites(crm, "t", "v") ==> C.Rewrote(s, 3, s.sent[0]) && !C.ApprovedSince(s, 3, s.sent[0]))
  }

  /**
   In particular the authorization delay alone is no bound: wherever in the gap a suppression
   or an amendment lands before the decision, a contact can follow later than that.
   */
  lemma {:induction false} DelayAloneIsNoBound(cfg: C.Config, crm: Crm.Op, after: real, gap: real)
    requires cfg.contextTtl > 0.0 && cfg.maxContexts >= 1 && cfg.maxDecisionAge >= 0 && 0.0 <= after < gap
    ensures exists ops :: C.IsRun(C.START, cfg, ops) && TooLate(C.After(C.START, cfg, ops), cfg, crm)
  {
    var margin := if gap - after <= 1.0 then gap - after else 1.0;
    BoundIsReached(cfg, crm, after, gap, margin);
    var ops :| C.IsRun(C.START, cfg, ops) && SentLate(C.After(C.START, cfg, ops), cfg, crm, after, gap, margin);
    assert TooLate(C.After(C.START, cfg, ops), cfg, crm);
  }

  /** For every sensible configuration there is a run in which a contact is made. */
  lemma {:induction false} ContactCanBeMade(cfg: C.Config)
    requires cfg.contextTtl > 0.0 && cfg.maxContexts >= 1 && cfg.maxDecisionAge >= 0
    ensures exists ops :: C.IsRun(C.START, cfg, ops) && |C.After(C.START, cfg, ops).sent| == 1
  {
    BoundIsReached(cfg, HISTORY[0], 0.0, 0.0, 1.0);
    var ops :| C.IsRun(C.START, cfg, ops) && SentLate(C.After(C.START, cfg, ops), cfg, HISTORY[0], 0.0, 0.0, 1.0);
  }
}
