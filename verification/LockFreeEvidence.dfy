/**
 `contactability_evidence` of the in-memory CRM (services/crm_api/app/domain.py) reads one
 dictionary after the other and takes no lock, so operations of other threads can land
 between any two of its reads.

 Status and approved hash count as one read: the answer needs both, a row has both or
 neither, and so it is the answer of one of the two moments.
 */
module LockFreeEvidence {
  import opened Common
  import opened Crm

  /** After how many operations each part is read: row and contact, consent, content hashes, registry part, suppression, approval. */
  datatype Reads = Reads(row: nat, consent: nat, content: nat, registry: nat, suppression: nat, approval: nat)

  predicate InOrder(ops: seq<Op>, r: Reads) {
    r.row <= r.consent <= r.content <= r.registry <= r.suppression <= r.approval <= |ops|
  }

  /** How long the row looked up after `row` operations is the one the store still changes; a new row replaces it. */
  function HeldUntil(ops: seq<Op>, row: nat, q: Question): (until: nat)
    requires row <= |ops|
    ensures row <= until <= |ops|
    decreases |ops| - row
  {
    if row == |ops| || (ops[row].CreateCampaign? && Rewrites(ops[row], q.tenant, q.versionId)) then row
    else HeldUntil(ops, row + 1, q)
  }

  /** The store in which the row looked up after `row` operations is as it is after `n`. */
  function Held(ops: seq<Op>, row: nat, n: nat, q: Question): Store
    requires row <= n <= |ops|
  {
    var until := HeldUntil(ops, row, q);
    After(ops[..if n < until then n else until])
  }

  function TornEvidence(ops: seq<Op>, r: Reads, q: Question): Result<Evidence, Error>
    requires InOrder(ops, r)
  {
    if q.tenant == "" then Err(TenantRequired)
    else if (q.tenant, q.contact) !in After(ops[..r.row]).contacts then Err(ContactNotFound)
    else
      var registry := Answer(Held(ops, r.row, r.registry, q), q);
      Ok(registry.(suppressed := Answer(After(ops[..r.suppression]), q).suppressed,
                   consentActive := Answer(After(ops[..r.consent]), q).consentActive,
                   campaignApproved := Answer(Held(ops, r.row, r.approval, q), q).campaignApproved,
                   approvedContentHash := Answer(Held(ops, r.row, r.content, q), q).approvedContentHash))
  }

  /**
   Which moment each part of the answer is from. The row is looked up first; a version created
   anew later is not seen, and consent and suppression are read from the store itself.
   */
  lemma {:induction false} PartsAreOfTheirReads(ops: seq<Op>, r: Reads, q: Question)
    requires InOrder(ops, r) && q.tenant != ""
    ensures (q.tenant, q.contact) !in After(ops[..r.row]).contacts ==> TornEvidence(ops, r, q) == Err(ContactNotFound)
    ensures (q.tenant, q.contact) in After(ops[..r.row]).contacts ==>
      var (torn, key) := (TornEvidence(ops, r, q), (q.tenant, q.versionId));
      && torn.Ok?
      && (torn.value.consentActive <==> (q.tenant, q.contact, q.channel) in After(ops[..r.consent]).consents)
      && (torn.value.suppressed <==> (q.tenant, q.contact) in After(ops[..r.suppression]).suppressed)
      && var (content, registry, approval) := (Held(ops, r.row, r.content, q), Held(ops, r.row, r.registry, q), Held(ops, r.row, r.approval, q));
      && (torn.value.campaignApproved ==> key in approval.campaigns && approval.campaigns[key].status == APPROVED)
      && (torn.value.approvedContentHash.Some? ==>
            && key in content.campaigns && q.channelKey in content.campaigns[key].manifest.contentHashes
            && torn.value.approvedContentHash.value == content.campaigns[key].manifest.contentHashes[q.channelKey])
      && (torn.value.repepEnabled ==> key in registry.campaigns && registry.campaigns[key].manifest.repepEnabled)
      && (torn.value.exemptionApproved ==> key in registry.campaigns && registry.campaigns[key].manifest.exemptionApproved)
      && !torn.value.repepSnapshotValid && torn.value.repepListed == None
  {
  }

  function At(ops: seq<Op>, n: nat, q: Question): Evidence
    requires n <= |ops|
  {
    Answer(After(ops[..n]), q)
  }

  /** Consent aside, this is what the store would have answered at once at some moment from `lo` to `hi`. */
  ghost predicate OneMoment(ops: seq<Op>, lo: nat, hi: nat, q: Question, e: Evidence)
    requires lo <= hi <= |ops|
  {
    exists m :: lo <= m <= hi && At(ops, m, q).(consentActive := e.consentActive) == e
  }

  // ------------------------------------------------------------- what lasts

  predicate NoRewrite(ops: seq<Op>, lo: nat, hi: nat, q: Question)
    requires lo <= hi <= |ops|
  {
    forall i :: lo <= i < hi ==> !Rewrites(ops[i], q.tenant, q.versionId)
  }

  /** The parts of an answer that come from the manifest. */
  function Visible(e: Evidence): Evidence {
    e.(suppressed := false, consentActive := false, campaignApproved := false)
  }

  lemma {:induction false} SuppressionLasts(s: Store, op: Op, q: Question)
    ensures Answer(s, q).suppressed ==> Answer(Apply(s, op).0, q).suppressed
  {
  }

  lemma {:induction false} RowLasts(s: Store, op: Op, q: Question)
    requires !Rewrites(op, q.tenant, q.versionId)
    ensures var key, after := (q.tenant, q.versionId), Apply(s, op).0;
      && (key in after.campaigns <==> key in s.campaigns)
      && (key in s.campaigns ==>
            && after.campaigns[key].manifest == s.campaigns[key].manifest
            && (after.campaigns[key] == s.campaigns[key]
                || (after.campaigns[key].status == APPROVED && after.campaigns[key].approvedHash.Some?)))
  {
  }

  lemma {:induction false} ManifestLasts(s: Store, op: Op, q: Question)
    requires !Rewrites(op, q.tenant, q.versionId)
    ensures var before, after := Answer(s, q), Answer(Apply(s, op).0, q);
      Visible(after) == Visible(before) && (before.campaignApproved ==> after.campaignApproved)
  {
    RowLasts(s, op, q);
  }

  lemma {:induction false} OneMore(ops: seq<Op>, n: nat)
    requires n < |ops|
    ensures After(ops[..n + 1]) == Apply(After(ops[..n]), ops[n]).0
  {
    assert ops[..n + 1][..n] == ops[..n];
  }

  /** A suppression stays; without a new manifest so do an approval and what the manifest says. */
  lemma {:induction false} Lasts(ops: seq<Op>, lo: nat, hi: nat, q: Question)
    requires lo <= hi <= |ops|
    ensures At(ops, lo, q).suppressed ==> At(ops, hi, q).suppressed
    ensures NoRewrite(ops, lo, hi, q) ==> Visible(At(ops, hi, q)) == Visible(At(ops, lo, q))
    ensures NoRewrite(ops, lo, hi, q) && At(ops, lo, q).campaignApproved ==> At(ops, hi, q).campaignApproved
    decreases hi - lo
  {
    if lo < hi {
      Lasts(ops, lo, hi - 1, q);
      OneMore(ops, hi - 1);
      SuppressionLasts(After(ops[..hi - 1]), ops[hi - 1], q);
      if NoRewrite(ops, lo, hi, q) {
        ManifestLasts(After(ops[..hi - 1]), ops[hi - 1], q);
      }
    }
  }

  /** Operation `k` is the first to suppress the contact, when the version is not approved. */
  predicate SuppressedUnapproved(ops: seq<Op>, k: nat, q: Question)
    requires k < |ops|
  {
    !At(ops, k, q).suppressed && At(ops, k + 1, q).suppressed && !At(ops, k, q).campaignApproved
  }

  /** Operation `k` approves the version, when the contact is not suppressed. */
  predicate ApprovedUnsuppressed(ops: seq<Op>, k: nat, q: Question)
    requires k < |ops|
  {
    !At(ops, k, q).campaignApproved && At(ops, k + 1, q).campaignApproved && !At(ops, k, q).suppressed
  }

  lemma {:induction false} FirstSuppression(ops: seq<Op>, lo: nat, hi: nat, q: Question) returns (k: nat)
    requires lo <= hi <= |ops| && !At(ops, lo, q).suppressed && At(ops, hi, q).suppressed
    ensures lo <= k < hi && !At(ops, k, q).suppressed && At(ops, k + 1, q).suppressed
    decreases hi - lo
  {
    if At(ops, hi - 1, q).suppressed {
      k := FirstSuppression(ops, lo, hi - 1, q);
    } else {
      k := hi - 1;
    }
  }

  lemma {:induction false} FirstApproval(ops: seq<Op>, lo: nat, hi: nat, q: Question) returns (k: nat)
    requires lo <= hi <= |ops| && !At(ops, lo, q).campaignApproved && At(ops, hi, q).campaignApproved
    ensures lo <= k < hi && !At(ops, k, q).campaignApproved && At(ops, k + 1, q).campaignApproved
    decreases hi - lo
  {
    if At(ops, hi - 1, q).campaignApproved {
      k := FirstApproval(ops, lo, hi - 1, q);
    } else {
      k := hi - 1;
    }
  }

  // -------------------------------------------------------------- stretches

  /** A longest part of `lo` to `hi` without a new manifest. */
  predicate Stretch(ops: seq<Op>, lo: nat, l: nat, h: nat, hi: nat, q: Question) {
    && lo <= l <= h <= hi <= |ops| && NoRewrite(ops, l, h, q)
    && (l == lo || Rewrites(ops[l - 1], q.tenant, q.versionId))
    && (h == hi || Rewrites(ops[h], q.tenant, q.versionId))
  }

  /**
   Suppression and approval, seen from the two ends of a stretch: each answer must still or
   already hold at an end, and a suppression must not precede the approval it is paired
   without, nor an approval the suppression.
   */
  ghost predicate Meets(ops: seq<Op>, l: nat, h: nat, q: Question, suppressed: bool, approved: bool)
    requires l <= h <= |ops|
  {
    && (if suppressed then At(ops, h, q).suppressed else !At(ops, l, q).suppressed)
    && (if approved then At(ops, h, q).campaignApproved else !At(ops, l, q).campaignApproved)
    && (!suppressed && approved ==> !exists k :: l <= k < h && SuppressedUnapproved(ops, k, q))
    && (suppressed && !approved ==> !exists k :: l <= k < h && ApprovedUnsuppressed(ops, k, q))
  }

  /** In a stretch that meets them, some moment shows both. */
  lemma {:induction false} MeetsSomewhere(ops: seq<Op>, l: nat, h: nat, q: Question, suppressed: bool, approved: bool) returns (m: nat)
    requires l <= h <= |ops| && NoRewrite(ops, l, h, q) && Meets(ops, l, h, q, suppressed, approved)
    ensures l <= m <= h && At(ops, m, q).suppressed == suppressed && At(ops, m, q).campaignApproved == approved
  {
    if !suppressed && !approved {
      m := l;
    } else if At(ops, h, q).suppressed == suppressed && At(ops, h, q).campaignApproved == approved {
      m := h;
    } else if !suppressed {
      m := FirstSuppression(ops, l, h, q);
      assert !SuppressedUnapproved(ops, m, q);
    } else {
      m := FirstApproval(ops, l, h, q);
      assert !ApprovedUnsuppressed(ops, m, q);
    }
  }

  lemma {:induction false} ShownIsMet(ops: seq<Op>, l: nat, h: nat, q: Question, m: nat)
    requires l <= m <= h <= |ops| && NoRewrite(ops, l, h, q)
    ensures Meets(ops, l, h, q, At(ops, m, q).suppressed, At(ops, m, q).campaignApproved)
    ensures Visible(At(ops, l, q)) == Visible(At(ops, m, q))
  {
    Lasts(ops, l, m, q);
    Lasts(ops, m, h, q);
    forall k | l <= k < h
      ensures !At(ops, m, q).suppressed && At(ops, m, q).campaignApproved ==> !SuppressedUnapproved(ops, k, q)
      ensures At(ops, m, q).suppressed && !At(ops, m, q).campaignApproved ==> !ApprovedUnsuppressed(ops, k, q)
    {
      if m <= k {
        Lasts(ops, m, k, q);
      } else {
        Lasts(ops, k + 1, m, q);
      }
    }
  }

  lemma {:induction false} StretchAround(ops: seq<Op>, lo: nat, hi: nat, q: Question, l: nat, h: nat) returns (l': nat, h': nat)
    requires lo <= l <= h <= hi <= |ops| && NoRewrite(ops, l, h, q)
    ensures l' <= l && h <= h' && Stretch(ops, lo, l', h', hi, q)
    decreases (l - lo) + (hi - h)
  {
    if l > lo && !Rewrites(ops[l - 1], q.tenant, q.versionId) {
      l', h' := StretchAround(ops, lo, hi, q, l - 1, h);
    } else if h < hi && !Rewrites(ops[h], q.tenant, q.versionId) {
      l', h' := StretchAround(ops, lo, hi, q, l, h + 1);
    } else {
      l', h' := l, h;
    }
  }

  /** The manifest of a stretch shows in the answer, and its suppressions and approvals allow the rest. */
  ghost predicate Fits(ops: seq<Op>, lo: nat, l: nat, h: nat, hi: nat, q: Question, e: Evidence) {
    && Stretch(ops, lo, l, h, hi, q) && Visible(At(ops, l, q)) == Visible(e)
    && Meets(ops, l, h, q, e.suppressed, e.campaignApproved)
  }

  // -------------------------------------------------------------- main results

  lemma {:induction false} MomentFits(ops: seq<Op>, lo: nat, hi: nat, q: Question, e: Evidence, m: nat)
    requires lo <= m <= hi <= |ops| && At(ops, m, q).(consentActive := e.consentActive) == e
    ensures exists l, h :: Fits(ops, lo, l, h, hi, q, e)
  {
    var l, h := StretchAround(ops, lo, hi, q, m, m);
    ShownIsMet(ops, l, h, q, m);
    assert Fits(ops, lo, l, h, hi, q, e);
  }

  lemma {:induction false} FitIsMoment(ops: seq<Op>, lo: nat, l: nat, h: nat, hi: nat, q: Question, e: Evidence)
    requires lo <= hi <= |ops| && Fits(ops, lo, l, h, hi, q, e)
    ensures OneMoment(ops, lo, hi, q, e)
  {
    var m := MeetsSomewhere(ops, l, h, q, e.suppressed, e.campaignApproved);
    assert NoRewrite(ops, l, m, q);
    Lasts(ops, l, m, q);
    assert At(ops, m, q).(consentActive := e.consentActive) == e;
  }

  /**
   Exactly when some stretch between two manifests fits it, an answer is one the store
   could have given at once. This holds of any answer, and so of the lock-free one.
   */
  lemma {:induction false} OneMomentExactly(ops: seq<Op>, lo: nat, hi: nat, q: Question, e: Evidence)
    requires lo <= hi <= |ops|
    ensures OneMoment(ops, lo, hi, q, e) <==> exists l, h :: Fits(ops, lo, l, h, hi, q, e)
  {
    if OneMoment(ops, lo, hi, q, e) {
      var m :| lo <= m <= hi && At(ops, m, q).(consentActive := e.consentActive) == e;
      MomentFits(ops, lo, hi, q, e, m);
    } else {
      forall l, h
        ensures !Fits(ops, lo, l, h, hi, q, e)
      {
        if Fits(ops, lo, l, h, hi, q, e) {
          FitIsMoment(ops, lo, l, h, hi, q, e);
        }
      }
    }
  }

  lemma {:induction false} HeldToTheEnd(ops: seq<Op>, row: nat, n: nat, q: Question)
    requires row <= n <= |ops| && NoRewrite(ops, row, n, q)
    ensures HeldUntil(ops, row, q) >= n
    decreases n - row
  {
    if row < n {
      assert !Rewrites(ops[row], q.tenant, q.versionId);
      HeldToTheEnd(ops, row + 1, n, q);
    }
  }

  /** Without a new manifest during the read, only suppression and approval can be of different moments. */
  lemma {:induction false} TornParts(ops: seq<Op>, r: Reads, q: Question)
    requires InOrder(ops, r) && NoRewrite(ops, r.row, r.approval, q) && TornEvidence(ops, r, q).Ok?
    ensures var torn := TornEvidence(ops, r, q).value;
      && Visible(torn) == Visible(At(ops, r.row, q)) == Visible(At(ops, r.approval, q))
      && torn.suppressed == At(ops, r.suppression, q).suppressed
      && torn.campaignApproved == At(ops, r.approval, q).campaignApproved
  {
    HeldToTheEnd(ops, r.row, r.approval, q);
    Lasts(ops, r.row, r.content, q);
    Lasts(ops, r.row, r.registry, q);
    Lasts(ops, r.row, r.approval, q);
  }

  /** Between the last two reads the contact is suppressed with the version not approved, and then the version is approved. */
  ghost predicate SuppressedThenApproved(ops: seq<Op>, r: Reads, q: Question)
    requires InOrder(ops, r)
  {
    && (exists k :: r.suppression <= k < r.approval && SuppressedUnapproved(ops, k, q))
    && At(ops, r.approval, q).campaignApproved
  }

  /**
   Without a new manifest during the read, the lock-free evidence is, consent aside, that of
   one moment of the read exactly when it is not the case that between its last two reads
   the contact is suppressed first and the version approved after that.
   */
  lemma {:induction false} TornReadIsOfOneMomentExactly(ops: seq<Op>, r: Reads, q: Question)
    requires InOrder(ops, r) && NoRewrite(ops, r.row, r.approval, q) && TornEvidence(ops, r, q).Ok?
    ensures OneMoment(ops, r.row, r.approval, q, TornEvidence(ops, r, q).value) <==> !SuppressedThenApproved(ops, r, q)
  {
    var torn := TornEvidence(ops, r, q).value;
    TornParts(ops, r, q);
    OneMomentExactly(ops, r.row, r.approval, q, torn);
    if SuppressedThenApproved(ops, r, q) {
      OutOfOrderIsNoMoment(ops, r, q);
    } else {
      assert Stretch(ops, r.row, r.row, r.approval, r.approval, q);
      Lasts(ops, r.row, r.suppression, q);
      Lasts(ops, r.suppression, r.approval, q);
      SuppressedInTime(ops, r, q);
      assert Fits(ops, r.row, r.row, r.approval, r.approval, q, torn);
    }
  }

  lemma {:induction false} OutOfOrderIsNoMoment(ops: seq<Op>, r: Reads, q: Question)
    requires InOrder(ops, r) && NoRewrite(ops, r.row, r.approval, q) && TornEvidence(ops, r, q).Ok?
    requires SuppressedThenApproved(ops, r, q)
    ensures !exists l, h :: Fits(ops, r.row, l, h, r.approval, q, TornEvidence(ops, r, q).value)
  {
    var k :| r.suppression <= k < r.approval && SuppressedUnapproved(ops, k, q);
    TornParts(ops, r, q);
    Lasts(ops, r.suppression, k, q);
    forall l, h
      ensures !Fits(ops, r.row, l, h, r.approval, q, TornEvidence(ops, r, q).value)
    {
      assert Stretch(ops, r.row, l, h, r.approval, q) ==> l == r.row && h == r.approval;
    }
  }

  lemma {:induction false} SuppressedInTime(ops: seq<Op>, r: Reads, q: Question)
    requires InOrder(ops, r) && NoRewrite(ops, r.row, r.approval, q) && !SuppressedThenApproved(ops, r, q)
    ensures !At(ops, r.suppression, q).suppressed && At(ops, r.approval, q).campaignApproved ==>
      !exists k :: r.row <= k < r.approval && SuppressedUnapproved(ops, k, q)
  {
    forall k | r.row <= k < r.approval && !At(ops, r.suppression, q).suppressed && At(ops, r.approval, q).campaignApproved
      ensures !SuppressedUnapproved(ops, k, q)
    {
      if k < r.suppression {
        Lasts(ops, k + 1, r.suppression, q);
      }
    }
  }

  /** Whenever they come in that order, the answer is clean: not suppressed, and approved. */
  lemma {:induction false} OutOfOrderReadsAsClean(ops: seq<Op>, r: Reads, q: Question)
    requires InOrder(ops, r) && NoRewrite(ops, r.row, r.approval, q) && TornEvidence(ops, r, q).Ok?
    requires SuppressedThenApproved(ops, r, q)
    ensures var torn := TornEvidence(ops, r, q).value;
      !torn.suppressed && torn.campaignApproved && !OneMoment(ops, r.row, r.approval, q, torn)
  {
    var k :| r.suppression <= k < r.approval && SuppressedUnapproved(ops, k, q);
    TornParts(ops, r, q);
    Lasts(ops, r.suppression, k, q);
    TornReadIsOfOneMomentExactly(ops, r, q);
  }

  // -------------------------------------------------------------- witnesses

  lemma {:induction false} FourSteps(ops: seq<Op>)
    requires |ops| == 4
    ensures After(ops[..0]) == EMPTY_STORE
    ensures After(ops[..1]) == Apply(EMPTY_STORE, ops[0]).0 && After(ops[..2]) == Apply(After(ops[..1]), ops[1]).0
    ensures After(ops[..3]) == Apply(After(ops[..2]), ops[2]).0 && After(ops[..4]) == Apply(After(ops[..3]), ops[3]).0
  {
    assert ops[..0] == [];
    OneMore(ops, 0);
    OneMore(ops, 1);
    OneMore(ops, 2);
    OneMore(ops, 3);
  }

  /** A contact and a campaign version, then the contact's suppression and the version's approval. */
  function SuppressApprove(q: Question, manifest: Manifest): seq<Op> {
    [CreateContact(q.tenant, q.contact, "", "e1", ""), CreateCampaign(q.tenant, q.versionId, "k", manifest, "e2", ""),
     Suppress(q.tenant, q.contact, "r", "e3", ""), Approve(q.tenant, q.versionId, "a", ManifestSha(manifest), "e4", "")]
  }

  lemma {:induction false} SuppressApproveShows(q: Question, manifest: Manifest)
    requires q.tenant != ""
    ensures var ops := SuppressApprove(q, manifest);
      && (q.tenant, q.contact) in After(ops[..2]).contacts && NoRewrite(ops, 2, 4, q)
      && !At(ops, 0, q).campaignApproved && !At(ops, 1, q).campaignApproved && !At(ops, 2, q).campaignApproved
      && !At(ops, 2, q).suppressed && At(ops, 3, q).suppressed && !At(ops, 3, q).campaignApproved
  {
    FourSteps(SuppressApprove(q, manifest));
  }

  lemma {:induction false} SuppressApproveEnds(q: Question, manifest: Manifest)
    requires q.tenant != ""
    ensures var e := At(SuppressApprove(q, manifest), 4, q); e.suppressed && e.campaignApproved
  {
    FourSteps(SuppressApprove(q, manifest));
  }

  /** Suppressed after the suppression was read and approved before the approval is: the answer is clean, and no moment was. */
  lemma {:induction false} SuppressedContactReadAsClean(q: Question, manifest: Manifest)
    requires q.tenant != ""
    ensures var ops, r := SuppressApprove(q, manifest), Reads(2, 2, 2, 2, 2, 4);
      && TornEvidence(ops, r, q).Ok? && var torn := TornEvidence(ops, r, q).value;
      && !torn.suppressed && torn.campaignApproved && NoRewrite(ops, r.row, r.approval, q)
      && (forall n :: 0 <= n <= 4 ==> At(ops, n, q).suppressed || !At(ops, n, q).campaignApproved)
      && !OneMoment(ops, r.row, r.approval, q, torn)
  {
    var ops := SuppressApprove(q, manifest);
    SuppressApproveShows(q, manifest);
    SuppressApproveEnds(q, manifest);
    assert SuppressedUnapproved(ops, 2, q);
    OutOfOrderReadsAsClean(ops, Reads(2, 2, 2, 2, 2, 4), q);
  }

  /** A contact and a campaign version, then an amendment and its approval. */
  function AmendApprove(q: Question, first: Manifest, second: Manifest): seq<Op> {
    [CreateContact(q.tenant, q.contact, "", "e1", ""), CreateCampaign(q.tenant, q.versionId, "k", first, "e2", ""),
     Amend(q.tenant, q.versionId, second, "e3", ""), Approve(q.tenant, q.versionId, "a", ManifestSha(second), "e4", "")]
  }

  lemma {:induction false} AmendApproveShows(q: Question, first: Manifest, second: Manifest)
    requires q.tenant != "" && q.channelKey in first.contentHashes
    ensures var ops := AmendApprove(q, first, second);
      && (q.tenant, q.contact) in After(ops[..2]).contacts && HeldUntil(ops, 2, q) == 4
      && At(ops, 2, q).approvedContentHash == Some(first.contentHashes[q.channelKey]) && !At(ops, 2, q).campaignApproved
      && !At(ops, 3, q).campaignApproved && At(ops, 4, q).campaignApproved && !At(ops, 4, q).suppressed
  {
    var ops := AmendApprove(q, first, second);
    FourSteps(ops);
    assert HeldUntil(ops, 2, q) == HeldUntil(ops, 3, q) == HeldUntil(ops, 4, q) == 4;
  }

  /** Amended after the content was read and approved before the approval is: the old content counts as approved. */
  lemma {:induction false} OldContentReadAsApproved(q: Question, first: Manifest, second: Manifest)
    requires q.tenant != "" && q.channelKey in first.contentHashes
    ensures var ops, r := AmendApprove(q, first, second), Reads(2, 2, 2, 2, 4, 4);
      && TornEvidence(ops, r, q).Ok? && var torn := TornEvidence(ops, r, q).value;
      && !torn.suppressed && torn.campaignApproved && torn.approvedContentHash == Some(first.contentHashes[q.channelKey])
      && (forall j: nat :: j < |ops| && ops[j].Approve? ==> ops[j].subject == ManifestSha(second))
      && (torn.approvedContentHash != At(ops, 4, q).approvedContentHash ==> !OneMoment(ops, r.row, r.approval, q, torn))
  {
    AmendApproveShows(q, first, second);
  }
}
