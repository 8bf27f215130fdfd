/**
 The contactability policy (services/policy_gateway/app/policy.py) and the evidence
 override in front of it (services/policy_gateway/app/evidence.py).
 */
module Policy {
  import opened Common

  datatype Channel = VOICE | WHATSAPP

  datatype Request = Request(
    tenant: string, contact: string, versionId: string, purpose: string, channel: Channel, contentHash: string,
    campaignApproved: bool, approvedContentHash: Option<string>,
    suppressed: bool, frequencyExhausted: bool, killSwitch: bool,
    consentActive: Option<bool>, templateApproved: Option<bool>, windowOpen: Option<bool>,
    repepSnapshotValid: Option<bool>, repepListed: Option<bool>,
    repepEnabled: bool, exemptionType: Option<string>, exemptionApproved: bool, evidenceRef: Option<string>,
    localHour: Option<int>)

  datatype Reason =
    | GLOBAL_KILL_SWITCH | CAMPAIGN_NOT_APPROVED | CAMPAIGN_CONTENT_CHANGED | INTERNAL_SUPPRESSION | FREQUENCY_LIMIT
    | LOCAL_TIME_UNKNOWN | OUTSIDE_ALLOWED_HOURS
    | REPEP_EVIDENCE_MISSING_OR_STALE | REPEP_LISTED_OR_UNKNOWN
    | REPEP_DISABLED_REQUIRES_B2B | REPEP_B2B_EXCEPTION_NOT_APPROVED | REPEP_B2B_EVIDENCE_MISSING
    | WHATSAPP_OPT_IN_MISSING | WHATSAPP_TEMPLATE_OR_WINDOW_INVALID

  datatype Outcome = ALLOW | DENY

  const ALLOWED_FROM := 9
  const ALLOWED_UNTIL := 20

  // ------------------------------------------------------------------- text

  predicate Blank(s: string) {
    forall i :: 0 <= i < |s| ==> IsSpace(s[i])
  }

  // ----------------------------------------------------------------- policy

  predicate Promotional(r: Request) {
    Upper(r.purpose) in {"PROMOTIONAL", "MARKETING", "SALES"}
  }

  predicate HasExemptionType(r: Request) {
    r.exemptionType.Some? && Upper(r.exemptionType.value) == "B2B"
  }

  predicate HasEvidenceRef(r: Request) {
    r.evidenceRef.Some? && !Blank(r.evidenceRef.value)
  }

  /** When each reason code is due, stated on its own. */
  predicate Applies(reason: Reason, r: Request) {
    var voice := r.channel == VOICE && Promotional(r);
    var whatsapp := r.channel == WHATSAPP && Promotional(r);
    match reason
    case GLOBAL_KILL_SWITCH => r.killSwitch
    case CAMPAIGN_NOT_APPROVED => !r.campaignApproved
    case CAMPAIGN_CONTENT_CHANGED => r.approvedContentHash != Some(r.contentHash)
    case INTERNAL_SUPPRESSION => r.suppressed
    case FREQUENCY_LIMIT => r.frequencyExhausted
    case LOCAL_TIME_UNKNOWN => r.localHour.None?
    case OUTSIDE_ALLOWED_HOURS => r.localHour.Some? && !(ALLOWED_FROM <= r.localHour.value < ALLOWED_UNTIL)
    case REPEP_EVIDENCE_MISSING_OR_STALE => voice && r.repepEnabled && r.repepSnapshotValid != Some(true)
    case REPEP_LISTED_OR_UNKNOWN =>
      voice && r.repepEnabled && r.repepSnapshotValid == Some(true) && r.repepListed != Some(false)
    case REPEP_DISABLED_REQUIRES_B2B => voice && !r.repepEnabled && !HasExemptionType(r)
    case REPEP_B2B_EXCEPTION_NOT_APPROVED => voice && !r.repepEnabled && !r.exemptionApproved
    case REPEP_B2B_EVIDENCE_MISSING => voice && !r.repepEnabled && !HasEvidenceRef(r)
    case WHATSAPP_OPT_IN_MISSING => whatsapp && r.consentActive != Some(true)
    case WHATSAPP_TEMPLATE_OR_WINDOW_INVALID => whatsapp && r.windowOpen != Some(true) && r.templateApproved != Some(true)
  }

  ghost predicate Permitted(r: Request) {
    forall reason :: !Applies(reason, r)
  }

  /** The reasons that do not depend on the channel. */
  predicate General(reason: Reason) {
    reason in {GLOBAL_KILL_SWITCH, CAMPAIGN_NOT_APPROVED, CAMPAIGN_CONTENT_CHANGED, INTERNAL_SUPPRESSION,
               FREQUENCY_LIMIT, LOCAL_TIME_UNKNOWN, OUTSIDE_ALLOWED_HOURS}
  }

  method GeneralReasons(r: Request) returns (reasons: seq<Reason>)
    ensures forall reason :: reason in reasons <==> General(reason) && Applies(reason, r)
  {
    reasons := [];
    if r.killSwitch { reasons := reasons + [GLOBAL_KILL_SWITCH]; }
    if !r.campaignApproved { reasons := reasons + [CAMPAIGN_NOT_APPROVED]; }
    if r.approvedContentHash != Some(r.contentHash) { reasons := reasons + [CAMPAIGN_CONTENT_CHANGED]; }
    if r.suppressed { reasons := reasons + [INTERNAL_SUPPRESSION]; }
    if r.frequencyExhausted { reasons := reasons + [FREQUENCY_LIMIT]; }
    if r.localHour.None? {
      reasons := reasons + [LOCAL_TIME_UNKNOWN];
    } else if !(ALLOWED_FROM <= r.localHour.value < ALLOWED_UNTIL) {
      reasons := reasons + [OUTSIDE_ALLOWED_HOURS];
    }
  }

  method ChannelReasons(r: Request) returns (reasons: seq<Reason>)
    ensures forall reason :: reason in reasons <==> !General(reason) && Applies(reason, r)
  {
    reasons := [];
    var promotional := Promotional(r);
    if r.channel == VOICE && promotional {
      if r.repepEnabled {
        if r.repepSnapshotValid != Some(true) {
          reasons := reasons + [REPEP_EVIDENCE_MISSING_OR_STALE];
        } else if r.repepListed != Some(false) {
          reasons := reasons + [REPEP_LISTED_OR_UNKNOWN];
        }
      } else {
        if !HasExemptionType(r) {
          reasons := reasons + [REPEP_DISABLED_REQUIRES_B2B];
        }
        if !r.exemptionApproved {
          reasons := reasons + [REPEP_B2B_EXCEPTION_NOT_APPROVED];
        }
        if !HasEvidenceRef(r) {
          reasons := reasons + [REPEP_B2B_EVIDENCE_MISSING];
        }
      }
    }
    if r.channel == WHATSAPP && promotional {
      if r.consentActive != Some(true) {
        reasons := reasons + [WHATSAPP_OPT_IN_MISSING];
      }
      if r.windowOpen != Some(true) && r.templateApproved != Some(true) {
        reasons := reasons + [WHATSAPP_TEMPLATE_OR_WINDOW_INVALID];
      }
    }
  }

  lemma {:induction false} GeneralSpelledOut(r: Request, reasons: seq<Reason>)
    requires forall reason :: reason in reasons <==> Applies(reason, r)
    ensures GLOBAL_KILL_SWITCH in reasons <==> r.killSwitch
    ensures CAMPAIGN_NOT_APPROVED in reasons <==> !r.campaignApproved
    ensures CAMPAIGN_CONTENT_CHANGED in reasons <==> r.approvedContentHash != Some(r.contentHash)
    ensures INTERNAL_SUPPRESSION in reasons <==> r.suppressed
    ensures FREQUENCY_LIMIT in reasons <==> r.frequencyExhausted
    ensures LOCAL_TIME_UNKNOWN in reasons <==> r.localHour == None
    ensures OUTSIDE_ALLOWED_HOURS in reasons <==> r.localHour != None && (r.localHour.value < 9 || r.localHour.value >= 20)
  {
  }

  lemma {:induction false} VoiceSpelledOut(r: Request, reasons: seq<Reason>)
    requires forall reason :: reason in reasons <==> Applies(reason, r)
    ensures REPEP_EVIDENCE_MISSING_OR_STALE in reasons <==>
      PromotionalVoice(r) && r.repepEnabled && r.repepSnapshotValid != Some(true)
    ensures REPEP_LISTED_OR_UNKNOWN in reasons <==>
      PromotionalVoice(r) && r.repepEnabled && r.repepSnapshotValid == Some(true) && r.repepListed != Some(false)
    ensures REPEP_DISABLED_REQUIRES_B2B in reasons <==>
      PromotionalVoice(r) && !r.repepEnabled && !(r.exemptionType.Some? && Upper(r.exemptionType.value) == "B2B")
    ensures REPEP_B2B_EXCEPTION_NOT_APPROVED in reasons <==> PromotionalVoice(r) && !r.repepEnabled && !r.exemptionApproved
    ensures REPEP_B2B_EVIDENCE_MISSING in reasons <==>
      PromotionalVoice(r) && !r.repepEnabled && (r.evidenceRef == None || forall c :: c in r.evidenceRef.value ==> IsSpace(c))
  {
  }

  lemma {:induction false} WhatsAppSpelledOut(r: Request, reasons: seq<Reason>)
    requires forall reason :: reason in reasons <==> Applies(reason, r)
    ensures WHATSAPP_OPT_IN_MISSING in reasons <==>
      r.channel == WHATSAPP && Promotional(r) && r.consentActive != Some(true)
    ensures WHATSAPP_TEMPLATE_OR_WINDOW_INVALID in reasons <==>
      r.channel == WHATSAPP && Promotional(r) && r.windowOpen != Some(true) && r.templateApproved != Some(true)
  {
  }

  /** The engine's decision: denied with exactly the reasons that apply, allowed when none does. */
  method Decide(r: Request) returns (outcome: Outcome, reasons: seq<Reason>)
    ensures outcome == ALLOW <==> reasons == []
    ensures outcome == ALLOW <==> Permitted(r)
    ensures forall reason :: reason in reasons <==> Applies(reason, r)
    ensures GLOBAL_KILL_SWITCH in reasons <==> r.killSwitch
    ensures CAMPAIGN_NOT_APPROVED in reasons <==> !r.campaignApproved
    ensures CAMPAIGN_CONTENT_CHANGED in reasons <==> r.approvedContentHash != Some(r.contentHash)
    ensures INTERNAL_SUPPRESSION in reasons <==> r.suppressed
    ensures FREQUENCY_LIMIT in reasons <==> r.frequencyExhausted
    ensures LOCAL_TIME_UNKNOWN in reasons <==> r.localHour == None
    ensures OUTSIDE_ALLOWED_HOURS in reasons <==> r.localHour != None && (r.localHour.value < 9 || r.localHour.value >= 20)
    ensures REPEP_EVIDENCE_MISSING_OR_STALE in reasons <==>
      PromotionalVoice(r) && r.repepEnabled && r.repepSnapshotValid != Some(true)
    ensures REPEP_LISTED_OR_UNKNOWN in reasons <==>
      PromotionalVoice(r) && r.repepEnabled && r.repepSnapshotValid == Some(true) && r.repepListed != Some(false)
    ensures REPEP_DISABLED_REQUIRES_B2B in reasons <==>
      PromotionalVoice(r) && !r.repepEnabled && !(r.exemptionType.Some? && Upper(r.exemptionType.value) == "B2B")
    ensures REPEP_B2B_EXCEPTION_NOT_APPROVED in reasons <==> PromotionalVoice(r) && !r.repepEnabled && !r.exemptionApproved
    ensures REPEP_B2B_EVIDENCE_MISSING in reasons <==>
      PromotionalVoice(r) && !r.repepEnabled && (r.evidenceRef == None || forall c :: c in r.evidenceRef.value ==> IsSpace(c))
    ensures WHATSAPP_OPT_IN_MISSING in reasons <==>
      r.channel == WHATSAPP && Promotional(r) && r.consentActive != Some(true)
    ensures WHATSAPP_TEMPLATE_OR_WINDOW_INVALID in reasons <==>
      r.channel == WHATSAPP && Promotional(r) && r.windowOpen != Some(true) && r.templateApproved != Some(true)
  {
    var general := GeneralReasons(r);
    var specific := ChannelReasons(r);
    reasons := general + specific;
    GeneralSpelledOut(r, reasons);
    VoiceSpelledOut(r, reasons);
    WhatsAppSpelledOut(r, reasons);
    outcome := if reasons != [] then DENY else ALLOW;
    assert reasons != [] ==> Applies(reasons[0], r) by {
      assert reasons != [] ==> reasons[0] in reasons;
    }
  }

  // --------------------------------------------------------------- evidence

  /** The evidence service's answer; a None field is a key it did not return, or returned as null. */
  datatype Evidence = Evidence(
    campaignApproved: Option<bool>, approvedContentHash: Option<string>, suppressed: Option<bool>,
    consentActive: Option<bool>, repepSnapshotValid: Option<bool>, repepListed: Option<bool>,
    repepEnabled: Option<bool>, exemptionType: Option<string>, exemptionApproved: Option<bool>,
    evidenceRef: Option<string>)

  function OrElse(x: Option<bool>, default: bool): bool {
    if x.Some? then x.value else default
  }

  /** `EvidenceClient.resolve`: the caller's body with every evidence field taken from the service. */
  function Resolve(body: Request, e: Evidence): Request {
    body.(campaignApproved := OrElse(e.campaignApproved, false),
          approvedContentHash := e.approvedContentHash,
          suppressed := OrElse(e.suppressed, true),
          consentActive := Some(OrElse(e.consentActive, false)),
          repepSnapshotValid := Some(OrElse(e.repepSnapshotValid, false)),
          repepListed := e.repepListed,
          repepEnabled := OrElse(e.repepEnabled, false),
          exemptionType := e.exemptionType,
          exemptionApproved := OrElse(e.exemptionApproved, false),
          evidenceRef := e.evidenceRef)
  }

  /** What the caller says about evidence: the ten fields that `resolve` overrides. */
  function WithEvidenceOf(body: Request, other: Request): Request {
    body.(campaignApproved := other.campaignApproved, approvedContentHash := other.approvedContentHash,
          suppressed := other.suppressed, consentActive := other.consentActive,
          repepSnapshotValid := other.repepSnapshotValid, repepListed := other.repepListed,
          repepEnabled := other.repepEnabled, exemptionType := other.exemptionType,
          exemptionApproved := other.exemptionApproved, evidenceRef := other.evidenceRef)
  }

  /** Nothing a caller puts in those fields counts, and nothing it puts in the others is lost. */
  lemma {:induction false} CallersEvidenceIsIgnored(body: Request, other: Request, e: Evidence)
    ensures Resolve(WithEvidenceOf(body, other), e) == Resolve(body, e)
    ensures WithEvidenceOf(Resolve(body, e), body) == body
  {
  }

  /**
   A contact is permitted exactly when the caller's own fields and the service's answers allow
   it: approved content, no suppression, within the hours; for a promotion by voice a clean
   registry reading, or a documented and approved B2B exemption where the registry check is
   off; for a promotion by WhatsApp the contact's consent and an open window or template.
   */
  lemma {:induction false} PermittedExactly(body: Request, e: Evidence)
    ensures var promotion := Upper(body.purpose) in {"PROMOTIONAL", "MARKETING", "SALES"};
      var cleared := e.repepSnapshotValid == Some(true) && e.repepListed == Some(false);
      var exempted := && e.exemptionType.Some? && Upper(e.exemptionType.value) == "B2B" && e.exemptionApproved == Some(true)
                      && e.evidenceRef.Some? && exists i :: 0 <= i < |e.evidenceRef.value| && !IsSpace(e.evidenceRef.value[i]);
      Permitted(Resolve(body, e)) <==>
        && !body.killSwitch && !body.frequencyExhausted && body.localHour.Some? && 9 <= body.localHour.value < 20
        && e.campaignApproved == Some(true) && e.approvedContentHash == Some(body.contentHash) && e.suppressed == Some(false)
        && (promotion && body.channel == VOICE ==> if e.repepEnabled == Some(true) then cleared else exempted)
        && (promotion && body.channel == WHATSAPP ==>
              e.consentActive == Some(true) && (body.windowOpen == Some(true) || body.templateApproved == Some(true)))
  {
    var r := Resolve(body, e);
    if Permitted(r) {
      NoneApplies(r);
    }
  }

  lemma {:induction false} NoneApplies(r: Request)
    requires Permitted(r)
    ensures !Applies(GLOBAL_KILL_SWITCH, r) && !Applies(CAMPAIGN_NOT_APPROVED, r) && !Applies(CAMPAIGN_CONTENT_CHANGED, r)
    ensures !Applies(INTERNAL_SUPPRESSION, r) && !Applies(FREQUENCY_LIMIT, r)
    ensures !Applies(LOCAL_TIME_UNKNOWN, r) && !Applies(OUTSIDE_ALLOWED_HOURS, r)
    ensures !Applies(REPEP_EVIDENCE_MISSING_OR_STALE, r) && !Applies(REPEP_LISTED_OR_UNKNOWN, r)
    ensures !Applies(REPEP_DISABLED_REQUIRES_B2B, r) && !Applies(REPEP_B2B_EXCEPTION_NOT_APPROVED, r)
    ensures !Applies(REPEP_B2B_EVIDENCE_MISSING, r)
    ensures !Applies(WHATSAPP_OPT_IN_MISSING, r) && !Applies(WHATSAPP_TEMPLATE_OR_WINDOW_INVALID, r)
  {
  }

  predicate Dropped<T(==)>(less: Option<T>, more: Option<T>) {
    less == more || less.None?
  }

  /** `less` is `more` with some answers missing. */
  predicate LessEvidence(less: Evidence, more: Evidence) {
    && Dropped(less.campaignApproved, more.campaignApproved)
    && Dropped(less.approvedContentHash, more.approvedContentHash)
    && Dropped(less.suppressed, more.suppressed)
    && Dropped(less.consentActive, more.consentActive)
    && Dropped(less.repepSnapshotValid, more.repepSnapshotValid)
    && Dropped(less.repepListed, more.repepListed)
    && Dropped(less.repepEnabled, more.repepEnabled)
    && Dropped(less.exemptionType, more.exemptionType)
    && Dropped(less.exemptionApproved, more.exemptionApproved)
    && Dropped(less.evidenceRef, more.evidenceRef)
  }

  predicate PromotionalVoice(body: Request) {
    body.channel == VOICE && Promotional(body)
  }

  /** The campaign's registry check is on but its registry evidence does not clear the contact. */
  predicate RegistryBlocks(e: Evidence) {
    e.repepEnabled == Some(true) && !(e.repepSnapshotValid == Some(true) && e.repepListed == Some(false))
  }

  /**
   Missing evidence opens a contact that full evidence denies in one case only: a
   promotional voice contact whose registry check is on and not passed, when the answer
   that the check is on is lost, and what is left permits the contact by its exemption.
   */
  lemma {:induction false} MissingEvidenceOpensExactly(body: Request, less: Evidence, more: Evidence)
    requires LessEvidence(less, more)
    ensures Permitted(Resolve(body, less)) && !Permitted(Resolve(body, more))
        <==> Permitted(Resolve(body, less)) && PromotionalVoice(body) && less.repepEnabled.None? && RegistryBlocks(more)
  {
    var a, b := Resolve(body, less), Resolve(body, more);
    assert Promotional(a) == Promotional(b) == Promotional(body);
    if Permitted(a) {
      assert forall reason :: !Applies(reason, a);
      var all := [CAMPAIGN_NOT_APPROVED, CAMPAIGN_CONTENT_CHANGED, INTERNAL_SUPPRESSION, REPEP_DISABLED_REQUIRES_B2B];
      forall reason | Applies(reason, b)
        ensures PromotionalVoice(body) && less.repepEnabled.None? && RegistryBlocks(more)
      {
        assert !Applies(reason, a) && !Applies(CAMPAIGN_NOT_APPROVED, a) && !Applies(INTERNAL_SUPPRESSION, a);
        assert !Applies(REPEP_DISABLED_REQUIRES_B2B, a) && !Applies(REPEP_B2B_EXCEPTION_NOT_APPROVED, a);
        assert !Applies(REPEP_B2B_EVIDENCE_MISSING, a) && !Applies(WHATSAPP_OPT_IN_MISSING, a);
        assert !Applies(CAMPAIGN_CONTENT_CHANGED, a);
        assert !Applies(REPEP_EVIDENCE_MISSING_OR_STALE, a) && !Applies(REPEP_LISTED_OR_UNKNOWN, a);
      }
      if PromotionalVoice(body) && RegistryBlocks(more) {
        assert Applies(REPEP_EVIDENCE_MISSING_OR_STALE, b) || Applies(REPEP_LISTED_OR_UNKNOWN, b);
      }
    }
  }

  /** As long as the registry switch is answered, dropping evidence never turns a denial into permission. */
  lemma {:induction false} MissingEvidenceNeverHelps(body: Request, less: Evidence, more: Evidence)
    requires LessEvidence(less, more) && less.repepEnabled == more.repepEnabled
    ensures Permitted(Resolve(body, less)) ==> Permitted(Resolve(body, more))
  {
    MissingEvidenceOpensExactly(body, less, more);
  }

  const LISTED_CONTACT := Request(
    "t", "c", "v", "SALES", VOICE, "h", false, None, false, false, false, None, None, None,
    None, None, false, None, false, None, Some(10))

  const LISTED_BUT_EXEMPTED := Evidence(
    Some(true), Some("h"), Some(false), None, Some(true), Some(true), Some(true), Some("B2B"), Some(true), Some("doc"))

  /** A case where losing the registry switch does open a contact: listed, but exempted on paper. */
  lemma {:induction false} LosingTheSwitchCanOpen()
    ensures var less := LISTED_BUT_EXEMPTED.(repepEnabled := None);
      && LessEvidence(less, LISTED_BUT_EXEMPTED)
      && Permitted(Resolve(LISTED_CONTACT, less)) && !Permitted(Resolve(LISTED_CONTACT, LISTED_BUT_EXEMPTED))
  {
    assert Upper("SALES") == "SALES" && Upper("B2B") == "B2B";
    assert !Blank("doc") by { assert !IsSpace("doc"[0]); }
    assert Applies(REPEP_LISTED_OR_UNKNOWN, Resolve(LISTED_CONTACT, LISTED_BUT_EXEMPTED));
  }
}
