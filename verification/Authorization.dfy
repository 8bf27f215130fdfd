/**
 The pieces of the just-in-time authorization: the one-shot decision contexts and the
 issuer (services/policy_gateway/app/authorization.py), the token checks
 (shared/atlantis_contracts/token.py), and the consumers behind the channel adapters
 (services/channel_adapters/app/postgres_token.py, voice.py, whatsapp.py).

 Times are real seconds since the epoch; `int(time.time())` is `Floor`.
 */
module Authorization {
  import opened Common
  import Policy

  /** `channel.lower() + "-adapter"`, or any other audience text. */
  datatype Audience = AdapterFor(channel: Policy.Channel) | OtherAudience(text: string)

  datatype Decision = Decision(id: string, outcome: Policy.Outcome, decidedAt: real)

  datatype Claims = Claims(
    jti: string, iss: string, aud: Audience, tenant: string, contact: string, versionId: string,
    decisionId: string, channel: Policy.Channel, purpose: string, contentHash: string, iat: int, exp: int)

  /** Signatures are symbolic: a token either carries the issuer's signature over claims, or fails verification. */
  datatype Token = Signed(claims: Claims) | Unverifiable(text: string)

  datatype Error =
    | DeniedDecision | TtlOutOfRange | DecisionExpired | AudienceMismatch | TenantMismatch | ContextNotFound
    | InvalidSignature | InvalidIssuer | InvalidAudience | ExpiredOrInvalidTtl | ClaimMismatch | TokenReplay
    | ChannelMismatch | ConstraintViolation

  const MAX_TTL := 300
  const FUTURE_SKEW := 30

  // ------------------------------------------------------- decision contexts

  datatype Entry = Entry(decision: Decision, request: Policy.Request, expires: real)

  function Prune(entries: seq<Entry>, now: real): seq<Entry> {
    if entries == [] then []
    else (if entries[0].expires <= now then [] else [entries[0]]) + Prune(entries[1..], now)
  }

  function Without(entries: seq<Entry>, id: string): seq<Entry> {
    if entries == [] then []
    else (if entries[0].decision.id == id then [] else [entries[0]]) + Without(entries[1..], id)
  }

  function Newest(entries: seq<Entry>, max: nat): seq<Entry> {
    if |entries| <= max then entries else entries[|entries| - max..]
  }

  /** The ordered dictionary after `put`: pruned, the new entry last, the oldest dropped over capacity. */
  function Put(entries: seq<Entry>, entry: Entry, now: real, max: nat): seq<Entry> {
    Newest(Without(Prune(entries, now), entry.decision.id) + [entry], max)
  }

  function Find(entries: seq<Entry>, id: string): Option<Entry> {
    if entries == [] then None
    else if entries[0].decision.id == id then Some(entries[0])
    else Find(entries[1..], id)
  }

  function Take(entries: seq<Entry>, id: string, tenant: string, now: real): (seq<Entry>, Result<Entry, Error>) {
    match Find(entries, id)
    case None => (entries, Err(ContextNotFound))
    case Some(entry) =>
      if entry.request.tenant != tenant then (entries, Err(TenantMismatch))
      else if entry.expires <= now then (Without(entries, id), Err(DecisionExpired))
      else (Without(entries, id), Ok(entry))
  }

  lemma {:induction false} PruneKeeps(entries: seq<Entry>, now: real, e: Entry)
    ensures e in Prune(entries, now) <==> e in entries && e.expires > now
    decreases |entries|
  {
    if entries != [] {
      PruneKeeps(entries[1..], now, e);
      assert entries == [entries[0]] + entries[1..];
    }
  }

  lemma {:induction false} WithoutKeeps(entries: seq<Entry>, id: string, e: Entry)
    ensures e in Without(entries, id) <==> e in entries && e.decision.id != id
    decreases |entries|
  {
    if entries != [] {
      WithoutKeeps(entries[1..], id, e);
      assert entries == [entries[0]] + entries[1..];
    }
  }

  lemma {:induction false} FindFinds(entries: seq<Entry>, id: string)
    ensures match Find(entries, id)
            case None => forall e :: e in entries ==> e.decision.id != id
            case Some(e) => e in entries && e.decision.id == id
    decreases |entries|
  {
    if entries != [] {
      FindFinds(entries[1..], id);
      assert entries == [entries[0]] + entries[1..];
    }
  }

  /** After `put` the store holds the new context last, and otherwise only unexpired contexts it held before. */
  lemma {:induction false} PutHolds(entries: seq<Entry>, entry: Entry, now: real, max: nat, e: Entry)
    ensures e in Put(entries, entry, now, max) ==>
      e == entry || (e in entries && e.expires > now && e.decision.id != entry.decision.id)
    ensures |entries| < max && e in entries && e.expires > now && e.decision.id != entry.decision.id ==>
      e in Put(entries, entry, now, max)
    ensures |Put(entries, entry, now, max)| <= max
    ensures max > 0 ==> Put(entries, entry, now, max) != [] && Put(entries, entry, now, max)[|Put(entries, entry, now, max)| - 1] == entry
  {
    PruneKeeps(entries, now, e);
    WithoutKeeps(Prune(entries, now), entry.decision.id, e);
    PruneShortens(entries, now);
    WithoutShortens(Prune(entries, now), entry.decision.id);
  }

  lemma {:induction false} PruneShortens(entries: seq<Entry>, now: real)
    ensures |Prune(entries, now)| <= |entries|
    decreases |entries|
  {
    if entries != [] {
      PruneShortens(entries[1..], now);
    }
  }

  lemma {:induction false} WithoutShortens(entries: seq<Entry>, id: string)
    ensures |Without(entries, id)| <= |entries|
    decreases |entries|
  {
    if entries != [] {
      WithoutShortens(entries[1..], id);
    }
  }

  /** A context is gone once taken: no later `take` of that decision finds it. */
  lemma {:induction false} TakenIsGone(entries: seq<Entry>, id: string, tenant: string, now: real)
    ensures var (after, result) := Take(entries, id, tenant, now);
      && (result.Ok? ==>
            && result.value in entries && result.value.decision.id == id
            && result.value.request.tenant == tenant && result.value.expires > now)
      && (result.Ok? || result == Err(DecisionExpired) ==> Find(after, id).None?)
      && (forall e :: e in after ==> e in entries)
      && (forall e :: e in entries && e.decision.id != id ==> e in after)
  {
    FindFinds(entries, id);
    FindFinds(Without(entries, id), id);
    forall e
      ensures e in Without(entries, id) <==> e in entries && e.decision.id != id
    {
      WithoutKeeps(entries, id, e);
    }
  }

  lemma {:induction false} WithoutSnoc(entries: seq<Entry>, last: Entry, id: string)
    ensures Without(entries + [last], id) == Without(entries, id) + if last.decision.id == id then [] else [last]
    decreases |entries|
  {
    if entries != [] {
      assert (entries + [last])[1..] == entries[1..] + [last];
      WithoutSnoc(entries[1..], last, id);
    }
  }

  lemma {:induction false} PruneSnoc(entries: seq<Entry>, last: Entry, now: real)
    ensures Prune(entries + [last], now) == Prune(entries, now) + if last.expires <= now then [] else [last]
    decreases |entries|
  {
    if entries != [] {
      assert (entries + [last])[1..] == entries[1..] + [last];
      PruneSnoc(entries[1..], last, now);
    }
  }

  method RemoveAll(entries: seq<Entry>, id: string) returns (kept: seq<Entry>)
    ensures kept == Without(entries, id)
  {
    kept := [];
    for i := 0 to |entries|
      invariant kept == Without(entries[..i], id)
    {
      assert entries[..i + 1] == entries[..i] + [entries[i]];
      WithoutSnoc(entries[..i], entries[i], id);
      if entries[i].decision.id != id {
        kept := kept + [entries[i]];
      }
    }
    assert entries[..|entries|] == entries;
  }

  method PruneExpired(entries: seq<Entry>, now: real) returns (kept: seq<Entry>)
    ensures kept == Prune(entries, now)
  {
    kept := [];
    for i := 0 to |entries|
      invariant kept == Prune(entries[..i], now)
    {
      assert entries[..i + 1] == entries[..i] + [entries[i]];
      PruneSnoc(entries[..i], entries[i], now);
      if !(entries[i].expires <= now) {
        kept := kept + [entries[i]];
      }
    }
    assert entries[..|entries|] == entries;
  }

  /** `while len > max: popitem(last=False)`. */
  method DropOldest(entries: seq<Entry>, max: nat) returns (kept: seq<Entry>)
    ensures kept == Newest(entries, max)
  {
    kept := entries;
    ghost var n := 0;
    while |kept| > max
      invariant n <= |entries| && kept == entries[n..]
      invariant |kept| >= max || n == 0
    {
      assert entries[n..][1..] == entries[n + 1..];
      kept := kept[1..];
      n := n + 1;
    }
  }

  class DecisionContextStore {
    const ttl: real
    const max: nat
    var values: seq<Entry>

    constructor (ttl: real, max: nat)
      ensures values == [] && this.ttl == ttl && this.max == max
    {
      this.ttl, this.max := ttl, max;
      values := [];
    }

    method DoPut(decision: Decision, request: Policy.Request, now: real)
      modifies this
      ensures values == Put(old(values), Entry(decision, request, now + ttl), now, max)
    {
      values := PruneExpired(values, now);
      values := RemoveAll(values, decision.id);
      values := DropOldest(values + [Entry(decision, request, now + ttl)], max);
    }

    method DoTake(id: string, tenant: string, now: real) returns (r: Result<Entry, Error>)
      modifies this
      ensures (values, r) == Take(old(values), id, tenant, now)
    {
      var i := 0;
      while i < |values| && values[i].decision.id != id
        invariant i <= |values|
        invariant Find(values[i..], id) == Find(values, id)
      {
        i := i + 1;
      }
      if i == |values| {
        return Err(ContextNotFound);
      }
      var entry := values[i];
      if entry.request.tenant != tenant {
        return Err(TenantMismatch);
      }
      values := RemoveAll(values, id);
      if entry.expires <= now {
        return Err(DecisionExpired);
      }
      r := Ok(entry);
    }
  }

  /** Taking a context: which error an unsuccessful attempt ends in, and that one for another tenant's leaves it there. */
  lemma {:induction false} TakesExactly(entries: seq<Entry>, id: string, tenant: string, now: real, i: nat)
    requires i <= |entries| && (forall j :: 0 <= j < i ==> entries[j].decision.id != id)
    requires i < |entries| ==> entries[i].decision.id == id
    ensures var (after, result) := Take(entries, id, tenant, now);
      && result == (if i == |entries| then Err(ContextNotFound)
                    else if entries[i].request.tenant != tenant then Err(TenantMismatch)
                    else if entries[i].expires <= now then Err(DecisionExpired)
                    else Ok(entries[i]))
      && (result in {Err(ContextNotFound), Err(TenantMismatch)} ==> after == entries)
    decreases |entries|
  {
    FindAt(entries, id, i);
  }

  lemma {:induction false} FindAt(entries: seq<Entry>, id: string, i: nat)
    requires i <= |entries| && (forall j :: 0 <= j < i ==> entries[j].decision.id != id)
    requires i < |entries| ==> entries[i].decision.id == id
    ensures Find(entries, id) == if i < |entries| then Some(entries[i]) else None
    decreases i
  {
    if i > 0 {
      FindAt(entries[1..], id, i - 1);
    }
  }

  /** Over capacity `put` drops from the front: what stays is the end of what was there, in order. */
  lemma {:induction false} PutDropsOldest(entries: seq<Entry>, entry: Entry, now: real, max: nat)
    requires max > 0
    ensures var kept := Without(Prune(entries, now), entry.decision.id);
      Put(entries, entry, now, max) == (if |kept| < max then kept else kept[|kept| + 1 - max..]) + [entry]
  {
  }

  // ------------------------------------------------------------------ issuer

  function Issue(issuer: string, maxDecisionAge: int, decision: Decision, request: Policy.Request, audience: Audience,
                 ttl: int, now: real, jti: string): Result<Claims, Error>
  {
    var issuedAt, decisionTime := now.Floor, decision.decidedAt.Floor;
    if decision.outcome != Policy.ALLOW then Err(DeniedDecision)
    else if ttl < 1 || ttl > MAX_TTL then Err(TtlOutOfRange)
    else if issuedAt - decisionTime > maxDecisionAge || decisionTime - issuedAt > FUTURE_SKEW then Err(DecisionExpired)
    else if audience != AdapterFor(request.channel) then Err(AudienceMismatch)
    else Ok(Claims(jti, issuer, audience, request.tenant, request.contact, request.versionId, decision.id,
                   request.channel, request.purpose, request.contentHash, issuedAt, issuedAt + ttl))
  }

  /**
   The issuer only signs for an ALLOW decision that is at most `maxDecisionAge` seconds old and
   not more than 30 ahead, for the adapter of the decided channel, with a lifetime of 1 to 300
   seconds; and then exactly the decision's and the request's own values.
   */
  lemma {:induction false} IssuesExactly(issuer: string, maxDecisionAge: int, decision: Decision, request: Policy.Request,
                           audience: Audience, ttl: int, now: real, jti: string)
    ensures var result := Issue(issuer, maxDecisionAge, decision, request, audience, ttl, now, jti);
      var age := now.Floor - decision.decidedAt.Floor;
      && (result.Ok? <==> decision.outcome == Policy.ALLOW && 1 <= ttl <= 300 && -30 <= age <= maxDecisionAge
                          && audience == AdapterFor(request.channel))
      && (result.Ok? ==>
            var c := result.value;
            && (c.jti, c.iss, c.aud, c.decisionId) == (jti, issuer, audience, decision.id)
            && (c.tenant, c.contact, c.versionId, c.contentHash)
               == (request.tenant, request.contact, request.versionId, request.contentHash)
            && (c.channel, c.purpose) == (request.channel, request.purpose)
            && (c.iat, c.exp) == (now.Floor, now.Floor + ttl))
      && (result.Err? ==>
            result.error == if decision.outcome != Policy.ALLOW then DeniedDecision
                            else if !(1 <= ttl <= 300) then TtlOutOfRange
                            else if !(-30 <= age <= maxDecisionAge) then DecisionExpired
                            else AudienceMismatch)
  {
  }

  // ------------------------------------------------------------ verification

  /** The command's own values, which the token's claims must equal. */
  datatype Command = Command(tenant: string, contact: string, versionId: string, contentHash: string)

  function Verify(issuer: string, token: Token, audience: Audience, command: Command, now: real): Result<Claims, Error> {
    match token
    case Unverifiable(_) => Err(InvalidSignature)
    case Signed(c) =>
      var clock := now.Floor;
      if c.iss != issuer then Err(InvalidIssuer)
      else if c.aud != audience then Err(InvalidAudience)
      else if c.exp <= clock || c.iat > clock + FUTURE_SKEW || c.exp - c.iat > MAX_TTL then Err(ExpiredOrInvalidTtl)
      else if Command(c.tenant, c.contact, c.versionId, c.contentHash) != command then Err(ClaimMismatch)
      else Ok(c)
  }

  /**
   A token the issuer made, presented with its own claims to the adapter of its channel,
   verifies exactly from 30 seconds before its issue time until just before it expires.
   */
  lemma {:induction false} IssuedTokenVerifiesExactlyInItsWindow(issuer: string, maxDecisionAge: int, decision: Decision,
    request: Policy.Request, audience: Audience, ttl: int, now: real, jti: string,
    presentedTo: Audience, command: Command, clock: real)
    requires Issue(issuer, maxDecisionAge, decision, request, audience, ttl, now, jti).Ok?
    ensures var claims := Issue(issuer, maxDecisionAge, decision, request, audience, ttl, now, jti).value;
      Verify(issuer, Signed(claims), presentedTo, command, clock).Ok? <==>
        && presentedTo == AdapterFor(request.channel)
        && command == Command(request.tenant, request.contact, request.versionId, request.contentHash)
        && now.Floor - FUTURE_SKEW <= clock.Floor < now.Floor + ttl
  {
  }

  /**
   A token is accepted exactly when it is signed, by this issuer, for this audience, issued at
   most 30 seconds ahead and not yet expired, with a lifetime of at most 300 seconds, and says
   what the command says. Otherwise the first of these that fails names the error.
   */
  lemma {:induction false} VerifiesExactly(issuer: string, token: Token, audience: Audience, command: Command, now: real)
    ensures var result := Verify(issuer, token, audience, command, now);
      && (result.Ok? <==>
            && token.Signed? && token.claims.iss == issuer && token.claims.aud == audience
            && token.claims.iat - 30 <= now.Floor < token.claims.exp && token.claims.exp - token.claims.iat <= 300
            && (token.claims.tenant, token.claims.contact) == (command.tenant, command.contact)
            && (token.claims.versionId, token.claims.contentHash) == (command.versionId, command.contentHash))
      && (result.Ok? ==> result.value == token.claims)
      && (result.Err? ==>
            result.error == if !token.Signed? then InvalidSignature
                            else if token.claims.iss != issuer then InvalidIssuer
                            else if token.claims.aud != audience then InvalidAudience
                            else if !(token.claims.iat - 30 <= now.Floor < token.claims.exp)
                                    || token.claims.exp - token.claims.iat > 300 then ExpiredOrInvalidTtl
                            else ClaimMismatch)
  {
  }

  // --------------------------------------------------------------- consumers

  /** A row of outbound_authorization. */
  datatype Row = Row(tenant: string, decisionId: string, expires: int, consumed: bool)

  /** `PostgresTokenConsumer.consume`: the row is updated when it is the tenant's, unused and unexpired. */
  function Consume(rows: map<string, Row>, jti: string, tenant: string, now: real): (map<string, Row>, bool) {
    if jti in rows && rows[jti].tenant == tenant && !rows[jti].consumed && rows[jti].expires as real > now
    then (rows[jti := rows[jti].(consumed := true)], true)
    else (rows, false)
  }

  /** `ShadowFirstUseConsumer.consume`: first use in this process. */
  function FirstUse(seen: set<string>, jti: string): (set<string>, bool) {
    (seen + {jti}, jti !in seen)
  }

  /**
   A token is used up once: consuming succeeds exactly for the tenant's own unused, unexpired
   row, marks that row and no other, and then never succeeds for it again.
   */
  lemma {:induction false} ConsumesExactly(rows: map<string, Row>, jti: string, tenant: string, now: real, other: string, later: real)
    ensures var (after, first) := Consume(rows, jti, tenant, now);
      && (first <==> jti in rows && rows[jti].tenant == tenant && rows[jti].consumed == false && now < rows[jti].expires as real)
      && (!first ==> after == rows)
      && (first ==> after == rows[jti := rows[jti].(consumed := true)] && !Consume(after, jti, other, later).1)
  {
  }

  /** `PostgresReplayLedger` and `PostgresTokenConsumer` on the shared table. */
  class AuthorizationTable {
    var rows: map<string, Row>

    constructor ()
      ensures rows == map[]
    {
      rows := map[];
    }

    method Register(claims: Claims) returns (r: Result<(), Error>)
      modifies this
      ensures if claims.jti in old(rows) then r == Err(ConstraintViolation) && rows == old(rows)
              else r == Ok(()) && rows == old(rows)[claims.jti := Row(claims.tenant, claims.decisionId, claims.exp, false)]
    {
      if claims.jti in rows {
        return Err(ConstraintViolation);
      }
      rows := rows[claims.jti := Row(claims.tenant, claims.decisionId, claims.exp, false)];
      r := Ok(());
    }

    method DoConsume(jti: string, tenant: string, now: real) returns (first: bool)
      modifies this
      ensures (rows, first) == Consume(old(rows), jti, tenant, now)
    {
      if jti !in rows || rows[jti].tenant != tenant {
        return false;
      }
      var row := rows[jti];
      if row.consumed || row.expires as real <= now {
        return false;
      }
      rows := rows[jti := row.(consumed := true)];
      first := true;
    }
  }

  class ShadowFirstUseConsumer {
    var seen: set<string>

    constructor ()
      ensures seen == {}
    {
      seen := {};
    }

    method DoConsume(jti: string) returns (first: bool)
      modifies this
      ensures (seen, first) == FirstUse(old(seen), jti)
    {
      if jti in seen {
        assert seen == seen + {jti};
        return false;
      }
      seen := seen + {jti};
      first := true;
    }
  }

  /** A voice or WhatsApp adapter process with its verifier, its consumer and what it has put on the wire. */
  class ChannelAdapter {
    const issuer: string
    const channel: Policy.Channel
    const table: AuthorizationTable
    var sent: seq<Claims>

    constructor (issuer: string, channel: Policy.Channel, table: AuthorizationTable)
      ensures this.issuer == issuer && this.channel == channel && this.table == table && sent == []
    {
      this.issuer, this.channel, this.table := issuer, channel, table;
      sent := [];
    }

    /** `originate` and `send`: verify, consume, check the channel, dispatch. */
    method DoSend(token: Token, command: Command, now: real) returns (r: Result<Claims, Error>)
      modifies this, table
      ensures var verified := Verify(issuer, token, AdapterFor(channel), command, now);
        match verified
        case Err(e) => r == Err(e) && table.rows == old(table.rows) && sent == old(sent)
        case Ok(claims) =>
          var (rows, first) := Consume(old(table.rows), claims.jti, claims.tenant, now);
          && table.rows == rows
          && r == (if !first then Err(TokenReplay) else if claims.channel != channel then Err(ChannelMismatch) else Ok(claims))
          && sent == if r.Ok? then old(sent) + [claims] else old(sent)
    {
      match token {
        case Unverifiable(_) => return Err(InvalidSignature);
        case Signed(claims) =>
          var clock := now.Floor;
          if claims.iss != issuer {
            return Err(InvalidIssuer);
          }
          if claims.aud != AdapterFor(channel) {
            return Err(InvalidAudience);
          }
          if claims.exp <= clock || claims.iat > clock + FUTURE_SKEW || claims.exp - claims.iat > MAX_TTL {
            return Err(ExpiredOrInvalidTtl);
          }
          if claims.tenant != command.tenant || claims.contact != command.contact
             || claims.versionId != command.versionId || claims.contentHash != command.contentHash
          {
            return Err(ClaimMismatch);
          }
          var first := table.DoConsume(claims.jti, claims.tenant, now);
          if !first {
            return Err(TokenReplay);
          }
          if claims.channel != channel {
            return Err(ChannelMismatch);
          }
          sent := sent + [claims];
          r := Ok(claims);
      }
    }
  }
}
