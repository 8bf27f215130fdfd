/**
 Tokens as text (shared/atlantis_contracts/token.py): base64url without padding
 (section 5 and section 3.2 of RFC 4648), payload and signature joined by a dot.

 The HMAC, and the JSON rendering of claims with its parser, are parameters.
 */
module TokenText {
  import opened Common
  import A = Authorization

  type Byte = b: int | 0 <= b < 256
  type Sextet = v: int | 0 <= v < 64

  /** The URL-safe alphabet, in order: upper case, lower case, digits, `-` and `_`. */
  function CharOf(v: Sextet): char {
    if v < 26 then 'A' + v as char
    else if v < 52 then 'a' + (v - 26) as char
    else if v < 62 then '0' + (v - 52) as char
    else if v == 62 then '-' else '_'
  }

  /** None for a character outside the alphabet. */
  function ValueOf(c: char): Option<Sextet> {
    if 'A' <= c <= 'Z' then Some((c - 'A') as int)
    else if 'a' <= c <= 'z' then Some((c - 'a') as int + 26)
    else if '0' <= c <= '9' then Some((c - '0') as int + 52)
    else if c == '-' then Some(62)
    else if c == '_' then Some(63)
    else None
  }

  lemma {:induction false} CharRoundTrip(v: Sextet)
    ensures ValueOf(CharOf(v)) == Some(v) && CharOf(v) != '=' && CharOf(v) != '.'
  {
  }

  // The six-bit groups of bytes x, y, z, and the bytes of six-bit groups a, b, c, d.

  function Six0(x: Byte): Sextet { x / 4 }
  function Six1(x: Byte, y: Byte): Sextet { x % 4 * 16 + y / 16 }
  function Six2(y: Byte, z: Byte): Sextet { y % 16 * 4 + z / 64 }
  function Six3(z: Byte): Sextet { z % 64 }

  function Byte0(a: Sextet, b: Sextet): Byte { a * 4 + b / 16 }
  function Byte1(b: Sextet, c: Sextet): Byte { b % 16 * 16 + c / 4 }
  function Byte2(c: Sextet, d: Sextet): Byte { c % 4 * 64 + d }

  lemma {:induction false} GroupRoundTrip(x: Byte, y: Byte, z: Byte)
    ensures Byte0(Six0(x), Six1(x, y)) == x
    ensures Byte1(Six1(x, y), Six2(y, z)) == y
    ensures Byte2(Six2(y, z), Six3(z)) == z
  {
  }

  const LETTERS := "ABCDEFGHIJKLMNOPQRSTUVWXYZ"
  const SMALL_LETTERS := "abcdefghijklmnopqrstuvwxyz"
  const ALPHABET := LETTERS + SMALL_LETTERS + "0123456789-_"

  lemma {:induction false} LettersInOrder(v: nat)
    requires v < 26
    ensures |LETTERS| == 26 && LETTERS[v] == 'A' + v as char
    ensures |SMALL_LETTERS| == 26 && SMALL_LETTERS[v] == 'a' + v as char
  {
    if v < 13 {
      FirstLetters(v);
    } else {
      LastLetters(v);
    }
  }

  lemma {:induction false} FirstLetters(v: nat)
    requires v < 13
    ensures LETTERS[v] == 'A' + v as char && SMALL_LETTERS[v] == 'a' + v as char
  {
    assert v == 0 || v == 1 || v == 2 || v == 3 || v == 4 || v == 5 || v == 6 || v == 7 || v == 8 || v == 9 || v == 10
        || v == 11 || v == 12;
  }

  lemma {:induction false} LastLetters(v: nat)
    requires 13 <= v < 26
    ensures LETTERS[v] == 'A' + v as char && SMALL_LETTERS[v] == 'a' + v as char
  {
    assert v == 13 || v == 14 || v == 15 || v == 16 || v == 17 || v == 18 || v == 19 || v == 20 || v == 21 || v == 22
        || v == 23 || v == 24 || v == 25;
  }

  lemma {:induction false} DigitsInOrder(v: nat)
    requires v < 12
    ensures "0123456789-_"[v] == if v < 10 then '0' + v as char else if v == 10 then '-' else '_'
  {
    assert v == 0 || v == 1 || v == 2 || v == 3 || v == 4 || v == 5 || v == 6 || v == 7 || v == 8 || v == 9 || v == 10 || v == 11;
  }

  lemma {:induction false} CharIs(v: Sextet)
    ensures |ALPHABET| == 64 && CharOf(v) == ALPHABET[v]
  {
    if v < 26 {
      LettersInOrder(v);
    } else if v < 52 {
      LettersInOrder(v - 26);
    } else {
      DigitsInOrder(v - 52);
    }
  }

  /** The characters are those of table 2 of RFC 4648, in its order and in both directions. */
  lemma {:induction false} AlphabetIs(v: Sextet, c: char)
    ensures |ALPHABET| == 64 && CharOf(v) == ALPHABET[v]
    ensures ValueOf(c) == Some(v) <==> c == ALPHABET[v]
  {
    CharIs(v);
    CharRoundTrip(v);
    if ValueOf(c).Some? {
      CharIs(ValueOf(c).value);
    }
  }

  // ---------------------------------------------------------------- encoding

  function Core1(x: Byte): string { [CharOf(Six0(x)), CharOf(Six1(x, 0))] }
  function Core2(x: Byte, y: Byte): string { [CharOf(Six0(x)), CharOf(Six1(x, y)), CharOf(Six2(y, 0))] }
  function Group(x: Byte, y: Byte, z: Byte): string {
    [CharOf(Six0(x)), CharOf(Six1(x, y)), CharOf(Six2(y, z)), CharOf(Six3(z))]
  }

  /** `urlsafe_b64encode`: groups of three bytes, the last group padded with `=`. */
  function EncodePadded(data: seq<Byte>): string {
    if data == [] then ""
    else if |data| == 1 then Core1(data[0]) + "=="
    else if |data| == 2 then Core2(data[0], data[1]) + "="
    else Group(data[0], data[1], data[2]) + EncodePadded(data[3..])
  }

  function StripPadding(text: string): string {
    if text != "" && text[|text| - 1] == '=' then StripPadding(text[..|text| - 1]) else text
  }

  /** `_b64` */
  function Encode(data: seq<Byte>): string {
    StripPadding(EncodePadded(data))
  }

  /** Four characters to their sextets. */
  function Sextets(text: string): Option<(Sextet, Sextet, Sextet, Sextet)>
    requires |text| >= 4
  {
    match (ValueOf(text[0]), ValueOf(text[1]), ValueOf(text[2]), ValueOf(text[3]))
    case (Some(a), Some(b), Some(c), Some(d)) => Some((a, b, c, d))
    case _ => None
  }

  /** `urlsafe_b64decode` on text in the alphabet with its padding; None for any other text. */
  function DecodePadded(text: string): Option<seq<Byte>> {
    if text == "" then Some([])
    else if |text| < 4 then None
    else if |text| == 4 && text[3] == '=' then
      match (ValueOf(text[0]), ValueOf(text[1]), ValueOf(text[2]))
      case (Some(a), Some(b), Some(c)) => Some([Byte0(a, b), Byte1(b, c)])
      case (Some(a), Some(b), None) => if text[2] == '=' then Some([Byte0(a, b)]) else None
      case _ => None
    else
      match (Sextets(text), DecodePadded(text[4..]))
      case (Some((a, b, c, d)), Some(rest)) => Some([Byte0(a, b), Byte1(b, c), Byte2(c, d)] + rest)
      case _ => None
  }

  function Padding(n: nat): string {
    seq((4 - n % 4) % 4, i => '=')
  }

  /** `_unb64` */
  function Decode(text: string): Option<seq<Byte>> {
    DecodePadded(text + Padding(|text|))
  }

  lemma {:induction false} DecodePaddedPair(c0: char, c1: char, a: Sextet, b: Sextet)
    requires ValueOf(c0) == Some(a) && ValueOf(c1) == Some(b)
    ensures DecodePadded([c0, c1, '=', '=']) == Some([Byte0(a, b)])
  {
    assert ValueOf('=') == None;
  }

  lemma {:induction false} DecodeOne(x: Byte)
    ensures DecodePadded(Core1(x) + "==") == Some([x])
  {
    var a, b := Six0(x), Six1(x, 0);
    assert ValueOf(CharOf(a)) == Some(a) && ValueOf(CharOf(b)) == Some(b);
    assert Byte0(a, b) == x by {
      GroupRoundTrip(x, 0, 0);
    }
    assert Core1(x) + "==" == [CharOf(a), CharOf(b), '=', '='];
    DecodePaddedPair(CharOf(a), CharOf(b), a, b);
  }

  lemma {:induction false} DecodeTwo(x: Byte, y: Byte)
    ensures DecodePadded(Core2(x, y) + "=") == Some([x, y])
  {
    CharRoundTrip(Six0(x));
    CharRoundTrip(Six1(x, y));
    CharRoundTrip(Six2(y, 0));
    GroupRoundTrip(x, y, 0);
  }

  lemma {:induction false} DecodeGroup(x: Byte, y: Byte, z: Byte, rest: string, data: seq<Byte>)
    requires DecodePadded(rest) == Some(data)
    ensures DecodePadded(Group(x, y, z) + rest) == Some([x, y, z] + data)
  {
    CharRoundTrip(Six0(x));
    CharRoundTrip(Six1(x, y));
    CharRoundTrip(Six2(y, z));
    CharRoundTrip(Six3(z));
    GroupRoundTrip(x, y, z);
    var text := Group(x, y, z) + rest;
    assert text[4..] == rest;
    assert Sextets(text) == Some((Six0(x), Six1(x, y), Six2(y, z), Six3(z)));
  }

  lemma {:induction false} ShortRoundTrip(data: seq<Byte>)
    requires |data| <= 2
    ensures DecodePadded(EncodePadded(data)) == Some(data)
  {
    if |data| == 1 {
      DecodeOne(data[0]);
      assert data == [data[0]];
    } else if |data| == 2 {
      DecodeTwo(data[0], data[1]);
      assert data == [data[0], data[1]];
    }
  }

  lemma {:induction false} EncodeGroup(data: seq<Byte>)
    requires |data| >= 3
    ensures EncodePadded(data) == Group(data[0], data[1], data[2]) + EncodePadded(data[3..])
    ensures data == [data[0], data[1], data[2]] + data[3..]
  {
  }

  lemma {:induction false} PaddedRoundTrip(data: seq<Byte>)
    ensures DecodePadded(EncodePadded(data)) == Some(data)
    decreases |data|
  {
    if |data| <= 2 {
      ShortRoundTrip(data);
    } else {
      PaddedRoundTrip(data[3..]);
      DecodeGroup(data[0], data[1], data[2], EncodePadded(data[3..]), data[3..]);
      EncodeGroup(data);
    }
  }

  predicate InAlphabet(text: string) {
    forall i :: 0 <= i < |text| ==> ValueOf(text[i]).Some?
  }

  lemma {:induction false} CoresInAlphabet(x: Byte, y: Byte, z: Byte)
    ensures InAlphabet(Core1(x)) && InAlphabet(Core2(x, y)) && InAlphabet(Group(x, y, z))
    ensures Core1(x)[1] != '=' && Core2(x, y)[2] != '=' && Group(x, y, z)[3] != '='
  {
    CharRoundTrip(Six0(x));
    CharRoundTrip(Six1(x, 0));
    CharRoundTrip(Six1(x, y));
    CharRoundTrip(Six2(y, 0));
    CharRoundTrip(Six2(y, z));
    CharRoundTrip(Six3(z));
  }

  lemma {:induction false} StrippedAfter(head: string, tail: string)
    requires |head| == 4 && InAlphabet(head) && head[3] != '='
    requires InAlphabet(StripPadding(tail)) && tail == StripPadding(tail) + Padding(|StripPadding(tail)|)
    ensures InAlphabet(StripPadding(head + tail))
    ensures head + tail == StripPadding(head + tail) + Padding(|StripPadding(head + tail)|)
  {
    StripAfter(head, tail);
    var core := head + StripPadding(tail);
    assert Padding(|core|) == Padding(|StripPadding(tail)|);
    assert head + tail == core + Padding(|core|);
  }

  lemma {:induction false} StrippedCores(x: Byte, y: Byte)
    ensures StripPadding(Core1(x) + "==") == Core1(x) && Padding(|Core1(x)|) == "=="
    ensures StripPadding(Core2(x, y) + "=") == Core2(x, y) && Padding(|Core2(x, y)|) == "="
    ensures InAlphabet(Core1(x)) && InAlphabet(Core2(x, y))
  {
    CoresInAlphabet(x, y, 0);
    StripTwo(Core1(x));
    StripOne(Core2(x, y));
  }

  /** Stripping removes exactly the padding, which the length alone determines. */
  lemma {:induction false} StrippedShape(data: seq<Byte>)
    ensures InAlphabet(Encode(data))
    ensures EncodePadded(data) == Encode(data) + Padding(|Encode(data)|)
    decreases |data|
  {
    if |data| == 0 {
      assert Padding(0) == "";
    } else if |data| == 1 {
      StrippedCores(data[0], 0);
    } else if |data| == 2 {
      StrippedCores(data[0], data[1]);
    } else {
      StrippedShape(data[3..]);
      CoresInAlphabet(data[0], data[1], data[2]);
      StrippedAfter(Group(data[0], data[1], data[2]), EncodePadded(data[3..]));
    }
  }

  lemma {:induction false} StripOne(core: string)
    requires core != "" && core[|core| - 1] != '='
    ensures StripPadding(core + ['=']) == core
  {
    assert (core + ['='])[..|core|] == core;
  }

  lemma {:induction false} StripTwo(core: string)
    requires core != "" && core[|core| - 1] != '='
    ensures StripPadding(core + ['=', '=']) == core
  {
    assert (core + ['=', '='])[..|core| + 1] == core + ['='];
    StripOne(core);
  }

  lemma {:induction false} StripAfter(head: string, tail: string)
    requires head != "" && head[|head| - 1] != '='
    ensures StripPadding(head + tail) == head + StripPadding(tail)
    decreases |tail|
  {
    if tail == "" {
      assert head + tail == head;
    } else if tail[|tail| - 1] == '=' {
      assert (head + tail)[..|head + tail| - 1] == head + tail[..|tail| - 1];
      StripAfter(head, tail[..|tail| - 1]);
    }
  }

  /** Base64url without padding decodes back to the original for every byte string. */
  lemma {:induction false} EncodeRoundTrip(data: seq<Byte>)
    ensures Decode(Encode(data)) == Some(data)
  {
    StrippedShape(data);
    PaddedRoundTrip(data);
  }

  /** The bits of a group stay in order: three bytes and their four sextets are the same 24-bit number. */
  lemma {:induction false} GroupIsNumber(x: Byte, y: Byte, z: Byte)
    ensures (x * 256 + y) * 256 + z == ((Six0(x) * 64 + Six1(x, y)) * 64 + Six2(y, z)) * 64 + Six3(z)
    ensures Group(x, y, z) == [CharOf(Six0(x)), CharOf(Six1(x, y)), CharOf(Six2(y, z)), CharOf(Six3(z))]
  {
  }

  // ------------------------------------------------------------------ tokens

  /** `text.split(".", 1)`, or None when there is no dot. */
  function SplitAtDot(text: string): Option<(string, string)> {
    if text == "" then None
    else if text[0] == '.' then Some(("", text[1..]))
    else
      match SplitAtDot(text[1..])
      case None => None
      case Some((a, b)) => Some(([text[0]] + a, b))
  }

  lemma {:induction false} SplitRecovers(a: string, b: string)
    requires '.' !in a
    ensures SplitAtDot(a + "." + b) == Some((a, b))
    decreases |a|
  {
    if a == "" {
      assert a + "." + b == "." + b;
      assert ("." + b)[1..] == b;
    } else {
      assert (a + "." + b)[1..] == a[1..] + "." + b;
      SplitRecovers(a[1..], b);
      assert a == [a[0]] + a[1..];
    }
  }

  function Sign(mac: seq<Byte> -> seq<Byte>, render: A.Claims -> seq<Byte>, claims: A.Claims): string {
    Encode(render(claims)) + "." + Encode(mac(render(claims)))
  }

  /** The text part of `verify_and_consume`: None is MALFORMED_TOKEN or INVALID_SIGNATURE. */
  function Open(mac: seq<Byte> -> seq<Byte>, parse: seq<Byte> -> Option<A.Claims>, text: string): Option<A.Claims> {
    match SplitAtDot(text)
    case None => None
    case Some((payloadPart, signaturePart)) =>
      match (Decode(payloadPart), Decode(signaturePart))
      case (Some(payload), Some(supplied)) => if supplied == mac(payload) then parse(payload) else None
      case _ => None
  }

  /**
   Whatever the HMAC and the rendering, as long as rendered claims parse back: the text of
   signed claims opens to exactly those claims.
   */
  lemma {:induction false} SignedTextOpens(mac: seq<Byte> -> seq<Byte>, render: A.Claims -> seq<Byte>, parse: seq<Byte> -> Option<A.Claims>,
                        claims: A.Claims)
    requires parse(render(claims)) == Some(claims)
    ensures Open(mac, parse, Sign(mac, render, claims)) == Some(claims)
  {
    var payload := render(claims);
    StrippedShape(payload);
    assert '.' !in Encode(payload);
    SplitRecovers(Encode(payload), Encode(mac(payload)));
    EncodeRoundTrip(payload);
    EncodeRoundTrip(mac(payload));
  }

  /**
   A text opens to claims only when it is two parts around a first dot, the second decodes to
   the MAC of what the first decodes to, and that parses to the claims.
   */
  lemma {:induction false} OpensExactly(mac: seq<Byte> -> seq<Byte>, parse: seq<Byte> -> Option<A.Claims>, text: string, claims: A.Claims)
    ensures Open(mac, parse, text) == Some(claims) <==>
      exists first: string, second: string :: text == first + "." + second && '.' !in first && Opens(mac, parse, first, second, claims)
  {
    SplitIs(text);
    if first: string, second: string :| text == first + "." + second && '.' !in first && Opens(mac, parse, first, second, claims) {
      SplitRecovers(first, second);
    }
  }

  predicate Opens(mac: seq<Byte> -> seq<Byte>, parse: seq<Byte> -> Option<A.Claims>, first: string, second: string, claims: A.Claims) {
    && Decode(first).Some? && Decode(second) == Some(mac(Decode(first).value)) && parse(Decode(first).value) == Some(claims)
  }

  lemma {:induction false} SplitIs(text: string)
    ensures match SplitAtDot(text)
            case None => '.' !in text
            case Some((first, second)) => text == first + "." + second && '.' !in first
    decreases |text|
  {
    if text != "" && text[0] != '.' {
      SplitIs(text[1..]);
      assert text == [text[0]] + text[1..];
    }
  }

  /**
   A token text the issuer made with a lifetime of 1 to 300 seconds is accepted, before any
   use, exactly from 30 seconds before its issue time until just before its expiry, at the
   adapter of its channel and for its own tenant, contact, version and content.
   */
  lemma {:induction false} IssuedTextVerifiesExactlyInItsWindow(
    mac: seq<Byte> -> seq<Byte>, render: A.Claims -> seq<Byte>, parse: seq<Byte> -> Option<A.Claims>,
    issuer: string, maxDecisionAge: int, decision: A.Decision, request: A.Policy.Request, audience: A.Audience, ttl: int,
    now: real, jti: string, presentedTo: A.Audience, command: A.Command, clock: real)
    requires forall c :: parse(render(c)) == Some(c)
    requires A.Issue(issuer, maxDecisionAge, decision, request, audience, ttl, now, jti).Ok?
    ensures var claims := A.Issue(issuer, maxDecisionAge, decision, request, audience, ttl, now, jti).value;
      var opened' := Open(mac, parse, Sign(mac, render, claims));
      && opened' == Some(claims)
      && (A.Verify(issuer, A.Signed(opened'.value), presentedTo, command, clock) == Ok(claims) <==>
            && presentedTo == A.AdapterFor(request.channel)
            && command == A.Command(request.tenant, request.contact, request.versionId, request.contentHash)
            && now.Floor - 30 <= clock.Floor < now.Floor + ttl)
  {
    var claims := A.Issue(issuer, maxDecisionAge, decision, request, audience, ttl, now, jti).value;
    SignedTextOpens(mac, render, parse, claims);
    A.IssuedTokenVerifiesExactlyInItsWindow(issuer, maxDecisionAge, decision, request, audience, ttl, now, jti,
                                            presentedTo, command, clock);
  }
}
