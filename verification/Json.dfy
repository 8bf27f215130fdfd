/**
 Parsed JSON documents and the text operations the release gate applies to them.

 `str(value)` of an array or object is carried in the value (`repr`). The Unicode string
 methods are parameters, with the few laws the proofs use; the ASCII versions obey them.
 */
module Json {
  import opened Common

  datatype Json =
    | Null
    | Bool(flag: bool)
    | Num(text: string)
    | Str(chars: string)
    | Arr(items: seq<Json>, repr: string)
    | Obj(fields: map<string, Json>, repr: string)

  type Fields = map<string, Json>

  function Text(j: Json): string {
    match j
    case Null => "None"
    case Bool(flag) => if flag then "True" else "False"
    case Num(text) => text
    case Str(chars) => chars
    case Arr(_, repr) => repr
    case Obj(_, repr) => repr
  }

  predicate Truthy(j: Json) {
    match j
    case Null => false
    case Bool(flag) => flag
    case Num(text) => text !in ["0", "0.0", "-0.0"]
    case Str(chars) => chars != ""
    case Arr(items, _) => items != []
    case Obj(fields, _) => fields != map[]
  }

  /** `o.get(key, default)` and `str(o.get(key, ""))`. */
  function Get(o: Fields, key: string, default: Json): Json {
    if key in o then o[key] else default
  }

  function GetText(o: Fields, key: string): string {
    Text(Get(o, key, Str("")))
  }

  /** What `for x in value` yields, or `None` when that raises. Characters and keys are never objects. */
  function Elements(j: Json): Option<seq<Json>> {
    match j
    case Arr(items, _) => Some(items)
    case Str(chars) => Some(seq(|chars|, i => Null))
    case Obj(fields, _) => Some(seq(|fields|, i => Null))
    case _ => None
  }

  datatype Texts = Texts(
    fold: string -> string,     // casefold
    upper: string -> string,
    strip: string -> string,
    n8n: string -> bool,        // the word n8n occurs
    latest: Fields -> bool,     // a mutable "latest" reference occurs
    published: string -> bool)  // an image reference pinned to a registry digest

  ghost predicate Lawful(t: Texts) {
    && t.upper("") == "" && t.strip("") == ""
    && (forall s :: t.fold(s) == "" <==> s == "")
    && (forall s :: t.fold(t.strip(s)) == t.strip(t.fold(s)))
    && (forall s :: IsHex64(s) ==> !t.n8n(s))
  }

  predicate IsHex64(s: string) {
    |s| == 64 && forall i :: 0 <= i < 64 ==> '0' <= s[i] <= '9' || 'a' <= s[i] <= 'f'
  }

  const PREFIX := "sha256:"

  predicate IsDigest(s: string) {
    |s| == 71 && s[..7] == PREFIX && IsHex64(s[7..])
  }

  function WithoutPrefix(s: string): string {
    if |s| >= 7 && s[..7] == PREFIX then s[7..] else s
  }

  /** The word n8n occurs in the serialized value. */
  ghost predicate Mentions(t: Texts, j: Json) {
    match j
    case Str(chars) => t.n8n(chars)
    case Arr(items, _) => exists i :: 0 <= i < |items| && Mentions(t, items[i])
    case Obj(fields, _) => exists k :: k in fields && (t.n8n(k) || Mentions(t, fields[k]))
    case _ => false
  }

  /** All texts of a value, at any depth: keys and strings. */
  ghost function TextsIn(j: Json): set<string> {
    match j
    case Str(chars) => {chars}
    case Arr(items, _) => set i, s | 0 <= i < |items| && s in TextsIn(items[i]) :: s
    case Obj(fields, _) => fields.Keys + set k, s | k in fields && s in TextsIn(fields[k]) :: s
    case _ => {}
  }

  /** The word is found exactly when one of the texts has it. */
  lemma {:induction false} MentionsExactly(t: Texts, j: Json)
    ensures Mentions(t, j) <==> exists s :: s in TextsIn(j) && t.n8n(s)
    decreases j
  {
    match j
    case Arr(items, _) =>
      forall i | 0 <= i < |items|
        ensures Mentions(t, items[i]) <==> exists s :: s in TextsIn(items[i]) && t.n8n(s)
      {
        MentionsExactly(t, items[i]);
      }
    case Obj(fields, _) =>
      forall k | k in fields
        ensures Mentions(t, fields[k]) <==> exists s :: s in TextsIn(fields[k]) && t.n8n(s)
      {
        MentionsExactly(t, fields[k]);
      }
    case Str(chars) => assert chars in TextsIn(j);
    case _ =>
  }

  // ------------------------------------------------------------------ ASCII

  function StripLeft(s: string): string {
    if s != "" && IsSpace(s[0]) then StripLeft(s[1..]) else s
  }

  function StripRight(s: string): string {
    if s != "" && IsSpace(s[|s| - 1]) then StripRight(s[..|s| - 1]) else s
  }

  function Strip(s: string): string {
    StripRight(StripLeft(s))
  }

  /** Stripping takes exactly the spaces at both ends. */
  lemma {:induction false} StripIs(s: string)
    ensures exists before: string, after: string :: s == before + Strip(s) + after && AllSpace(before) && AllSpace(after)
    ensures Strip(s) != "" ==> !IsSpace(Strip(s)[0]) && !IsSpace(Strip(s)[|Strip(s)| - 1])
  {
    var before := StripLeftIs(s);
    var after := StripRightIs(StripLeft(s));
    assert s == before + Strip(s) + after;
  }

  predicate AllSpace(s: string) {
    forall c :: c in s ==> IsSpace(c)
  }

  lemma {:induction false} StripLeftIs(s: string) returns (before: string)
    ensures s == before + StripLeft(s) && AllSpace(before)
    ensures StripLeft(s) != "" ==> !IsSpace(StripLeft(s)[0])
    decreases |s|
  {
    before := "";
    if s != "" && IsSpace(s[0]) {
      var rest := StripLeftIs(s[1..]);
      before := [s[0]] + rest;
    }
  }

  lemma {:induction false} StripRightIs(s: string) returns (after: string)
    ensures s == StripRight(s) + after && AllSpace(after) && StripRight(s) <= s
    ensures StripRight(s) != "" ==> !IsSpace(StripRight(s)[|StripRight(s)| - 1])
    decreases |s|
  {
    after := "";
    if s != "" && IsSpace(s[|s| - 1]) {
      var rest := StripRightIs(s[..|s| - 1]);
      after := rest + [s[|s| - 1]];
    }
  }

  lemma {:induction false} LowerStripLeft(s: string)
    ensures Lower(StripLeft(s)) == StripLeft(Lower(s))
    decreases |s|
  {
    if s != "" && IsSpace(s[0]) {
      LowerStripLeft(s[1..]);
      assert Lower(s)[1..] == Lower(s[1..]);
    }
  }

  lemma {:induction false} LowerStripRight(s: string)
    ensures Lower(StripRight(s)) == StripRight(Lower(s))
    decreases |s|
  {
    if s != "" && IsSpace(s[|s| - 1]) {
      LowerStripRight(s[..|s| - 1]);
      assert Lower(s)[..|s| - 1] == Lower(s[..|s| - 1]);
    }
  }

  /** The ASCII operations obey the laws. */
  lemma {:induction false} AsciiIsLawful(n8n: string -> bool, latest: Fields -> bool, published: string -> bool)
    requires forall s :: IsHex64(s) ==> !n8n(s)
    ensures Lawful(Texts(Lower, Upper, Strip, n8n, latest, published))
  {
    forall s
      ensures Lower(Strip(s)) == Strip(Lower(s))
    {
      LowerStripLeft(s);
      LowerStripRight(StripLeft(s));
    }
  }
}
