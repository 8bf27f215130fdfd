/** Small shared datatypes and text helpers. */
module Common {
  datatype Option<+T> = None | Some(value: T)

  datatype Result<+T, +E> = Ok(value: T) | Err(error: E)

  function Max0(x: int): (r: int)
    ensures r >= 0 && r >= x && (r == 0 || r == x)
  {
    if x < 0 then 0 else x
  }

  /** Python's `sub in text` for strings. */
  predicate Contains(text: string, sub: string) {
    sub <= text || (text != [] && Contains(text[1..], sub))
  }

  function LowerChar(c: char): char {
    if 'A' <= c <= 'Z' then ((c as int) + 32) as char else c
  }

  function UpperChar(c: char): char {
    if 'a' <= c <= 'z' then ((c as int) - 32) as char else c
  }

  /** ASCII `lower` and `upper`. */
  function Lower(s: string): string {
    seq(|s|, i requires 0 <= i < |s| => LowerChar(s[i]))
  }

  function Upper(s: string): string {
    seq(|s|, i requires 0 <= i < |s| => UpperChar(s[i]))
  }

  /** Upper-casing leaves no small letter, and what it changes are small letters; lower-casing gives them back. */
  lemma {:induction false} UpperFolds(s: string)
    ensures |Upper(s)| == |Lower(s)| == |s|
    ensures forall i :: 0 <= i < |s| ==> !('a' <= Upper(s)[i] <= 'z') && !('A' <= Lower(s)[i] <= 'Z')
    ensures forall i :: 0 <= i < |s| && !('a' <= s[i] <= 'z') ==> Upper(s)[i] == s[i]
    ensures forall i :: 0 <= i < |s| && !('A' <= s[i] <= 'Z') ==> Lower(s)[i] == s[i]
    ensures Lower(Upper(s)) == Lower(s) && Upper(Lower(s)) == Upper(s)
  {
  }

  /** A text contains another exactly when that is what is left of it between some beginning and some end. */
  lemma {:induction false} ContainsExactly(text: string, sub: string)
    ensures Contains(text, sub) <==> exists before: string, after: string :: text == before + sub + after
    decreases |text|
  {
    if sub <= text {
      assert text == "" + sub + text[|sub|..];
    } else if text != [] {
      ContainsExactly(text[1..], sub);
      if before: string, after: string :| text[1..] == before + sub + after {
        assert text == [text[0]] + before + sub + after;
      }
      if before: string, after: string :| text == before + sub + after {
        assert before != "";
        assert text[1..] == before[1..] + sub + after;
      }
    }
  }

  /** The ASCII characters `strip` removes. */
  predicate IsSpace(c: char) {
    c == ' ' || '\t' <= c <= '\r' || '\U{1c}' <= c <= '\U{1f}'
  }
}

/** Finite sums over the values of a map: the SQL aggregate over a filtered table. */
module Sums {
  ghost function Total<K>(m: map<K, int>): int
    decreases |m.Keys|
  {
    if m.Keys == {} then 0
    else
      var k :| k in m.Keys;
      assert (m - {k}).Keys == m.Keys - {k};
      m[k] + Total(m - {k})
  }

  /** The choice inside Total does not matter: any key can be split off. */
  lemma {:induction false} TotalRemove<K>(m: map<K, int>, k: K)
    requires k in m
    ensures Total(m) == m[k] + Total(m - {k})
    decreases |m.Keys|
  {
    var j :| j in m.Keys && Total(m) == m[j] + Total(m - {j});
    if j != k {
      assert (m - {j}).Keys == m.Keys - {j};
      assert (m - {k}).Keys == m.Keys - {k};
      TotalRemove(m - {j}, k);
      TotalRemove(m - {k}, j);
      assert m - {j} - {k} == m - {k} - {j};
    }
  }

  lemma {:induction false} TotalInsert<K>(m: map<K, int>, k: K, v: int)
    requires k !in m
    ensures Total(m[k := v]) == Total(m) + v
  {
    TotalRemove(m[k := v], k);
    assert m[k := v] - {k} == m;
  }

  function Part<K>(m: map<K, int>, part: set<K>): map<K, int> {
    map k | k in m && k in part :: m[k]
  }

  lemma {:induction false} PartWithout<K>(m: map<K, int>, part: set<K>, k: K)
    requires k in part
    ensures m - {k} - (part - {k}) == m - part
    ensures Part(m, part) - {k} == Part(m - {k}, part - {k})
  {
  }

  lemma {:induction false} TotalSplit<K>(m: map<K, int>, part: set<K>)
    requires part <= m.Keys
    ensures Total(m) == Total(m - part) + Total(Part(m, part))
    decreases |part|
  {
    if part == {} {
      assert m - part == m && Part(m, part) == map[];
    } else {
      var k :| k in part;
      TotalRemove(m, k);
      TotalRemove(Part(m, part), k);
      PartWithout(m, part, k);
      TotalSplit(m - {k}, part - {k});
    }
  }

  lemma {:induction false} TotalNonNegative<K>(m: map<K, int>)
    requires forall k :: k in m ==> m[k] >= 0
    ensures Total(m) >= 0
    decreases |m.Keys|
  {
    if m.Keys != {} {
      var k :| k in m.Keys;
      TotalRemove(m, k);
      assert (m - {k}).Keys == m.Keys - {k};
      TotalNonNegative(m - {k});
    }
  }
}
