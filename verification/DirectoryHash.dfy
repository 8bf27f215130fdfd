/**
 The directory digest of tools/compliance_gate.py: for each file in order, its path, a zero
 byte and the 32 bytes of its SHA-256. SHA-256 itself is taken as injective.
 */
module DirectoryHash {
  type Octet = b: int | 0 <= b < 256

  const DIGEST_BYTES := 32

  datatype File = File(path: seq<Octet>, digest: seq<Octet>)

  /** Paths of a file system hold no zero byte, and a digest has a fixed length. */
  predicate Proper(f: File) {
    0 !in f.path && |f.digest| == DIGEST_BYTES
  }

  function Chunk(f: File): seq<Octet> {
    f.path + [0] + f.digest
  }

  /** What the outer hash is fed. */
  function Stream(files: seq<File>): seq<Octet> {
    if files == [] then [] else Chunk(files[0]) + Stream(files[1..])
  }

  /** The stream is the files' one after the other, each its path, a zero byte and its 32 bytes of digest. */
  lemma {:induction false} StreamIsConcatenation(a: seq<File>, b: seq<File>, f: File)
    ensures Stream(a + b) == Stream(a) + Stream(b)
    ensures Stream([f]) == f.path + [0] + f.digest
    ensures Proper(f) ==> |Stream([f])| == |f.path| + 33
    decreases |a|
  {
    assert [f][1..] == [];
    if a == [] {
      assert a + b == b;
    } else {
      assert (a + b)[1..] == a[1..] + b;
      StreamIsConcatenation(a[1..], b, f);
    }
  }

  lemma {:induction false} ChunkSplits(f: File, g: File, x: seq<Octet>, y: seq<Octet>)
    requires Proper(f) && Proper(g) && Chunk(f) + x == Chunk(g) + y
    ensures f == g && x == y
  {
    var s := Chunk(f) + x;
    assert s == Chunk(g) + y;
    ZeroAt(f, x);
    ZeroAt(g, y);
    assert |f.path| == |g.path|;
    var n := |f.path|;
    assert f.path == s[..n] == g.path;
    assert f.digest == s[n + 1..n + 1 + DIGEST_BYTES] == g.digest;
    assert x == s[n + 1 + DIGEST_BYTES..] == y;
  }

  lemma {:induction false} ZeroAt(f: File, x: seq<Octet>)
    requires Proper(f)
    ensures var s := Chunk(f) + x; s[|f.path|] == 0 && forall i :: 0 <= i < |f.path| ==> s[i] != 0
  {
    var s := Chunk(f) + x;
    forall i | 0 <= i < |f.path|
      ensures s[i] != 0
    {
      assert s[i] == f.path[i] && f.path[i] in f.path;
    }
  }

  /** Two directories that hash the same bytes hold the same files with the same contents, in the same order. */
  lemma {:induction false} SameStreamSameFiles(a: seq<File>, b: seq<File>)
    requires (forall f :: f in a ==> Proper(f)) && (forall f :: f in b ==> Proper(f))
    requires Stream(a) == Stream(b)
    ensures a == b
    decreases |a|
  {
    if a != [] && b != [] {
      ChunkSplits(a[0], b[0], Stream(a[1..]), Stream(b[1..]));
      SameStreamSameFiles(a[1..], b[1..]);
      assert a == [a[0]] + a[1..] && b == [b[0]] + b[1..];
    } else {
      assert a != [] ==> Stream(a) != [];
      assert b != [] ==> Stream(b) != [];
    }
  }

  /** `sha256_directory`: the loop that feeds the outer hash. */
  method Feed(files: seq<File>) returns (fed: seq<Octet>)
    ensures fed == Stream(files)
  {
    fed := [];
    for i := 0 to |files|
      invariant fed + Stream(files[i..]) == Stream(files)
    {
      var rest := files[i + 1..];
      assert files[i..][1..] == rest;
      assert fed + (Chunk(files[i]) + Stream(rest)) == fed + Chunk(files[i]) + Stream(rest);
      fed := fed + files[i].path + [0];
      fed := fed + files[i].digest;
    }
  }
}
