/** Cutting a sequence into pieces of one size. */
module Chunking {

  function Flatten<T>(cs: seq<seq<T>>): seq<T> {
    if cs == [] then [] else cs[0] + Flatten(cs[1..])
  }

  /** Pieces of the given size, the last one possibly shorter; none for the empty sequence. */
  function Chunks<T>(s: seq<T>, size: nat): (cs: seq<seq<T>>)
    requires size > 0
    decreases |s|
  {
    if s == [] then []
    else if |s| <= size then [s]
    else [s[..size]] + Chunks(s[size..], size)
  }

  /** The pieces join to the whole; all are full but the last, and none is empty. */
  lemma {:induction false} ChunksJoin<T>(s: seq<T>, size: nat)
    requires size > 0
    ensures
      var cs := Chunks(s, size);
      && Flatten(cs) == s
      && (forall i :: 0 <= i < |cs| ==> 0 < |cs[i]| <= size && (i < |cs| - 1 ==> |cs[i]| == size))
    decreases |s|
  {
    var cs := Chunks(s, size);
    if s == [] {
    } else if |s| <= size {
      assert Flatten(cs) == s + Flatten<T>([]);
    } else {
      var rest := Chunks(s[size..], size);
      ChunksJoin(s[size..], size);
      assert cs == [s[..size]] + rest && cs[1..] == rest;
      assert s == s[..size] + s[size..];
    }
  }

  /** As many pieces as the size needs. */
  lemma {:induction false} ChunkCount<T>(s: seq<T>, size: nat)
    requires size > 0
    ensures |s| <= |Chunks(s, size)| * size < |s| + size
    decreases |s|
  {
    if |s| > size {
      ChunkCount(s[size..], size);
    }
  }

  /** Piece i starts at i times the size. */
  lemma {:induction false} ChunkAt<T>(s: seq<T>, size: nat, i: nat)
    requires size > 0 && i < |Chunks(s, size)|
    ensures
      var start := i * size;
      start < |s| && Chunks(s, size)[i] == s[start..if start + size < |s| then start + size else |s|]
    decreases i
  {
    if i > 0 {
      ChunkAt(s[size..], size, i - 1);
      assert (i - 1) * size + size == i * size;
    }
  }
}
