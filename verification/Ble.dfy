/** Segmentation of one framed record over Bluetooth writes, and the assembler on the other side. */
module BleSegmentation {
  import opened Types
  import opened Chunking

  const MARKER: byte := 0x4D
  const HEADER: nat := 4
  const MAX_WIRE: nat := 4163

  predicate Framed(n: nat) { 3 <= n <= MAX_WIRE }

  // ----- cutting -----

  function Payload(maximumWrite: int): (p: nat)
    ensures p > 0
  {
    if maximumWrite - HEADER < 1 then 1 else maximumWrite - HEADER
  }

  function Flags(first: bool, last: bool): byte { (if first then 1 else 0) + (if last then 2 else 0) }

  function Fragment(total: nat, flags: byte, chunk: Bytes): Bytes
    requires Framed(total)
  {
    [MARKER, flags, (total / 256) as byte, (total % 256) as byte] + chunk
  }

  /** The Swift form: a stride over the offsets. */
  function Strides(frame: Bytes, payload: nat, offset: nat): seq<Bytes>
    requires Framed(|frame|) && payload > 0
    decreases |frame| - offset
  {
    if offset >= |frame| then []
    else
      var count := if payload < |frame| - offset then payload else |frame| - offset;
      [Fragment(|frame|, Flags(offset == 0, offset + count == |frame|), frame[offset..offset + count])] + Strides(frame, payload, offset + payload)
  }

  function SwiftSplit(frame: Bytes, maximumWrite: int): Option<seq<Bytes>> {
    if Framed(|frame|) then Some(Strides(frame, Payload(maximumWrite), 0)) else None
  }

  /** The Kotlin form: fixed chunks, flagged by their index. */
  function Indexed(frame: Bytes, payload: nat): seq<Bytes>
    requires Framed(|frame|) && payload > 0
  {
    var cs := Chunks(frame, payload);
    seq(|cs|, i requires 0 <= i < |cs| => Piece(frame, payload, i, cs[i]))
  }

  function Piece(frame: Bytes, payload: nat, i: nat, chunk: Bytes): Bytes
    requires Framed(|frame|)
  {
    Fragment(|frame|, Flags(i == 0, (i + 1) * payload >= |frame|), chunk)
  }

  function KotlinSplit(frame: Bytes, maximumWrite: int): Option<seq<Bytes>> {
    if Framed(|frame|) then Some(Indexed(frame, Payload(maximumWrite))) else None
  }

  lemma {:induction false} StridesAt(frame: Bytes, payload: nat, k: nat)
    requires Framed(|frame|) && payload > 0 && k <= |Chunks(frame, payload)|
    ensures Strides(frame, payload, k * payload) == Indexed(frame, payload)[k..]
    decreases |Chunks(frame, payload)| - k
  {
    hide Chunks, Fragment;
    var cs := Chunks(frame, payload);
    ChunkCount(frame, payload);
    if k < |cs| {
      StridesAt(frame, payload, k + 1);
      ChunkAt(frame, payload, k);
      assert (k + 1) * payload == k * payload + payload;
      assert k == 0 <==> k * payload == 0 by { if k > 0 { Times(k, payload); } }
    }
  }

  lemma Times(k: nat, p: nat)
    requires k > 0
    ensures k * p >= p
  {
  }

  /** The two platforms cut every frame alike, whatever the write size. */
  lemma SplitsAgree(frame: Bytes, maximumWrite: int)
    ensures SwiftSplit(frame, maximumWrite) == KotlinSplit(frame, maximumWrite)
  {
    if Framed(|frame|) { StridesAt(frame, Payload(maximumWrite), 0); }
  }

  /**
   * The bytes of fragment k: the marker, one flag for the first and another for the last, the length of the whole frame, and then the
   * part of the frame from k times the payload on, of which every write but the last is full. There are as many as that takes.
   */
  lemma FragmentLayout(frame: Bytes, maximumWrite: int, k: nat)
    requires 3 <= |frame| <= 4163 && k < |SwiftSplit(frame, maximumWrite).value|
    ensures
      var p, all := (if maximumWrite > 5 then maximumWrite - 4 else 1), SwiftSplit(frame, maximumWrite).value;
      var f, from, to := all[k], k * p, if k + 1 < |all| then (k + 1) * p else |frame|;
      && (|all| - 1) * p < |frame| <= |all| * p && from < to <= |frame| && to - from <= p
      && |f| > 4 && f[0] == 0x4d && f[1] as nat == (if k == 0 then 1 else 0) + (if k + 1 == |all| then 2 else 0)
      && f[2] as nat * 256 + f[3] as nat == |frame| && f[4..] == frame[from..to]
  {
    var p := Payload(maximumWrite);
    SplitsAgree(frame, maximumWrite);
    ChunkCount(frame, p);
    ChunkAt(frame, p, k);
    ChunkAt(frame, p, |Chunks(frame, p)| - 1);
    LastPiece(frame, p, k);
    hide Chunks;
    assert (k + 1) * p == k * p + p;
    assert |frame| / 256 * 256 + |frame| % 256 == |frame|;
  }

  // ----- assembling -----

  datatype State = State(expected: nat, bytes: Bytes)

  const IDLE: State := State(0, [])

  predicate Starts(f: Bytes) { |f| > 1 && f[1] as nat % 2 == 1 }

  predicate Ends(f: Bytes) { |f| > 1 && f[1] as nat / 2 % 2 == 1 }

  function Total(f: Bytes): nat { if |f| < HEADER then 0 else f[2] as nat * 256 + f[3] as nat }

  function Body(f: Bytes): Bytes { if |f| < HEADER then [] else f[HEADER..] }

  predicate Readable(f: Bytes) { |f| > HEADER && f[0] == MARKER && Framed(Total(f)) }

  function OnFragment(s: State, f: Bytes): (State, Option<Bytes>) {
    if !Readable(f) then (IDLE, None)
    else
      var t := if Starts(f) then State(Total(f), []) else s;
      if t.expected != Total(f) || |t.bytes| + |Body(f)| > t.expected then (IDLE, None)
      else if !Ends(f) then (State(t.expected, t.bytes + Body(f)), None)
      else (IDLE, if |t.bytes + Body(f)| == t.expected then Some(t.bytes + Body(f)) else None)
  }

  /** All answers to a run of fragments, and the state after it. */
  function Feed(s: State, fs: seq<Bytes>): (State, seq<Option<Bytes>>) {
    if fs == [] then (s, [])
    else
      var (t, answers) := Feed(s, fs[..|fs| - 1]);
      var (t', answer) := OnFragment(t, fs[|fs| - 1]);
      (t', answers + [answer])
  }

  function Quiet(n: nat): seq<Option<Bytes>> { seq(n, _ => None) }

  lemma FragmentRead(frame: Bytes, payload: nat, i: nat)
    requires Framed(|frame|) && payload > 0 && i < |Chunks(frame, payload)|
    ensures
      var f := Indexed(frame, payload)[i];
      && Readable(f) && Total(f) == |frame| && (Starts(f) <==> i == 0) && (Ends(f) <==> i == |Chunks(frame, payload)| - 1)
      && Body(f) == Chunks(frame, payload)[i]
  {
    ChunksJoin(frame, payload);
    LastPiece(frame, payload, i);
    var chunk := Chunks(frame, payload)[i];
    var last := i == |Chunks(frame, payload)| - 1;
    FragmentParts(|frame|, i == 0, last, chunk);
    hide Chunks, Readable, Starts, Ends, Total, Body, Fragment, Flags;
    assert Piece(frame, payload, i, chunk) == Fragment(|frame|, Flags(i == 0, last), chunk);
    hide Piece;
    assert Indexed(frame, payload)[i] == Piece(frame, payload, i, chunk);
  }

  /** The index tells the last piece as the offset does. */
  lemma LastPiece(frame: Bytes, payload: nat, i: nat)
    requires payload > 0 && i < |Chunks(frame, payload)|
    ensures (i + 1) * payload >= |frame| <==> i == |Chunks(frame, payload)| - 1
  {
    ChunkCount(frame, payload);
    if i < |Chunks(frame, payload)| - 1 { ChunkAt(frame, payload, i + 1); }
  }

  lemma FragmentParts(total: nat, first: bool, last: bool, chunk: Bytes)
    requires Framed(total) && chunk != []
    ensures
      var f := Fragment(total, Flags(first, last), chunk);
      Readable(f) && Total(f) == total && (Starts(f) <==> first) && (Ends(f) <==> last) && Body(f) == chunk
  {
    assert total / 256 * 256 + total % 256 == total;
  }

  /** One fragment of the frame, after the ones before it. */
  lemma NextArrives(t: State, frame: Bytes, payload: nat, i: nat)
    requires Framed(|frame|) && payload > 0 && i < |Chunks(frame, payload)| && i * payload < |frame|
    requires i > 0 ==> t == State(|frame|, frame[..i * payload])
    ensures
      var r := OnFragment(t, Indexed(frame, payload)[i]);
      if i + 1 == |Chunks(frame, payload)| then r == (IDLE, Some(frame))
      else (i + 1) * payload < |frame| && r == (State(|frame|, frame[..(i + 1) * payload]), None)
  {
    FragmentRead(frame, payload, i);
    ChunkAt(frame, payload, i);
    ChunkCount(frame, payload);
    if i + 1 < |Chunks(frame, payload)| { ChunkAt(frame, payload, i + 1); }
    assert (i + 1) * payload == i * payload + payload;
    ContinuesAt(t, frame, i * payload, payload, Indexed(frame, payload)[i], i == 0, i + 1 == |Chunks(frame, payload)|);
  }

  lemma ContinuesAt(t: State, frame: Bytes, start: nat, payload: nat, f: Bytes, first: bool, last: bool)
    requires Framed(|frame|) && payload > 0 && start < |frame| && (first ==> start == 0)
    requires Readable(f) && Total(f) == |frame| && (Starts(f) <==> first) && (Ends(f) <==> last)
    requires if last then start + payload >= |frame| else start + payload < |frame|
    requires Body(f) == frame[start..if last then |frame| else start + payload]
    requires !first ==> t == State(|frame|, frame[..start])
    ensures OnFragment(t, f) == if last then (IDLE, Some(frame)) else (State(|frame|, frame[..start + payload]), None)
  {
    hide Readable, Starts, Ends, Total, Body;
    var to := if last then |frame| else start + payload;
    assert frame[..start] + frame[start..to] == frame[..to];
    assert first ==> [] + frame[start..to] == frame[..to];
    assert frame[..|frame|] == frame;
  }

  lemma {:induction false} PartArrives(s: State, frame: Bytes, payload: nat, k: nat)
    requires Framed(|frame|) && payload > 0 && k < |Chunks(frame, payload)|
    ensures k * payload < |frame|
    ensures Feed(s, Indexed(frame, payload)[..k]) == (if k == 0 then s else State(|frame|, frame[..k * payload]), Quiet(k))
  {
    if k == 0 {
      assert Indexed(frame, payload)[..0] == [] && Quiet(0) == [];
    } else {
      PartArrives(s, frame, payload, k - 1);
      NextArrives(Feed(s, Indexed(frame, payload)[..k - 1]).0, frame, payload, k - 1);
      hide Chunks, Indexed, OnFragment;
      FeedNext(s, Indexed(frame, payload), k - 1);
      assert Quiet(k) == Quiet(k - 1) + [None];
    }
  }

  lemma FeedNext(s: State, fs: seq<Bytes>, k: nat)
    requires k < |fs|
    ensures
      var (t, answers) := Feed(s, fs[..k]);
      var (t', answer) := OnFragment(t, fs[k]);
      Feed(s, fs[..k + 1]) == (t', answers + [answer])
  {
    hide OnFragment;
    assert fs[..k + 1][..k] == fs[..k] && fs[..k + 1][k] == fs[k];
  }

  /**
   * Whatever state the assembler was left in, the fragments of a frame in order give nothing until the last
   * and then exactly that frame, and leave the assembler idle.
   */
  lemma FrameArrives(s: State, frame: Bytes, maximumWrite: int)
    requires Framed(|frame|)
    ensures
      var fs := SwiftSplit(frame, maximumWrite).value;
      fs != [] && Feed(s, fs) == (IDLE, Quiet(|fs| - 1) + [Some(frame)])
  {
    var p := Payload(maximumWrite);
    SplitsAgree(frame, maximumWrite);
    ChunkCount(frame, p);
    var fs := Indexed(frame, p);
    PartArrives(s, frame, p, |fs| - 1);
    NextArrives(Feed(s, fs[..|fs| - 1]).0, frame, p, |fs| - 1);
    hide Indexed, Chunks, OnFragment;
    FeedNext(s, fs, |fs| - 1);
    assert fs[..|fs|] == fs;
  }

  // ----- exactly what comes out -----

  function Joined(g: seq<Bytes>): Bytes {
    if g == [] then [] else Joined(g[..|g| - 1]) + Body(g[|g| - 1])
  }

  /** Fragments of one record so far: one start, first; no end before the last; one total, not exceeded. */
  predicate Group(g: seq<Bytes>) {
    && g != [] && Starts(g[0])
    && (forall f <- g :: Readable(f) && Total(f) == Total(g[0]))
    && (forall i | 0 < i < |g| :: !Starts(g[i]))
    && (forall i | 0 <= i < |g| - 1 :: !Ends(g[i]))
    && |Joined(g)| <= Total(g[0])
  }

  predicate Whole(g: seq<Bytes>, record: Bytes) {
    Group(g) && Ends(g[|g| - 1]) && Joined(g) == record && |record| == Total(g[0])
  }

  predicate OpenAt(fs: seq<Bytes>, j: nat) { j < |fs| && Group(fs[j..]) && !Ends(fs[|fs| - 1]) }

  /** A group is a shorter group and one more fragment that continues it. */
  predicate Extends(g: seq<Bytes>, f: Bytes) {
    && Readable(f)
    && if g == [] then Starts(f) && |Body(f)| <= Total(f)
       else Group(g) && !Ends(g[|g| - 1]) && !Starts(f) && Total(f) == Total(g[0]) && |Joined(g)| + |Body(f)| <= Total(f)
  }

  lemma JoinedMore(g: seq<Bytes>, f: Bytes)
    ensures Joined(g + [f]) == Joined(g) + Body(f)
  {
    assert (g + [f])[..|g|] == g && (g + [f])[|g|] == f;
  }

  lemma GroupGrows(g: seq<Bytes>, f: Bytes)
    ensures Group(g + [f]) <==> Extends(g, f)
    ensures Joined(g + [f]) == Joined(g) + Body(f)
  {
    JoinedMore(g, f);
    if g == [] {
      EmptyJoin();
      assert g + [f] == [f] && [] + Body(f) == Body(f);
    } else {
      if Extends(g, f) { Extended(g, f); }
      if Group(g + [f]) { Shortened(g, f); }
    }
  }

  lemma Extended(g: seq<Bytes>, f: Bytes)
    requires g != [] && Extends(g, f)
    ensures Group(g + [f])
  {
    JoinedMore(g, f);
    hide Joined, Readable, Starts, Ends, Total, Body;
    var h := g + [f];
    assert h[0] == g[0];
    assert forall i | 0 < i < |h| :: i < |g| ==> h[i] == g[i];
    assert forall i | 0 <= i < |h| - 1 :: h[i] == g[i];
  }

  lemma Shortened(g: seq<Bytes>, f: Bytes)
    requires g != [] && Group(g + [f])
    ensures Extends(g, f)
  {
    JoinedMore(g, f);
    hide Joined, Readable, Starts, Ends, Total, Body;
    var h := g + [f];
    assert h[0] == g[0] && h[|g|] == f && h[|g| - 1] == g[|g| - 1];
    assert forall x <- g :: x in h;
    assert f in h && !Starts(h[|g|]) && !Ends(h[|g| - 1]);
    assert forall i | 0 < i < |g| :: h[i] == g[i] && !Starts(h[i]);
    assert forall i | 0 <= i < |g| - 1 :: h[i] == g[i] && !Ends(h[i]);
  }

  /** The state says which group, if any, is open. */
  ghost predicate Tracks(s: State, fs: seq<Bytes>) {
    && (s == IDLE || exists j :: OpenAt(fs, j))
    && forall j: nat | OpenAt(fs, j) :: s == State(Total(fs[j]), Joined(fs[j..]))
  }

  lemma {:induction false} FeedTracks(fs: seq<Bytes>)
    ensures Tracks(Feed(IDLE, fs).0, fs)
  {
    if fs != [] {
      var before, f := fs[..|fs| - 1], fs[|fs| - 1];
      FeedTracks(before);
      assert fs == before + [f];
      StepTracks(Feed(IDLE, before).0, before, f);
    }
  }

  lemma SuffixGrows(fs: seq<Bytes>, f: Bytes, j: nat)
    requires j <= |fs|
    ensures (fs + [f])[j..] == fs[j..] + [f]
    ensures Group((fs + [f])[j..]) <==>
            && Readable(f)
            && (if j == |fs| then Starts(f) && |Body(f)| <= Total(f)
                else OpenAt(fs, j) && !Starts(f) && Total(f) == Total(fs[j]) && |Joined(fs[j..])| + |Body(f)| <= Total(f))
    ensures Joined((fs + [f])[j..]) == Joined(fs[j..]) + Body(f)
  {
    hide Group, Joined, Readable, Starts, Ends, Total, Body;
    assert (fs + [f])[j..] == fs[j..] + [f];
    GroupGrows(fs[j..], f);
  }

  lemma StepTracks(s: State, fs: seq<Bytes>, f: Bytes)
    requires Tracks(s, fs)
    ensures Tracks(OnFragment(s, f).0, fs + [f])
  {
    hide Group, Joined, Readable, Starts, Ends, Total, Body;
    var all, s' := fs + [f], OnFragment(s, f).0;
    SuffixGrows(fs, f, |fs|);
    assert fs[|fs|..] == [] && Joined([]) == [] by { EmptyJoin(); }
    forall j: nat | j < |fs| ensures OpenAt(all, j) ==> s' == State(Total(all[j]), Joined(all[j..])) {
      SuffixGrows(fs, f, j);
      Positive(f);
    }
    if s' != IDLE {
      if Starts(f) {
        assert OpenAt(all, |fs|);
      } else {
        Positive(f);
        var j :| OpenAt(fs, j);
        SuffixGrows(fs, f, j);
        assert OpenAt(all, j);
      }
    }
  }

  lemma Positive(f: Bytes)
    ensures Readable(f) ==> Total(f) > 0
  {
  }

  lemma EmptyJoin()
    ensures Joined([]) == []
  {
  }

  /**
   * For any fragments at all, lost, repeated, reordered or foreign: a record comes out with a fragment just when
   * that fragment ends an unbroken group that starts with a start, agrees on its length, and joins to exactly that record.
   */
  lemma AssemblerExact(fs: seq<Bytes>, f: Bytes, record: Bytes)
    ensures OnFragment(Feed(IDLE, fs).0, f).1 == Some(record) <==> exists j: nat :: j <= |fs| && Whole((fs + [f])[j..], record)
  {
    FeedTracks(fs);
    AnswerExact(Feed(IDLE, fs).0, fs, f, record);
  }

  lemma AnswerExact(s: State, fs: seq<Bytes>, f: Bytes, record: Bytes)
    requires Tracks(s, fs)
    ensures OnFragment(s, f).1 == Some(record) <==> exists j: nat :: j <= |fs| && Whole((fs + [f])[j..], record)
  {
    hide Group, Joined, Readable, Starts, Ends, Total, Body;
    var all := fs + [f];
    EmptyJoin();
    SuffixGrows(fs, f, |fs|);
    assert fs[|fs|..] == [] && [] + Body(f) == Body(f);
    Positive(f);
    if OnFragment(s, f).1 == Some(record) {
      var j: nat := |fs|;
      if !Starts(f) {
        j :| OpenAt(fs, j);
        SuffixGrows(fs, f, j);
      }
      Last(fs, f, j);
      assert Whole(all[j..], record);
    }
    if j: nat :| j <= |fs| && Whole(all[j..], record) {
      SuffixGrows(fs, f, j);
      Last(fs, f, j);
    }
  }

  lemma Last(fs: seq<Bytes>, f: Bytes, j: nat)
    requires j <= |fs|
    ensures
      var g := (fs + [f])[j..];
      g[|g| - 1] == f && g[0] == if j == |fs| then f else fs[j]
  {
  }

  // ----- the assembler -----

  class Assembler {
    var expected: nat
    var bytes: Bytes

    ghost function View(): State
      reads this
    {
      State(expected, bytes)
    }

    constructor ()
      ensures View() == IDLE
    {
      expected, bytes := 0, [];
    }

    method Reset()
      modifies this
      ensures View() == IDLE
    {
      expected, bytes := 0, [];
    }

    method Accept(fragment: Bytes) returns (record: Option<Bytes>)
      modifies this
      ensures (View(), record) == OnFragment(old(View()), fragment)
    {
      if |fragment| <= HEADER || fragment[0] != MARKER { Reset(); return None; }
      var flags := fragment[1] as nat;
      var total := fragment[2] as nat * 256 + fragment[3] as nat;
      if !Framed(total) { Reset(); return None; }
      if flags % 2 != 0 { expected, bytes := total, []; }
      if expected != total || expected == 0 || |bytes| + |fragment| - HEADER > expected { Reset(); return None; }
      bytes := bytes + fragment[HEADER..];
      if flags / 2 % 2 == 0 { return None; }
      var output := if |bytes| == expected then Some(bytes) else None;
      Reset();
      return output;
    }
  }
}
