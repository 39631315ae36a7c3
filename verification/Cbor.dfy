/**
 * Bounded deterministic CBOR: definite lengths and shortest heads, as sections 3 and 4.2.1 of RFC 8949 ask.
 * A record is a list of items; each list has one encoding, and each encoding is of one list.
 */
module Cbor {
  import opened Types
  import opened Words

  // ----- big-endian numbers -----

  function Pow256(k: nat): (p: nat)
    ensures p > 0
  {
    if k == 0 then 1 else 256 * Pow256(k - 1)
  }

  function FromBytes(s: Bytes): nat {
    if s == [] then 0 else FromBytes(s[..|s| - 1]) * 256 + s[|s| - 1] as nat
  }

  function BigEndian(n: nat, k: nat): (s: Bytes)
    ensures |s| == k
  {
    if k == 0 then [] else BigEndian(n / 256, k - 1) + [(n % 256) as byte]
  }

  lemma {:induction false} FromBytesBound(s: Bytes)
    ensures FromBytes(s) < Pow256(|s|)
  {
    if s != [] { FromBytesBound(s[..|s| - 1]); }
  }

  lemma {:induction false} BigEndianParses(n: nat, k: nat)
    requires n < Pow256(k)
    ensures FromBytes(BigEndian(n, k)) == n
  {
    if k > 0 {
      BigEndianParses(n / 256, k - 1);
      var s := BigEndian(n, k);
      assert s[..k - 1] == BigEndian(n / 256, k - 1);
    }
  }

  lemma {:induction false} BytesPrint(s: Bytes)
    ensures BigEndian(FromBytes(s), |s|) == s
  {
    if s != [] {
      BytesPrint(s[..|s| - 1]);
      assert s == s[..|s| - 1] + [s[|s| - 1]];
    }
  }

  // ----- heads -----

  /** Bytes after the first one, for the shortest head. */
  function Width(n: u64): nat {
    if n < 24 then 0 else if n < 0x100 then 1 else if n < 0x1_0000 then 2 else if n < 0x1_0000_0000 then 4 else 8
  }

  function Tag(w: nat): nat { if w == 1 then 24 else if w == 2 then 25 else if w == 4 then 26 else 27 }

  function Head(major: nat, n: u64): (h: Bytes)
    requires major < 8
    ensures |h| == 1 + Width(n) && 1 <= |h| <= 9
  {
    if n < 24 then [(32 * major + n) as byte]
    else [(32 * major + Tag(Width(n))) as byte] + BigEndian(n, Width(n))
  }

  /** Extra bytes and least value for a tag. */
  function WidthOf(tag: nat): Option<(nat, nat)> {
    if tag == 24 then Some((1, 24)) else if tag == 25 then Some((2, 0x100)) else if tag == 26 then Some((4, 0x1_0000))
    else if tag == 27 then Some((8, 0x1_0000_0000)) else None
  }

  /** The number and length of the head a sequence starts with. */
  function ParseHead(s: Bytes, major: nat): (r: Option<(u64, nat)>)
    ensures r.Some? ==> 1 <= r.value.1 <= |s|
  {
    if s == [] || s[0] as nat / 32 != major then None
    else
      var tag := s[0] as nat % 32;
      if tag < 24 then Some((tag, 1))
      else if WidthOf(tag).None? then None
      else
        var (w, least) := WidthOf(tag).value;
        if |s| < 1 + w then None
        else
          WordBound(s[1..1 + w]);
          var n := FromBytes(s[1..1 + w]);
          if n < least then None else Some((n, 1 + w))
  }

  lemma WordBound(s: Bytes)
    requires |s| <= 8
    ensures FromBytes(s) < 0x1_0000_0000_0000_0000
  {
    FromBytesBound(s);
    Pow256Up(|s|);
  }

  lemma Pow256Up(k: nat)
    requires k <= 8
    ensures Pow256(k) <= 0x1_0000_0000_0000_0000
    ensures Pow256(1) == 0x100 && Pow256(2) == 0x1_0000 && Pow256(4) == 0x1_0000_0000 && Pow256(8) == 0x1_0000_0000_0000_0000
  {
    assert Pow256(3) == 0x100_0000 && Pow256(4) == 0x1_0000_0000;
    assert Pow256(5) == 0x100_0000_0000 && Pow256(6) == 0x1_0000_0000_0000;
    assert Pow256(7) == 0x100_0000_0000_0000 && Pow256(8) == 0x1_0000_0000_0000_0000;
  }

  /** Print, then parse: the head comes back whatever follows it. */
  lemma HeadParses(major: nat, n: u64, rest: Bytes)
    requires major < 8
    ensures ParseHead(Head(major, n) + rest, major) == Some((n, |Head(major, n)|))
  {
    hide BigEndian, FromBytes;
    var h, s, w := Head(major, n), Head(major, n) + rest, Width(n);
    assert s[0] == h[0];
    if n >= 24 {
      WideHead(major, n, rest);
      LeastFits(n);
      hide Head, WidthOf, Tag, Width;
      TagOf(s[0] as nat, major, Tag(w));
    }
  }

  lemma TagOf(b: nat, major: nat, tag: nat)
    requires b == 32 * major + tag && 24 <= tag < 32
    ensures b / 32 == major && b % 32 == tag
  {
  }

  lemma WideHead(major: nat, n: u64, rest: Bytes)
    requires major < 8 && n >= 24
    ensures
      var s, w := Head(major, n) + rest, Width(n);
      s[0] as nat == 32 * major + Tag(w) && |s| >= 1 + w && s[1..1 + w] == BigEndian(n, w) && FromBytes(s[1..1 + w]) == n
  {
    var s, w := Head(major, n) + rest, Width(n);
    assert s[1..1 + w] == BigEndian(n, w);
    Pow256Up(w);
    BigEndianParses(n, w);
  }

  lemma LeastFits(n: u64)
    requires n >= 24
    ensures 24 <= Tag(Width(n)) < 32 && WidthOf(Tag(Width(n))).Some?
    ensures WidthOf(Tag(Width(n))).value.1 <= n && WidthOf(Tag(Width(n))).value.0 == Width(n)
  {
  }

  /** Parse, then print: only the shortest head is accepted. */
  lemma ParsedIsHead(s: Bytes, major: nat)
    requires major < 8 && ParseHead(s, major).Some?
    ensures
      var (n, k) := ParseHead(s, major).value;
      Head(major, n) == s[..k]
  {
    var (n, k) := ParseHead(s, major).value;
    if k > 1 {
      FromBytesBound(s[1..k]);
      Pow256Up(k - 1);
      assert Width(n) == k - 1;
      BytesPrint(s[1..k]);
      assert s[..k] == [s[0]] + s[1..k];
    }
  }

  // ----- items -----

  /** A byte string whose length fits a head. */
  type Small = b: Bytes | |b| < 0x1_0000_0000 witness []

  datatype Item = Uint(n: u64) | Array(n: u64) | Blob(bytes: Small) | Text(bytes: Small)

  function Major(i: Item): nat { match i case Uint(_) => 0 case Array(_) => 4 case Blob(_) => 2 case Text(_) => 3 }

  function PrintItem(i: Item): (s: Bytes)
    ensures |s| > 0
  {
    match i
    case Uint(n) => Head(0, n)
    case Array(n) => Head(4, n)
    case Blob(b) => Head(2, |b|) + b
    case Text(b) => Head(3, |b|) + b
  }

  function Print(items: seq<Item>): Bytes {
    if items == [] then [] else PrintItem(items[0]) + Print(items[1..])
  }

  lemma {:induction false} PrintJoin(a: seq<Item>, b: seq<Item>)
    ensures Print(a + b) == Print(a) + Print(b)
  {
    hide PrintItem;
    if a == [] {
      assert a + b == b;
    } else {
      PrintJoin(a[1..], b);
      assert (a + b)[0] == a[0] && (a + b)[1..] == a[1..] + b;
    }
  }

  /** The first item of a printed list parses back, whatever follows; and its bytes are consumed exactly. */
  lemma ItemParses(i: Item, rest: Bytes)
    ensures
      var s := PrintItem(i) + rest;
      match i
      case Uint(n) => ParseHead(s, 0) == Some((n, |PrintItem(i)|))
      case Array(n) => ParseHead(s, 4) == Some((n, |PrintItem(i)|))
      case Blob(b) => ParseHead(s, 2).Some? && ParseHead(s, 2).value.0 == |b|
                      && ParseHead(s, 2).value.1 + |b| == |PrintItem(i)| && s[ParseHead(s, 2).value.1..|PrintItem(i)|] == b
      case Text(b) => ParseHead(s, 3).Some? && ParseHead(s, 3).value.0 == |b|
                      && ParseHead(s, 3).value.1 + |b| == |PrintItem(i)| && s[ParseHead(s, 3).value.1..|PrintItem(i)|] == b
  {
    hide ParseHead, Head;
    match i
    case Uint(n) => HeadParses(0, n, rest);
    case Array(n) => HeadParses(4, n, rest);
    case Blob(b) => StringParses(2, b, rest);
    case Text(b) => StringParses(3, b, rest);
  }

  lemma StringParses(major: nat, b: Small, rest: Bytes)
    requires major < 8
    ensures
      var s, k := Head(major, |b|) + b + rest, |Head(major, |b|)|;
      ParseHead(s, major) == Some((|b|, k)) && s[k..k + |b|] == b
  {
    HeadParses(major, |b|, b + rest);
    assert Head(major, |b|) + b + rest == Head(major, |b|) + (b + rest);
  }

  lemma FirstByte(i: Item)
    ensures PrintItem(i)[0] as nat / 32 == Major(i)
  {
  }

  /** Items are prefix-free: what two printed lists start with is the same item. */
  lemma ItemUnique(i: Item, j: Item, a: Bytes, b: Bytes)
    requires PrintItem(i) + a == PrintItem(j) + b
    ensures i == j && a == b
  {
    hide ParseHead, Head, PrintItem;
    FirstByte(i);
    FirstByte(j);
    assert (PrintItem(i) + a)[0] == PrintItem(i)[0] && (PrintItem(j) + b)[0] == PrintItem(j)[0];
    ItemParses(i, a);
    ItemParses(j, b);
    assert a == (PrintItem(i) + a)[|PrintItem(i)|..];
    assert b == (PrintItem(j) + b)[|PrintItem(j)|..];
  }

  /** No two lists of items print to the same bytes. */
  lemma {:induction false} PrintUnique(a: seq<Item>, b: seq<Item>)
    requires Print(a) == Print(b)
    ensures a == b
  {
    hide PrintItem;
    if a != [] && b != [] {
      ItemUnique(a[0], b[0], Print(a[1..]), Print(b[1..]));
      PrintUnique(a[1..], b[1..]);
      assert a == [a[0]] + a[1..] && b == [b[0]] + b[1..];
    }
  }

  // ----- the writer -----

  class Writer {
    var out: Bytes
    ghost var items: seq<Item>

    ghost predicate Valid()
      reads this
    {
      out == Print(items)
    }

    constructor ()
      ensures Valid() && items == []
    {
      out, items := [], [];
    }

    method WriteHead(major: nat, n: u64)
      requires major < 8
      modifies `out
      ensures out == old(out) + Head(major, n)
    {
      var tag := major * 32;
      if n < 24 {
        out := out + [(tag + n) as byte];
      } else if n < 0x100 {
        out := out + [(tag + 24) as byte] + BigEndian(n, 1);
      } else if n < 0x1_0000 {
        out := out + [(tag + 25) as byte] + BigEndian(n, 2);
      } else if n < 0x1_0000_0000 {
        out := out + [(tag + 26) as byte] + BigEndian(n, 4);
      } else {
        out := out + [(tag + 27) as byte] + BigEndian(n, 8);
      }
    }

    method WriteArray(n: u64)
      requires Valid()
      modifies this
      ensures Valid() && items == old(items) + [Array(n)]
    {
      hide Head;
      WriteHead(4, n);
      OneMore(items, Array(n));
      items := items + [Array(n)];
    }

    method WriteUint(n: u64)
      requires Valid()
      modifies this
      ensures Valid() && items == old(items) + [Uint(n)]
    {
      hide Head;
      WriteHead(0, n);
      OneMore(items, Uint(n));
      items := items + [Uint(n)];
    }

    method WriteBlob(b: Small)
      requires Valid()
      modifies this
      ensures Valid() && items == old(items) + [Blob(b)]
    {
      hide Head;
      WriteHead(2, |b|);
      out := out + b;
      OneMore(items, Blob(b));
      assert old(out) + Head(2, |b|) + b == old(out) + PrintItem(Blob(b));
      items := items + [Blob(b)];
    }

    method WriteText(b: Small)
      requires Valid()
      modifies this
      ensures Valid() && items == old(items) + [Text(b)]
    {
      hide Head;
      WriteHead(3, |b|);
      out := out + b;
      OneMore(items, Text(b));
      assert old(out) + Head(3, |b|) + b == old(out) + PrintItem(Text(b));
      items := items + [Text(b)];
    }
  }

  lemma OneMore(items: seq<Item>, i: Item)
    ensures Print(items + [i]) == Print(items) + PrintItem(i)
  {
    hide PrintItem;
    PrintJoin(items, [i]);
    assert Print([i]) == PrintItem(i) + Print([]);
  }

  // ----- the reader -----

  /** After a prefix of its items, a printed list goes on with the next one. */
  lemma NextItem(input: Bytes, pos: nat, items: seq<Item>, goal: seq<Item>)
    requires pos <= |input| && input[..pos] == Print(items) && Print(goal) == input
    requires items <= goal && |items| < |goal|
    ensures input[pos..] == PrintItem(goal[|items|]) + Print(goal[|items| + 1..])
  {
    hide PrintItem;
    var rest := goal[|items|..];
    assert goal == items + rest && rest[1..] == goal[|items| + 1..];
    PrintJoin(items, rest);
    assert input == input[..pos] + input[pos..];
  }

  /** A parsed item extends the list that was read. */
  lemma ReadOne(input: Bytes, pos: nat, items: seq<Item>, i: Item, pos': nat)
    requires pos <= pos' <= |input| && input[..pos] == Print(items) && input[pos..pos'] == PrintItem(i)
    ensures input[..pos'] == Print(items + [i])
  {
    hide PrintItem;
    OneMore(items, i);
    assert input[..pos'] == input[..pos] + input[pos..pos'];
  }

  lemma NextBlob(input: Bytes, pos: nat, items: seq<Item>, goal: seq<Item>)
    requires pos <= |input| && input[..pos] == Print(items) && Print(goal) == input
    requires items <= goal && |items| < |goal| && goal[|items|].Blob?
    ensures
      var s, b := input[pos..], goal[|items|].bytes;
      && ParseHead(s, 2).Some? && ParseHead(s, 2).value.0 == |b| && ParseHead(s, 2).value.1 + |b| <= |s|
      && s[ParseHead(s, 2).value.1..ParseHead(s, 2).value.1 + |b|] == b
  {
    hide ParseHead, Head, Print;
    NextItem(input, pos, items, goal);
    ItemParses(goal[|items|], Print(goal[|items| + 1..]));
  }

  lemma NextText(input: Bytes, pos: nat, items: seq<Item>, goal: seq<Item>)
    requires pos <= |input| && input[..pos] == Print(items) && Print(goal) == input
    requires items <= goal && |items| < |goal| && goal[|items|].Text?
    ensures
      var s, b := input[pos..], goal[|items|].bytes;
      && ParseHead(s, 3).Some? && ParseHead(s, 3).value.0 == |b| && ParseHead(s, 3).value.1 + |b| <= |s|
      && s[ParseHead(s, 3).value.1..ParseHead(s, 3).value.1 + |b|] == b
  {
    hide ParseHead, Head, Print;
    NextItem(input, pos, items, goal);
    ItemParses(goal[|items|], Print(goal[|items| + 1..]));
  }

  /**
   * Reads items one by one. `goal` is a list of items the input prints, if there is one; following it, no read fails.
   */
  class Reader {
    const input: Bytes
    var pos: nat
    ghost var items: seq<Item>
    ghost const goal: Option<seq<Item>>

    ghost predicate Valid()
      reads this
    {
      pos <= |input| && input[..pos] == Print(items) && (goal.Some? ==> Print(goal.value) == input)
    }

    ghost predicate Follows()
      reads this
    {
      goal.Some? && items <= goal.value
    }

    /** The next item on the goal list. */
    ghost predicate Expects(i: Item)
      reads this
    {
      Follows() && |items| < |goal.value| && goal.value[|items|] == i
    }

    constructor (input: Bytes, ghost goal: Option<seq<Item>>)
      requires goal.Some? ==> Print(goal.value) == input
      ensures Valid() && items == [] && this.input == input && this.goal == goal
    {
      this.input, this.pos, this.items, this.goal := input, 0, [], goal;
    }

    method ReadByte() returns (r: Result<byte, DurableError>)
      modifies `pos
      ensures r == if old(pos) < |input| then Ok(input[old(pos)]) else Err(InvalidInput)
      ensures pos == if r.Ok? then old(pos) + 1 else old(pos)
    {
      if pos >= |input| { return Err(InvalidInput); }
      pos := pos + 1;
      return Ok(input[pos - 1]);
    }

    /** One head of the given major type; a longer head than needed is refused. */
    method Value(major: nat) returns (r: Result<u64, DurableError>)
      requires pos <= |input|
      modifies `pos
      ensures old(pos) <= pos <= |input|
      ensures
        var parsed := ParseHead(input[old(pos)..], major);
        if parsed.Some? then r == Ok(parsed.value.0) && pos == old(pos) + parsed.value.1 else r == Err(InvalidInput)
    {
      var start := pos;
      ghost var s := input[start..];
      var first := ReadByte();
      if first.Err? { return Err(InvalidInput); }
      if first.value as nat / 32 != major { return Err(InvalidInput); }
      var tag := first.value as nat % 32;
      if tag < 24 { return Ok(tag); }
      var shape := WidthOf(tag);
      if shape.None? { return Err(InvalidInput); }
      var (n, least) := shape.value;
      var value: nat := 0;
      assert input[start + 1..start + 1] == [];
      for i := 0 to n
        invariant pos == start + 1 + i <= |input| && value == FromBytes(input[start + 1..pos])
      {
        var b := ReadByte();
        if b.Err? { return Err(InvalidInput); }
        assert input[start + 1..pos][..i] == input[start + 1..pos - 1];
        value := value * 256 + b.value as nat;
      }
      assert input[start + 1..pos] == s[1..1 + n];
      WordBound(s[1..1 + n]);
      if value < least { return Err(InvalidInput); }
      return Ok(value);
    }

    method ReadUint() returns (r: Result<u64, DurableError>)
      requires Valid()
      modifies this
      ensures r.Ok? ==> Valid() && items == old(items) + [Uint(r.value)]
      ensures forall n: u64 :: old(Expects(Uint(n))) ==> r == Ok(n)
      ensures r.Ok? && old(Expects(Uint(r.value))) ==> Follows()
    {
      hide ParseHead, Head, Print;
      ghost var s, start := input[pos..], pos;
      if Follows() && |items| < |goal.value| {
        NextItem(input, pos, items, goal.value);
        ItemParses(goal.value[|items|], Print(goal.value[|items| + 1..]));
      }
      r := Value(0);
      if r.Ok? {
        ParsedIsHead(s, 0);
        assert input[start..pos] == s[..pos - start];
        ReadOne(input, start, items, Uint(r.value), pos);
        items := items + [Uint(r.value)];
      }
    }

    method ReadCount(max: u64) returns (r: Result<u64, DurableError>)
      requires Valid()
      modifies this
      ensures r.Ok? ==> Valid() && items == old(items) + [Array(r.value)] && r.value <= max
      ensures forall n: u64 :: old(Expects(Array(n))) && n <= max ==> r == Ok(n)
      ensures r.Ok? && old(Expects(Array(r.value))) ==> Follows()
    {
      hide ParseHead, Head, Print;
      ghost var s, start := input[pos..], pos;
      if Follows() && |items| < |goal.value| {
        NextItem(input, pos, items, goal.value);
        ItemParses(goal.value[|items|], Print(goal.value[|items| + 1..]));
      }
      r := Value(4);
      if r.Ok? {
        if r.value > max { return Err(InvalidInput); }
        ParsedIsHead(s, 4);
        assert input[start..pos] == s[..pos - start];
        ReadOne(input, start, items, Array(r.value), pos);
        items := items + [Array(r.value)];
      }
    }

    method ReadArray(expected: u64) returns (r: Result<(), DurableError>)
      requires Valid()
      modifies this
      ensures r.Ok? ==> Valid() && items == old(items) + [Array(expected)]
      ensures old(Expects(Array(expected))) ==> r.Ok? && Follows()
    {
      var n := ReadCount(expected);
      if n.Err? { return Err(InvalidInput); }
      if n.value != expected { return Err(InvalidInput); }
      return Ok(());
    }

    /** The bytes of a string of the given major type, none longer than max. */
    method ReadString(major: nat, max: nat) returns (r: Result<Small, DurableError>)
      requires pos <= |input| && major < 8 && max < 0x1_0000_0000
      modifies `pos
      ensures old(pos) <= pos <= |input|
      ensures r.Ok? ==> |r.value| <= max && input[old(pos)..pos] == Head(major, |r.value|) + r.value
      ensures
        var s := input[old(pos)..];
        var parsed := ParseHead(s, major);
        parsed.Some? && parsed.value.0 <= max && parsed.value.1 + parsed.value.0 <= |s| ==>
          r == Ok(s[parsed.value.1..parsed.value.1 + parsed.value.0])
    {
      hide ParseHead, Head;
      ghost var s, start := input[pos..], pos;
      var n := Value(major);
      if n.Err? { return Err(InvalidInput); }
      ParsedIsHead(s, major);
      if n.value > max { return Err(InvalidInput); }
      var end := pos + n.value;
      if end > |input| { return Err(InvalidInput); }
      var b := input[pos..end];
      assert input[start..end] == input[start..pos] + b && input[start..pos] == s[..pos - start];
      assert b == s[pos - start..end - start];
      pos := end;
      return Ok(b);
    }

    method ReadBlob(max: nat) returns (r: Result<Small, DurableError>)
      requires Valid() && max < 0x1_0000_0000
      modifies this
      ensures r.Ok? ==> Valid() && items == old(items) + [Blob(r.value)] && |r.value| <= max
      ensures forall b: Small :: old(Expects(Blob(b))) && |b| <= max ==> r == Ok(b)
      ensures r.Ok? && old(Expects(Blob(r.value))) ==> Follows()
    {
      hide ParseHead, Head, Print;
      ghost var start, before := pos, items;
      r := ReadString(2, max);
      if Follows() && |items| < |goal.value| && goal.value[|items|].Blob? {
        NextBlob(input, start, items, goal.value);
      }
      if r.Ok? {
        ReadOne(input, start, items, Blob(r.value), pos);
        items := items + [Blob(r.value)];
      }
    }

    method ReadText(max: nat) returns (r: Result<Small, DurableError>)
      requires Valid() && max < 0x1_0000_0000
      modifies this
      ensures r.Ok? ==> Valid() && items == old(items) + [Text(r.value)] && |r.value| <= max
      ensures forall b: Small :: old(Expects(Text(b))) && |b| <= max ==> r == Ok(b)
      ensures r.Ok? && old(Expects(Text(r.value))) ==> Follows()
    {
      hide ParseHead, Head, Print;
      ghost var start, before := pos, items;
      r := ReadString(3, max);
      if Follows() && |items| < |goal.value| && goal.value[|items|].Text? {
        NextText(input, start, items, goal.value);
      }
      if r.Ok? {
        ReadOne(input, start, items, Text(r.value), pos);
        items := items + [Text(r.value)];
      }
    }

    /** A byte string of exactly n bytes. */
    method ReadFixed(n: nat) returns (r: Result<Small, DurableError>)
      requires Valid() && n < 0x1_0000_0000
      modifies this
      ensures r.Ok? ==> Valid() && items == old(items) + [Blob(r.value)] && |r.value| == n
      ensures forall b: Small :: old(Expects(Blob(b))) && |b| == n ==> r == Ok(b)
      ensures r.Ok? && old(Expects(Blob(r.value))) ==> Follows()
    {
      r := ReadBlob(n);
      if r.Ok? && |r.value| != n { return Err(InvalidInput); }
    }

    method End() returns (r: Result<(), DurableError>)
      requires Valid()
      ensures r.Ok? ==> input == Print(items)
      ensures Follows() && items == goal.value ==> r.Ok?
      ensures r.Err? ==> r.error == InvalidInput
    {
      if pos != |input| { return Err(InvalidInput); }
      return Ok(());
    }
  }

  // ----- fields shared by the record formats -----

  type Id32 = b: Bytes | |b| == 32 witness seq(32, _ => 0)

  function Blobs(list: seq<Small>): (items: seq<Item>)
    ensures |items| == |list|
  {
    seq(|list|, i requires 0 <= i < |list| => Blob(list[i]))
  }

  lemma BlobsUnique(a: seq<Small>, b: seq<Small>)
    requires Blobs(a) == Blobs(b)
    ensures a == b
  {
    assert |a| == |Blobs(a)| == |Blobs(b)| == |b|;
    forall i | 0 <= i < |a| ensures a[i] == b[i] { assert Blobs(a)[i] == Blob(a[i]) && Blobs(b)[i] == Blob(b[i]); }
  }

  function Size(items: seq<Item>): nat { |Print(items)| }

  lemma SizeJoin(a: seq<Item>, b: seq<Item>)
    ensures Size(a + b) == Size(a) + Size(b)
  {
    PrintJoin(a, b);
  }

  lemma {:induction false} SizeOfBlobs(list: seq<Id32>)
    ensures Size(Blobs(list)) == 34 * |list|
  {
    if list != [] {
      SizeOfBlobs(list[1..]);
      assert Blobs(list)[1..] == Blobs(list[1..]);
      assert Blobs(list)[0] == Blob(list[0]);
    }
  }

  lemma PrintThree(a: Item, b: Item, c: Item)
    ensures Print([a, b, c]) == PrintItem(a) + PrintItem(b) + PrintItem(c)
  {
    hide PrintItem;
    assert [a, b, c][1..] == [b, c] && [b, c][1..] == [c] && [c][1..] == [];
    assert Print([c]) == PrintItem(c) + Print([]);
  }

  /** No string longer than k. */
  predicate Short(items: seq<Item>, k: nat) {
    forall i :: i in items ==> (i.Blob? || i.Text? ==> |i.bytes| <= k)
  }

  /** Heads cost at most nine bytes each. */
  lemma {:induction false} SizeBound(items: seq<Item>, k: nat)
    requires Short(items, k)
    ensures Size(items) <= (9 + k) * |items|
  {
    hide PrintItem;
    if items != [] {
      var rest := items[1..];
      assert items[0] in items;
      SizeBound(rest, k);
      ItemSize(items[0]);
      assert Size(items) == |PrintItem(items[0])| + Size(rest);
      Product(9 + k, |rest|);
    }
  }

  lemma Product(a: nat, n: nat)
    ensures a * (n + 1) == a * n + a
  {
  }

  lemma ItemSize(i: Item)
    ensures |PrintItem(i)| <= 9 + if i.Blob? || i.Text? then |i.bytes| else 0
  {
  }

  lemma NoBlobs(start: seq<Item>)
    ensures start + Blobs([]) == start
  {
  }

  lemma OneMoreBlob(start: seq<Item>, list: seq<Small>, i: nat)
    requires i < |list|
    ensures start + Blobs(list[..i]) + [Blob(list[i])] == start + Blobs(list[..i + 1])
  {
    assert Blobs(list[..i + 1]) == Blobs(list[..i]) + [Blob(list[i])];
  }

  method WriteBlobs(w: Writer, list: seq<Small>)
    requires w.Valid()
    modifies w
    ensures w.Valid() && w.items == old(w.items) + Blobs(list)
  {
    hide Print, Blobs;
    ghost var start := w.items;
    NoBlobs(start);
    for i := 0 to |list|
      invariant w.Valid() && w.items == start + Blobs(list[..i])
    {
      w.WriteBlob(list[i]);
      OneMoreBlob(start, list, i);
    }
    assert list[..|list|] == list;
  }

  // ----- reading by schema -----

  /** What a field may be: an array of a fixed length or at most a length, the version, a number, or a bounded string. */
  datatype Kind = Fixed(n: u64) | AtMost(max: u64) | Chars(max: u64) | Number | Version | ArrayOf(n: u64) | Count(max: u64)

  predicate FitsKind(i: Item, k: Kind) {
    match k
    case Fixed(n) => i.Blob? && |i.bytes| == n
    case AtMost(max) => i.Blob? && |i.bytes| <= max
    case Chars(max) => i.Text? && |i.bytes| <= max
    case Number => i.Uint?
    case Version => i == Uint(1)
    case ArrayOf(n) => i == Array(n)
    case Count(max) => i.Array? && i.n <= max
  }

  predicate Fit(items: seq<Item>, kinds: seq<Kind>) {
    |items| == |kinds| && forall i :: 0 <= i < |items| ==> FitsKind(items[i], kinds[i])
  }

  predicate Readable(k: Kind) {
    match k
    case Fixed(n) => n < 0x1_0000_0000
    case AtMost(max) => max < 0x1_0000_0000
    case Chars(max) => max < 0x1_0000_0000
    case _ => true
  }

  method ReadField(reader: Reader, k: Kind) returns (r: Result<Item, DurableError>)
    requires reader.Valid() && Readable(k)
    modifies reader
    ensures r.Ok? ==> reader.Valid() && FitsKind(r.value, k) && reader.items == old(reader.items) + [r.value]
    ensures forall i :: old(reader.Expects(i)) && FitsKind(i, k) ==> r == Ok(i) && reader.Follows()
    ensures r.Err? ==> r.error in {InvalidInput, UnsupportedSchema}
  {
    match k {
      case Fixed(n) =>
        var b := reader.ReadFixed(n);
        if b.Err? { return Err(InvalidInput); }
        return Ok(Blob(b.value));
      case AtMost(max) =>
        var b := reader.ReadBlob(max);
        if b.Err? { return Err(InvalidInput); }
        return Ok(Blob(b.value));
      case Chars(max) =>
        var b := reader.ReadText(max);
        if b.Err? { return Err(InvalidInput); }
        return Ok(Text(b.value));
      case Number =>
        var n := reader.ReadUint();
        if n.Err? { return Err(InvalidInput); }
        return Ok(Uint(n.value));
      case Version =>
        var n := reader.ReadUint();
        if n.Err? { return Err(InvalidInput); }
        if n.value != 1 { return Err(UnsupportedSchema); }
        return Ok(Uint(1));
      case ArrayOf(n) =>
        var a := reader.ReadArray(n);
        if a.Err? { return Err(InvalidInput); }
        return Ok(Array(n));
      case Count(max) =>
        var n := reader.ReadCount(max);
        if n.Err? { return Err(InvalidInput); }
        return Ok(Array(n.value));
    }
  }

  /** Fields one after the other. When `wanted` comes next on the goal list, exactly it is read. */
  method ReadFields(reader: Reader, kinds: seq<Kind>, ghost wanted: seq<Item>) returns (r: Result<seq<Item>, DurableError>)
    requires reader.Valid() && forall k :: k in kinds ==> Readable(k)
    requires reader.Follows() ==> Fit(wanted, kinds) && reader.items + wanted <= reader.goal.value
    modifies reader
    ensures r.Ok? ==> reader.Valid() && Fit(r.value, kinds) && reader.items == old(reader.items) + r.value
    ensures old(reader.Follows()) ==> r == Ok(wanted) && reader.Follows()
    ensures r.Err? ==> r.error in {InvalidInput, UnsupportedSchema}
  {
    hide FitsKind, Readable;
    var read: seq<Item> := [];
    ghost var start, following := reader.items, reader.Follows();
    for i := 0 to |kinds|
      invariant reader.Valid() && |read| == i && Fit(read, kinds[..i]) && reader.items == start + read
      invariant following ==> reader.Follows() && read == wanted[..i] && start + wanted <= reader.goal.value && Fit(wanted, kinds)
    {
      if following { ItemOnGoal(start, wanted, i, reader.goal.value); }
      var item := ReadField(reader, kinds[i]);
      if item.Err? { return Err(item.error); }
      assert start + read + [item.value] == start + (read + [item.value]);
      read := read + [item.value];
    }
    assert kinds[..|kinds|] == kinds;
    if following { assert wanted[..|kinds|] == wanted; }
    return Ok(read);
  }

  lemma ItemOnGoal(start: seq<Item>, wanted: seq<Item>, i: nat, goal: seq<Item>)
    requires i < |wanted| && start + wanted <= goal
    ensures |start| + i < |goal| && goal[|start| + i] == wanted[i]
    ensures wanted[..i + 1] == wanted[..i] + [wanted[i]]
    ensures start + wanted[..i] + [wanted[i]] <= goal
  {
    assert (start + wanted)[|start| + i] == wanted[i];
    assert start + wanted[..i] + [wanted[i]] == (start + wanted)[..|start| + i + 1];
  }

  function Repeat(k: Kind, n: nat): (kinds: seq<Kind>)
    ensures |kinds| == n && forall i :: 0 <= i < n ==> kinds[i] == k
  {
    seq(n, _ => k)
  }

  /** The byte strings of a list of 32-byte fields. */
  function Ids(items: seq<Item>): (ids: seq<Id32>)
    requires Fit(items, Repeat(Fixed(32), |items|))
    ensures |ids| == |items| && Blobs(ids) == items
  {
    seq(|items|, i requires 0 <= i < |items| => items[i].bytes)
  }

  /** The byte strings of a list of fields of at most a length. */
  function Strings(items: seq<Item>, max: u64): (list: seq<Small>)
    requires Fit(items, Repeat(AtMost(max), |items|))
    ensures |list| == |items| && Blobs(list) == items && forall i :: 0 <= i < |list| ==> |list[i]| <= max
  {
    seq(|items|, i requires 0 <= i < |items| => items[i].bytes)
  }

  function Uints(list: seq<u64>): (items: seq<Item>)
    ensures |items| == |list| && Fit(items, Repeat(Number, |list|))
  {
    seq(|list|, i requires 0 <= i < |list| => Uint(list[i]))
  }

  function Numbers(items: seq<Item>): (list: seq<u64>)
    requires Fit(items, Repeat(Number, |items|))
    ensures |list| == |items| && Uints(list) == items
  {
    seq(|items|, i requires 0 <= i < |items| => items[i].n)
  }

  lemma UintsUnique(a: seq<u64>, b: seq<u64>)
    requires Uints(a) == Uints(b)
    ensures a == b
  {
    assert |a| == |Uints(a)| == |Uints(b)| == |b|;
    forall i | 0 <= i < |a| ensures a[i] == b[i] { assert Uints(a)[i] == Uint(a[i]) && Uints(b)[i] == Uint(b[i]); }
  }

  lemma NoUints(start: seq<Item>)
    ensures start + Uints([]) == start
  {
  }

  lemma OneMoreUint(start: seq<Item>, list: seq<u64>, i: nat)
    requires i < |list|
    ensures start + Uints(list[..i]) + [Uint(list[i])] == start + Uints(list[..i + 1])
  {
    assert Uints(list[..i + 1]) == Uints(list[..i]) + [Uint(list[i])];
  }

  method WriteUints(w: Writer, list: seq<u64>)
    requires w.Valid()
    modifies w
    ensures w.Valid() && w.items == old(w.items) + Uints(list)
  {
    hide Print, Uints;
    ghost var start := w.items;
    NoUints(start);
    for i := 0 to |list|
      invariant w.Valid() && w.items == start + Uints(list[..i])
    {
      w.WriteUint(list[i]);
      OneMoreUint(start, list, i);
    }
    assert list[..|list|] == list;
  }
}
