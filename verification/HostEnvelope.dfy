/** The host's strict envelope decoder, as it runs, and the requests it sends. */
module HostEnvelopes {
  import opened Types
  import opened Words
  import opened Cbor
  import opened EventLogs
  import opened SnapshotCodec

  /** One shortest head at a position; the position after it. */
  method ReadHead(bytes: Bytes, start: nat, major: nat) returns (r: Option<u64>, pos: nat)
    requires start <= |bytes|
    ensures
      var parsed := ParseHead(bytes[start..], major);
      if parsed.Some? then r == Some(parsed.value.0) && pos == start + parsed.value.1 else r == None
    ensures r.Some? ==> start < pos <= |bytes|
  {
    ghost var s := bytes[start..];
    pos := start;
    if pos >= |bytes| || bytes[pos] as nat / 32 != major { return None, pos; }
    var tag := bytes[pos] as nat % 32;
    pos := pos + 1;
    if tag < 24 { return Some(tag), pos; }
    var shape := WidthOf(tag);
    if shape.None? { return None, pos; }
    var (n, least) := shape.value;
    var value: nat := 0;
    assert bytes[start + 1..start + 1] == [];
    for i := 0 to n
      invariant pos == start + 1 + i <= |bytes| && value == FromBytes(bytes[start + 1..pos])
    {
      if pos >= |bytes| { return None, pos; }
      assert bytes[start + 1..pos + 1][..i] == bytes[start + 1..pos];
      value := value * 256 + bytes[pos] as nat;
      pos := pos + 1;
    }
    assert bytes[start + 1..pos] == s[1..1 + n];
    WordBound(s[1..1 + n]);
    if value < least { return None, pos; }
    return Some(value), pos;
  }

  // ----- snapshots, on the host -----

  class Envelope {
    const bytes: Bytes
    var offset: nat

    ghost function Rest(): Bytes
      reads this
      requires offset <= |bytes|
    {
      bytes[offset..]
    }

    constructor (bytes: Bytes)
      ensures this.bytes == bytes && offset == 0
    {
      this.bytes, offset := bytes, 0;
    }

    method Value(major: nat) returns (r: Option<u64>)
      requires offset <= |bytes|
      modifies this
      ensures offset <= |bytes|
      ensures
        var t := Take(old(Rest()), major);
        if t.Some? then r == Some(t.value.0) && Rest() == t.value.1 else r == None
    {
      hide ParseHead;
      ghost var s := Rest();
      var n, next := ReadHead(bytes, offset, major);
      if n.None? || n.value > MAX_COUNTER { return None; }
      assert bytes[next..] == s[next - offset..];
      offset := next;
      return n;
    }

    method Values(majors: seq<Major>) returns (r: Option<seq<u64>>)
      requires offset <= |bytes|
      modifies this
      ensures offset <= |bytes|
      ensures
        var t := TakeAll(old(Rest()), majors);
        if t.Some? then r == Some(t.value.0) && Rest() == t.value.1 else r == None
    {
      hide Take;
      var ns: seq<u64> := [];
      ghost var goal := TakeAll(Rest(), majors);
      assert majors[0..] == majors;
      PrependedNone(goal);
      for i := 0 to |majors|
        invariant offset <= |bytes|
        invariant goal == Prepended(ns, TakeAll(Rest(), majors[i..]))
      {
        ghost var more := majors[i..];
        assert more[0] == majors[i] && more[1..] == majors[i + 1..];
        var n := Value(majors[i]);
        if n.None? { return None; }
        PrependedOnce(ns, n.value, TakeAll(Rest(), majors[i + 1..]));
        ns := ns + [n.value];
      }
      assert majors[|majors|..] == [] && ns + [] == ns;
      return Some(ns);
    }

    method ReadEvents(count: nat, cursor: u64) returns (r: Option<seq<Event>>)
      requires offset <= |bytes|
      modifies this
      ensures offset <= |bytes|
      ensures
        var t := TakeEvents(old(Rest()), count, None, cursor);
        if t.Some? then r == Some(t.value.0) && Rest() == t.value.1 else r == None
    {
      hide TakeAll;
      var events: seq<Event> := [];
      var previous: Option<u64> := None;
      ghost var goal := TakeEvents(Rest(), count, None, cursor);
      PrependedNone(goal);
      for i := 0 to count
        invariant offset <= |bytes|
        invariant goal == Prepended(events, TakeEvents(Rest(), count - i, previous, cursor))
      {
        var f := Values(EVENT);
        if f.None? || f.value[0] != 3 { return None; }
        var e := Event(f.value[1], f.value[2]);
        if f.value[3] != 0 || !Continues(e, previous, cursor) { return None; }
        previous := Some(e.sequence);
        PrependedOnce(events, e, TakeEvents(Rest(), count - i - 1, previous, cursor));
        events := events + [e];
      }
      assert events + [] == events;
      return Some(events);
    }

    /** The decoder as it runs computes the strict decoding. */
    method ReadSnapshot(op: u64) returns (r: Option<Snapshot>)
      requires offset == 0
      modifies this
      ensures r == Decoded(bytes, op)
    {
      hide TakeAll, Take, TakeEvents;
      if |bytes| > MAX_ENVELOPE { return None; }
      var f := Values(PREFIX);
      if f.None? || !PrefixFits(f.value, op) { return None; }
      if offset >= |bytes| { return None; }
      var flag := bytes[offset];
      if flag != 0xF4 && flag != 0xF5 { return None; }
      assert Rest()[0] == flag && Rest()[1..] == bytes[offset + 1..];
      offset := offset + 1;
      var count := Value(4);
      if count.None? || count.value > MAX_EVENTS { return None; }
      var events := ReadEvents(count.value, f.value[5]);
      if events.None? || (flag == 0xF5 && events.value != []) || offset != |bytes| { return None; }
      return Some(Snapshot(f.value[4], f.value[5], f.value[6], flag == 0xF5, events.value));
    }
  }

  function Prepended<T>(first: seq<T>, r: Option<(seq<T>, Bytes)>): Option<(seq<T>, Bytes)> {
    if r.None? then None else Some((first + r.value.0, r.value.1))
  }

  lemma PrependedNone<T>(r: Option<(seq<T>, Bytes)>)
    ensures Prepended([], r) == r
  {
    if r.Some? { assert [] + r.value.0 == r.value.0; }
  }

  lemma PrependedOnce<T>(first: seq<T>, x: T, r: Option<(seq<T>, Bytes)>)
    ensures Prepended(first, Prepended([x], r)) == Prepended(first + [x], r)
  {
    if r.Some? { assert first + ([x] + r.value.0) == first + [x] + r.value.0; }
  }

  // ----- requests -----

  datatype Command = EngineInfo | Subscribe(cursor: u64) | VerifyBridge(request: u64)

  datatype RequestError = InvalidArgument | IncompatibleVersion

  predicate Legal(c: Command) {
    match c
    case EngineInfo => true
    case Subscribe(cursor) => cursor <= MAX_COUNTER
    case VerifyBridge(request) => 0 < request <= MAX_COUNTER
  }

  function Op(c: Command): u64 { match c case EngineInfo => 0 case Subscribe(_) => 1 case VerifyBridge(_) => 2 }

  function Argument(c: Command): u64 { match c case EngineInfo => 0 case Subscribe(n) => n case VerifyBridge(n) => n }

  /** Three numbers in an array of three. */
  function Triple(version: u64, op: u64, argument: u64): Bytes {
    [0x83] + Head(0, version) + Head(0, op) + Head(0, argument)
  }

  function Next(s: Bytes): Option<(u64, Bytes)> {
    var p := ParseHead(s, 0);
    if p.None? then None else Some((p.value.0, s[p.value.1..]))
  }

  function Untriple(b: Bytes): Option<(u64, u64, u64)> {
    if b == [] || b[0] != 0x83 then None
    else
      var v := Next(b[1..]);
      if v.None? then None
      else
        var m := Next(v.value.1);
        if m.None? then None
        else
          var a := Next(m.value.1);
          if a.None? || a.value.1 != [] then None else Some((v.value.0, m.value.0, a.value.0))
  }

  function OnRequest(b: Bytes): Result<Command, RequestError> {
    var t := Untriple(b);
    if |b| > MAX_INPUT || t.None? || t.value.2 > MAX_COUNTER then Err(InvalidArgument)
    else if t.value.0 != 1 then Err(IncompatibleVersion)
    else if t.value.1 == 0 && t.value.2 == 0 then Ok(EngineInfo)
    else if t.value.1 == 1 then Ok(Subscribe(t.value.2))
    else if t.value.1 == 2 && t.value.2 > 0 then Ok(VerifyBridge(t.value.2))
    else Err(InvalidArgument)
  }

  lemma NextExact(s: Bytes, n: u64, rest: Bytes)
    ensures Next(s) == Some((n, rest)) <==> s == Head(0, n) + rest
  {
    hide Head, ParseHead;
    if s == Head(0, n) + rest { HeadParses(0, n, rest); }
    if Next(s) == Some((n, rest)) {
      ParsedIsHead(s, 0);
      var k := ParseHead(s, 0).value.1;
      assert s == s[..k] + s[k..];
    }
  }

  lemma UntripleExact(b: Bytes, v: u64, m: u64, a: u64)
    ensures Untriple(b) == Some((v, m, a)) <==> b == Triple(v, m, a)
  {
    hide Head, Next;
    if b == Triple(v, m, a) {
      assert b[1..] == Head(0, v) + (Head(0, m) + Head(0, a));
      assert Head(0, a) + [] == Head(0, a);
      NextExact(b[1..], v, Head(0, m) + Head(0, a));
      NextExact(Head(0, m) + Head(0, a), m, Head(0, a));
      NextExact(Head(0, a), a, []);
    }
    if Untriple(b) == Some((v, m, a)) {
      var s := Next(b[1..]).value.1;
      var t := Next(s).value.1;
      NextExact(b[1..], v, s);
      NextExact(s, m, t);
      NextExact(t, a, []);
      assert t == Head(0, a);
      assert b == [b[0]] + b[1..];
      assert [b[0]] + (Head(0, v) + (Head(0, m) + Head(0, a))) == Triple(v, m, a);
    }
  }

  /** A request decodes to a command just when it is that command's encoding. */
  lemma RequestExact(b: Bytes, c: Command)
    ensures OnRequest(b) == Ok(c) <==> Legal(c) && b == Triple(1, Op(c), Argument(c))
  {
    hide Untriple, Triple;
    TripleSize(1, Op(c), Argument(c));
    UntripleExact(b, 1, Op(c), Argument(c));
  }

  /** A wrong version is named only for input that is readable otherwise. */
  lemma VersionExact(b: Bytes)
    ensures OnRequest(b) == Err(IncompatibleVersion) <==>
            |b| <= MAX_INPUT && exists v: u64, m: u64, a: u64 :: v != 1 && a <= MAX_COUNTER && b == Triple(v, m, a)
  {
    hide Untriple, Triple;
    if Untriple(b).Some? {
      var (v, m, a) := Untriple(b).value;
      UntripleExact(b, v, m, a);
    }
    if v: u64, m: u64, a: u64 :| v != 1 && a <= MAX_COUNTER && b == Triple(v, m, a) { UntripleExact(b, v, m, a); }
  }

  lemma TripleSize(v: u64, m: u64, a: u64)
    ensures |Triple(v, m, a)| <= 28
  {
  }

  /** What the host sends: the argument's shortest head, byte by byte from the top. */
  method Request(op: byte, argument: int) returns (r: Option<Bytes>)
    ensures r == if op <= 2 && 0 <= argument <= MAX_COUNTER then Some(Triple(1, op as nat, argument)) else None
  {
    if op > 2 || argument < 0 || argument > MAX_COUNTER { return None; }
    var bytes := AppendArgument([0x83, 1, op], argument);
    assert Head(0, 1) == [1] && Head(0, op as nat) == [op];
    hide Head;
    assert [0x83, 1, op] == [0x83] + [1] + [op];
    return Some(bytes);
  }

  method AppendArgument(prefix: Bytes, n: u64) returns (bytes: Bytes)
    ensures bytes == prefix + Head(0, n)
  {
    hide BigEndian;
    if n < 24 { return prefix + [n as byte]; }
    var count: nat, tag: byte;
    if n <= 0xFF { count, tag := 1, 24; }
    else if n <= 0xFFFF { count, tag := 2, 25; }
    else if n <= 0xFFFF_FFFF { count, tag := 4, 26; }
    else { count, tag := 8, 27; }
    Pow256Up(count);
    var tail := BytesFromTop(n, count);
    return prefix + [tag] + tail;
  }

  function Quotient(n: nat, p: nat): nat
    requires p > 0
  {
    n / p
  }

  function Top(n: nat, i: nat): nat { Quotient(n, Pow256(i)) }

  method BytesFromTop(n: nat, count: nat) returns (bytes: Bytes)
    requires n < Pow256(count)
    ensures bytes == BigEndian(n, count)
  {
    hide Top, Pow256;
    bytes := [];
    var i: nat := count;
    assert Top(n, count) == 0 by { NothingAbove(n, count); }
    while i > 0
      invariant i <= count
      invariant bytes == BigEndian(Top(n, i), count - i)
    {
      i := i - 1;
      NextDown(n, i);
      bytes := bytes + [(Top(n, i) % 256) as byte];
    }
    WholeNumber(n);
  }

  lemma NothingAbove(n: nat, i: nat)
    requires n < Pow256(i)
    ensures Top(n, i) == 0
  {
    hide Pow256;
    SmallQuotient(n, Pow256(i));
  }

  lemma SmallQuotient(n: nat, p: nat)
    requires n < p
    ensures Quotient(n, p) == 0
  {
  }

  lemma NextDown(n: nat, i: nat)
    ensures Top(n, i + 1) == Top(n, i) / 256
  {
    var p := Pow256(i);
    assert Pow256(i + 1) == 256 * p;
    hide Pow256;
    DivideTwice(n, p);
  }

  lemma WholeNumber(n: nat)
    ensures Top(n, 0) == n
  {
    assert Pow256(0) == 1;
  }

  lemma DivideTwice(n: nat, p: nat)
    requires p > 0
    ensures Quotient(n, 256 * p) == Quotient(n, p) / 256
  {
    var a, b := n / p, n % p;
    var q, r := a / 256, a % 256;
    assert n == a * p + b && a == 256 * q + r;
    Regroup(n, p, a, b, q, r);
    QuotientOf(n, 256 * p, q, r * p + b);
  }

  lemma Regroup(n: nat, p: nat, a: nat, b: nat, q: nat, r: nat)
    requires n == a * p + b && a == 256 * q + r && b < p && r < 256
    ensures n == q * (256 * p) + (r * p + b) && 0 <= r * p + b < 256 * p
  {
    assert a * p == 256 * q * p + r * p;
    assert r * p <= 255 * p;
  }

  lemma QuotientOf(n: nat, p: nat, q: nat, r: int)
    requires p > 0 && n == q * p + r && 0 <= r < p
    ensures Quotient(n, p) == q
  {
    assert n == n / p * p + n % p;
    assert (n / p - q) * p == r - n % p;
    ZeroMultiple(n / p - q, p);
  }

  /** What the host sends is understood as meant, and the host can send every command. */
  lemma RequestsUnderstood(op: byte, argument: u64, c: Command)
    requires op <= 2 && argument <= MAX_COUNTER
    ensures OnRequest(Triple(1, op as nat, argument)) == Ok(c) <==> Legal(c) && op as nat == Op(c) && argument == Argument(c)
  {
    hide OnRequest;
    var b := Triple(1, op as nat, argument);
    RequestExact(b, c);
    UntripleExact(b, 1, op as nat, argument);
    UntripleExact(b, 1, Op(c), Argument(c));
  }

  /** The runtime's decoder: one pass over the bytes. */
  method DecodeRequest(bytes: Bytes) returns (r: Result<Command, RequestError>)
    ensures r == OnRequest(bytes)
  {
    hide ParseHead;
    if |bytes| > MAX_INPUT || |bytes| == 0 || bytes[0] != 0x83 { return Err(InvalidArgument); }
    var version, p1 := ReadHead(bytes, 1, 0);
    if version.None? { return Err(InvalidArgument); }
    assert bytes[1..][p1 - 1..] == bytes[p1..];
    var op, p2 := ReadHead(bytes, p1, 0);
    if op.None? { return Err(InvalidArgument); }
    assert bytes[p1..][p2 - p1..] == bytes[p2..];
    var argument, p3 := ReadHead(bytes, p2, 0);
    if argument.None? { return Err(InvalidArgument); }
    assert bytes[p2..][p3 - p2..] == bytes[p3..];
    if p3 != |bytes| || argument.value > MAX_COUNTER { return Err(InvalidArgument); }
    if version.value != 1 { return Err(IncompatibleVersion); }
    if op.value == 0 && argument.value == 0 { return Ok(EngineInfo); }
    if op.value == 1 { return Ok(Subscribe(argument.value)); }
    if op.value == 2 && argument.value > 0 { return Ok(VerifyBridge(argument.value)); }
    return Err(InvalidArgument);
  }
}
