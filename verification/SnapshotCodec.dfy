/**
 * The diagnostic envelope between the Rust runtime and the Swift host: requests one way, snapshots the other.
 * The strict decoder on the host accepts exactly the encodings of well-formed snapshots, and every snapshot a runtime can give is one.
 */
module SnapshotCodec {
  import opened Types
  import opened Words
  import opened Cbor
  import opened EventLogs

  const MAX_ENVELOPE: nat := 16384
  const MAX_INPUT: nat := 64

  // ----- lists of numbers -----

  type Major = m: nat | m < 8

  /** Heads one after the other: a number for each major type. */
  function Heads(majors: seq<Major>, ns: seq<u64>): Bytes
    requires |majors| == |ns|
  {
    if majors == [] then [] else Head(majors[0], ns[0]) + Heads(majors[1..], ns[1..])
  }

  /** One number of at most 53 bits, as the host reads it, and what follows. */
  function Take(s: Bytes, major: nat): Option<(u64, Bytes)> {
    var p := ParseHead(s, major);
    if p.None? || p.value.0 > MAX_COUNTER then None else Some((p.value.0, s[p.value.1..]))
  }

  function TakeAll(s: Bytes, majors: seq<Major>): (r: Option<(seq<u64>, Bytes)>)
    ensures r.Some? ==> |r.value.0| == |majors|
    decreases |majors|
  {
    if majors == [] then Some(([], s))
    else
      var one := Take(s, majors[0]);
      if one.None? then None
      else
        var more := TakeAll(one.value.1, majors[1..]);
        if more.None? then None else Some(([one.value.0] + more.value.0, more.value.1))
  }

  predicate Small53(ns: seq<u64>) { forall n <- ns :: n <= MAX_COUNTER }

  lemma TakeExact(s: Bytes, major: nat, n: u64, rest: Bytes)
    requires major < 8
    ensures Take(s, major) == Some((n, rest)) <==> n <= MAX_COUNTER && s == Head(major, n) + rest
  {
    hide Head, ParseHead;
    if n <= MAX_COUNTER && s == Head(major, n) + rest { HeadParses(major, n, rest); }
    if Take(s, major) == Some((n, rest)) {
      ParsedIsHead(s, major);
      var k := ParseHead(s, major).value.1;
      assert s == s[..k] + s[k..];
    }
  }

  /** Reading numbers off a sequence is undoing their heads, and only that. */
  lemma {:induction false} TakeAllExact(s: Bytes, majors: seq<Major>, ns: seq<u64>, rest: Bytes)
    requires |ns| == |majors|
    ensures TakeAll(s, majors) == Some((ns, rest)) <==> Small53(ns) && s == Heads(majors, ns) + rest
    decreases |majors|
  {
    hide Take, Head;
    if majors == [] {
      assert ns == [] && Heads(majors, ns) + rest == rest;
    } else {
      var tail := Heads(majors[1..], ns[1..]) + rest;
      assert Heads(majors, ns) + rest == Head(majors[0], ns[0]) + tail;
      assert ns == [ns[0]] + ns[1..];
      if Small53(ns) && s == Heads(majors, ns) + rest {
        assert ns[0] in ns && forall n <- ns[1..] :: n in ns;
        TakeExact(s, majors[0], ns[0], tail);
        TakeAllExact(tail, majors[1..], ns[1..], rest);
      }
      if TakeAll(s, majors) == Some((ns, rest)) {
        var one := Take(s, majors[0]).value;
        var more := TakeAll(one.1, majors[1..]).value;
        assert one.0 == ([one.0] + more.0)[0] == ns[0] && more.0 == ([one.0] + more.0)[1..] == ns[1..];
        TakeExact(s, majors[0], one.0, one.1);
        TakeAllExact(one.1, majors[1..], ns[1..], rest);
        assert forall n <- ns :: n == ns[0] || n in ns[1..];
      }
    }
  }

  // ----- snapshots -----

  const PREFIX: seq<Major> := [4, 0, 0, 4, 0, 0, 0, 0]
  const EVENT: seq<Major> := [4, 0, 0, 0]

  function EventNumbers(e: Event): seq<u64> { [3, e.sequence, e.request, 0] }

  function EventsBytes(events: seq<Event>): Bytes {
    if events == [] then [] else Heads(EVENT, EventNumbers(events[0])) + EventsBytes(events[1..])
  }

  function PrefixNumbers(op: u64, s: Snapshot): seq<u64> { [3, 1, op, 6, s.runtime, s.cursor, s.probes, 0] }

  function Flag(reset: bool): byte { if reset then 0xF5 else 0xF4 }

  /** The encoding of a snapshot as the answer to a request. */
  function Encoded(op: u64, s: Snapshot): Bytes
    requires |s.events| <= MAX_EVENTS
  {
    Heads(PREFIX, PrefixNumbers(op, s)) + [Flag(s.reset)] + Head(4, |s.events|) + EventsBytes(s.events)
  }

  /** What the host accepts as one more event. */
  predicate Continues(e: Event, previous: Option<u64>, cursor: u64) {
    && 0 < e.sequence <= cursor && 0 < e.request <= MAX_COUNTER && e.sequence <= MAX_COUNTER
    && (previous.Some? ==> e.sequence == previous.value + 1)
  }

  predicate Consecutive(events: seq<Event>, previous: Option<u64>, cursor: u64) {
    events == [] || (Continues(events[0], previous, cursor) && Consecutive(events[1..], Some(events[0].sequence), cursor))
  }

  predicate WellFormed(s: Snapshot) {
    && 0 < s.runtime <= MAX_COUNTER && s.cursor == s.probes <= MAX_COUNTER
    && |s.events| <= MAX_EVENTS && (s.reset ==> s.events == [])
    && Consecutive(s.events, None, s.cursor)
  }

  function TakeEvents(s: Bytes, count: nat, previous: Option<u64>, cursor: u64): Option<(seq<Event>, Bytes)>
    decreases count
  {
    if count == 0 then Some(([], s))
    else
      var one := TakeAll(s, EVENT);
      if one.None? then None
      else
        var f := one.value.0;
        var e := Event(f[1], f[2]);
        if f[0] != 3 || f[3] != 0 || !Continues(e, previous, cursor) then None
        else
          var more := TakeEvents(one.value.1, count - 1, Some(e.sequence), cursor);
          if more.None? then None else Some(([e] + more.value.0, more.value.1))
  }

  predicate PrefixFits(f: seq<u64>, op: u64)
    requires |f| == 8
  {
    f[0] == 3 && f[1] == 1 && f[2] == op && f[3] == 6 && f[4] > 0 && f[5] == f[6] && f[7] == 0
  }

  /** The host's strict decoder. */
  function Decoded(b: Bytes, op: u64): Option<Snapshot> {
    var p := TakeAll(b, PREFIX);
    if |b| > MAX_ENVELOPE || p.None? || !PrefixFits(p.value.0, op) then None
    else
      var f, rest := p.value.0, p.value.1;
      if rest == [] || rest[0] !in [0xF4, 0xF5] then None
      else
        var c := Take(rest[1..], 4);
        if c.None? || c.value.0 > MAX_EVENTS then None
        else
          var events := TakeEvents(c.value.1, c.value.0, None, f[5]);
          if events.None? || (rest[0] == 0xF5 && events.value.0 != []) || events.value.1 != [] then None
          else Some(Snapshot(f[4], f[5], f[6], rest[0] == 0xF5, events.value.0))
  }

  lemma {:induction false} TakeEventsExact(s: Bytes, events: seq<Event>, previous: Option<u64>, cursor: u64, rest: Bytes)
    ensures TakeEvents(s, |events|, previous, cursor) == Some((events, rest)) <==>
            Consecutive(events, previous, cursor) && s == EventsBytes(events) + rest
    decreases |events|
  {
    hide TakeAll, Heads;
    if events == [] {
      assert EventsBytes(events) + rest == rest;
    } else {
      var e, tail := events[0], EventsBytes(events[1..]) + rest;
      assert EventsBytes(events) + rest == Heads(EVENT, EventNumbers(e)) + tail;
      assert events == [e] + events[1..];
      if Consecutive(events, previous, cursor) && s == EventsBytes(events) + rest {
        TakeAllExact(s, EVENT, EventNumbers(e), tail);
        TakeEventsExact(tail, events[1..], Some(e.sequence), cursor, rest);
      }
      if TakeEvents(s, |events|, previous, cursor) == Some((events, rest)) {
        var one := TakeAll(s, EVENT).value;
        var e' := Event(one.0[1], one.0[2]);
        var more := TakeEvents(one.1, |events| - 1, Some(e'.sequence), cursor).value;
        assert e' == ([e'] + more.0)[0] == e && more.0 == ([e'] + more.0)[1..] == events[1..];
        assert one.0 == EventNumbers(e);
        TakeAllExact(s, EVENT, EventNumbers(e), one.1);
        TakeEventsExact(one.1, events[1..], Some(e.sequence), cursor, rest);
      }
    }
  }

  lemma {:induction false} TakenCount(s: Bytes, count: nat, previous: Option<u64>, cursor: u64)
    ensures
      var r := TakeEvents(s, count, previous, cursor);
      r.Some? ==> |r.value.0| == count
    decreases count
  {
    hide TakeAll;
    if count > 0 && TakeAll(s, EVENT).Some? {
      var one := TakeAll(s, EVENT).value;
      TakenCount(one.1, count - 1, Some(one.0[1]), cursor);
    }
  }

  lemma {:induction false} EventsSize(events: seq<Event>)
    ensures |EventsBytes(events)| <= 36 * |events|
  {
    if events != [] {
      EventsSize(events[1..]);
      HeadsSize(EVENT, EventNumbers(events[0]));
    }
  }

  lemma {:induction false} HeadsSize(majors: seq<Major>, ns: seq<u64>)
    requires |majors| == |ns|
    ensures |Heads(majors, ns)| <= 9 * |majors|
  {
    if majors != [] { HeadsSize(majors[1..], ns[1..]); }
  }

  /** The decoder accepts a byte string as a snapshot just when the snapshot is well formed and the bytes are its encoding. */
  lemma DecodedExact(b: Bytes, op: u64, s: Snapshot)
    requires op <= MAX_COUNTER
    ensures Decoded(b, op) == Some(s) <==> WellFormed(s) && b == Encoded(op, s)
  {
    hide TakeAll, Heads, Take, TakeEvents, Head, EventsBytes, Consecutive;
    if WellFormed(s) && b == Encoded(op, s) { EncodedDecodes(op, s); }
    if Decoded(b, op) == Some(s) {
      var p := TakeAll(b, PREFIX).value;
      var rest := p.1;
      var c := Take(rest[1..], 4).value;
      TakeAllExact(b, PREFIX, p.0, rest);
      TakeExact(rest[1..], 4, c.0, c.1);
      TakenCount(c.1, c.0, None, s.cursor);
      TakeEventsExact(c.1, s.events, None, s.cursor, []);
      assert p.0 == PrefixNumbers(op, s);
      assert forall n <- p.0 :: n <= MAX_COUNTER;
      assert p.0[4] in p.0 && p.0[5] in p.0;
      assert rest == [rest[0]] + rest[1..];
      assert EventsBytes(s.events) + [] == EventsBytes(s.events);
    }
  }

  lemma EncodedDecodes(op: u64, s: Snapshot)
    requires op <= MAX_COUNTER && WellFormed(s)
    ensures |Encoded(op, s)| <= MAX_ENVELOPE && Decoded(Encoded(op, s), op) == Some(s)
  {
    hide TakeAll, Heads, Take, TakeEvents, Head, EventsBytes, Consecutive;
    var b, f, e := Encoded(op, s), PrefixNumbers(op, s), EventsBytes(s.events);
    var rest := [Flag(s.reset)] + Head(4, |s.events|) + e;
    assert b == Heads(PREFIX, f) + rest;
    TakeAllExact(b, PREFIX, f, rest);
    assert rest[1..] == Head(4, |s.events|) + e;
    TakeExact(rest[1..], 4, |s.events|, e);
    assert e + [] == e;
    TakeEventsExact(e, s.events, None, s.cursor, []);
    EventsSize(s.events);
    HeadsSize(PREFIX, f);
  }

  // ----- every snapshot of a runtime is well formed -----

  lemma {:induction false} HistoryConsecutive(h: History, from: nat, previous: Option<u64>)
    requires from <= |h| && (forall r <- h :: Counts(r)) && (previous.Some? ==> previous.value == from)
    ensures Consecutive(Numbered(h)[from..], previous, |h|)
    decreases |h| - from
  {
    if from < |h| {
      HistoryConsecutive(h, from + 1, Some(from + 1));
      assert Numbered(h)[from..][1..] == Numbered(h)[from + 1..];
      assert h[from] in h;
    }
  }

  lemma AnswerWellFormed(log: Log, h: History, cursor: u64)
    requires Shows(log, h) && (forall r <- h :: Counts(r)) && 0 < log.id <= MAX_COUNTER
    ensures WellFormed(OnSubscribe(log, cursor))
  {
    SubscribeExact(log, h, cursor);
    hide OnSubscribe;
    if cursor <= |h| { HistoryConsecutive(h, cursor, None); }
  }

  /**
   * Whatever a runtime answers after any run of requests, the host decodes to the same snapshot.
   * Runtime identities are handed out from 1 and stay below the limit.
   */
  lemma AnswersDecode(id: u64, requests: seq<u64>, cursor: u64, r: u64)
    requires 0 < id <= MAX_COUNTER
    ensures
      var s := OnSubscribe(Run(id, requests), cursor);
      WellFormed(s) && Decoded(Encoded(1, s), 1) == Some(s)
    ensures
      var answer := OnVerify(Run(id, requests), r).1;
      answer.Ok? ==> WellFormed(answer.value) && Decoded(Encoded(2, answer.value), 2) == Some(answer.value)
  {
    SubscribeDecodes(id, requests, cursor);
    SubscribeDecodes(id, requests + [r], Run(id, requests).sequence);
    SubscribeDecodes(id, requests, Run(id, requests).sequence);
    assert (requests + [r])[..|requests|] == requests && (requests + [r])[|requests|] == r;
    assert OnVerify(Run(id, requests), r).0 == Run(id, requests + [r]);
    hide WellFormed, Decoded, Encoded, OnSubscribe, Run;
  }

  lemma SubscribeDecodes(id: u64, requests: seq<u64>, cursor: u64)
    requires 0 < id <= MAX_COUNTER
    ensures
      var s := OnSubscribe(Run(id, requests), cursor);
      WellFormed(s) && forall op: u64 | op <= MAX_COUNTER :: Decoded(Encoded(op, s), op) == Some(s)
  {
    var log, h := Run(id, requests), Accepted(requests);
    RunShows(id, requests);
    assert forall r <- h :: Counts(r);
    AnswerWellFormed(log, h, cursor);
    hide OnSubscribe, WellFormed, Decoded, Encoded, Accepted, Run;
    var s := OnSubscribe(log, cursor);
    forall op: u64 | op <= MAX_COUNTER ensures Decoded(Encoded(op, s), op) == Some(s) { EncodedDecodes(op, s); }
  }

  // ----- the encoder -----

  method AppendHead(out: Bytes, major: nat, n: u64) returns (out': Bytes)
    requires major < 8
    ensures out' == out + Head(major, n)
  {
    var tag := 32 * major;
    if n < 24 {
      out' := out + [(tag + n) as byte];
    } else if n < 0x100 {
      out' := out + [(tag + 24) as byte] + BigEndian(n, 1);
    } else if n < 0x1_0000 {
      out' := out + [(tag + 25) as byte] + BigEndian(n, 2);
    } else if n < 0x1_0000_0000 {
      out' := out + [(tag + 26) as byte] + BigEndian(n, 4);
    } else {
      out' := out + [(tag + 27) as byte] + BigEndian(n, 8);
    }
  }

  method EncodeSnapshot(op: u64, s: Snapshot) returns (out: Bytes)
    requires |s.events| <= MAX_EVENTS
    ensures out == Encoded(op, s)
  {
    hide Head, Heads;
    out := AppendPrefix(op, s);
    out := out + [Flag(s.reset)];
    out := AppendHead(out, 4, |s.events|);
    ghost var start := out;
    for i := 0 to |s.events|
      invariant out + EventsBytes(s.events[i..]) == start + EventsBytes(s.events)
    {
      assert s.events[i..][0] == s.events[i] && s.events[i..][1..] == s.events[i + 1..];
      out := AppendEvent(out, s.events[i]);
    }
    assert s.events[|s.events|..] == [];
  }

  method AppendPrefix(op: u64, s: Snapshot) returns (out: Bytes)
    ensures out == Heads(PREFIX, PrefixNumbers(op, s))
  {
    hide Head;
    out := [0x83, 1];
    out := AppendHead(out, 0, op);
    out := out + [0x86];
    out := AppendHead(out, 0, s.runtime);
    out := AppendHead(out, 0, s.cursor);
    out := AppendHead(out, 0, s.probes);
    out := AppendHead(out, 0, 0);
    Literals();
    FourHeads(4, 0, 0, 4, 3, 1, op, 6);
    FourHeads(0, 0, 0, 0, s.runtime, s.cursor, s.probes, 0);
    PrefixHalves([3, 1, op, 6], [s.runtime, s.cursor, s.probes, 0]);
    assert PrefixNumbers(op, s) == [3, 1, op, 6] + [s.runtime, s.cursor, s.probes, 0];
  }

  method AppendEvent(before: Bytes, e: Event) returns (out: Bytes)
    ensures out == before + Heads(EVENT, EventNumbers(e))
  {
    hide Head;
    out := before + [0x83];
    out := AppendHead(out, 0, e.sequence);
    out := AppendHead(out, 0, e.request);
    out := AppendHead(out, 0, 0);
    Literals();
    FourHeads(4, 0, 0, 0, 3, e.sequence, e.request, 0);
  }

  lemma Literals()
    ensures Head(4, 3) == [0x83] && Head(4, 6) == [0x86] && Head(0, 1) == [1]
  {
  }

  lemma HeadsFirst(m: Major, n: u64, majors: seq<Major>, ns: seq<u64>)
    requires |majors| == |ns|
    ensures Heads([m] + majors, [n] + ns) == Head(m, n) + Heads(majors, ns)
  {
    assert ([m] + majors)[1..] == majors && ([n] + ns)[1..] == ns;
  }

  lemma FourHeads(a: Major, b: Major, c: Major, d: Major, w: u64, x: u64, y: u64, z: u64)
    ensures Heads([a, b, c, d], [w, x, y, z]) == Head(a, w) + Head(b, x) + Head(c, y) + Head(d, z)
  {
    assert Heads([], []) == [];
    HeadsFirst(d, z, [], []);
    HeadsFirst(c, y, [d], [z]);
    HeadsFirst(b, x, [c, d], [y, z]);
    HeadsFirst(a, w, [b, c, d], [x, y, z]);
    hide Head, Heads;
    assert [d] + [] == [d] && [z] + [] == [z];
    assert [c] + [d] == [c, d] && [y] + [z] == [y, z];
    assert [b] + [c, d] == [b, c, d] && [x] + [y, z] == [x, y, z];
    assert [a] + [b, c, d] == [a, b, c, d] && [w] + [x, y, z] == [w, x, y, z];
  }

  lemma {:induction false} HeadsJoin(a: seq<Major>, b: seq<Major>, x: seq<u64>, y: seq<u64>)
    requires |a| == |x| && |b| == |y|
    ensures Heads(a + b, x + y) == Heads(a, x) + Heads(b, y)
    decreases |a|
  {
    hide Head;
    if a == [] {
      assert a + b == b && x + y == y;
    } else {
      HeadsJoin(a[1..], b, x[1..], y);
      assert (a + b)[1..] == a[1..] + b && (x + y)[1..] == x[1..] + y;
    }
  }

  lemma PrefixHalves(x: seq<u64>, y: seq<u64>)
    requires |x| == |y| == 4
    ensures Heads(PREFIX, x + y) == Heads([4, 0, 0, 4], x) + Heads([0, 0, 0, 0], y)
  {
    HeadsJoin([4, 0, 0, 4], [0, 0, 0, 0], x, y);
    hide Heads;
    assert PREFIX == [4, 0, 0, 4] + [0, 0, 0, 0];
  }
}
