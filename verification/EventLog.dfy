/**
 * The diagnostic runtime's event log: the last 64 events of a history that may be far longer.
 * The full history is defined apart, from the requests alone, and the ring is related to it.
 */
module EventLogs {
  import opened Types
  import opened Words

  const MAX_EVENTS: nat := 64
  const MAX_COUNTER: u64 := 0x1F_FFFF_FFFF_FFFF

  datatype Event = Event(sequence: u64, request: u64)

  datatype Snapshot = Snapshot(runtime: u64, cursor: u64, probes: u64, reset: bool, events: seq<Event>)

  datatype LogError = BadRequest | StaleRequest | Exhausted

  datatype Log = Log(id: u64, sequence: u64, last: u64, events: seq<Event>)

  // ----- the full history, from the requests alone -----

  type History = h: seq<u64> | |h| <= MAX_COUNTER

  predicate Counts(request: u64) { 0 < request <= MAX_COUNTER }

  /**
   * The requests that are events: in range, and larger than every event before.
   * Every event's request is at least its number, so the numbers cannot run out before the requests do.
   */
  function Accepted(requests: seq<u64>): (h: History)
    ensures forall i | 0 <= i < |h| :: i < h[i] && Counts(h[i])
    ensures forall i, j | 0 <= i < j < |h| :: h[i] < h[j]
  {
    if requests == [] then []
    else
      var h := Accepted(requests[..|requests| - 1]);
      var r := requests[|requests| - 1];
      if Counts(r) && (h == [] || h[|h| - 1] < r) then
        assert h != [] ==> |h| - 1 < h[|h| - 1];
        h + [r]
      else h
  }

  /** The events of a history, numbered from 1. */
  function Numbered(h: History): seq<Event> { seq(|h|, i requires 0 <= i < |h| => Event(i + 1, h[i])) }

  lemma NumberedAppend(h: History, r: u64)
    requires |h| < MAX_COUNTER
    ensures Numbered(h + [r]) == Numbered(h) + [Event(|h| + 1, r)]
  {
  }

  /** How many events have left the ring. */
  function Gone(h: History): nat { if |h| <= MAX_EVENTS then 0 else |h| - MAX_EVENTS }

  /** A log shows a history when it holds its last events and its counters. */
  ghost predicate Shows(log: Log, h: History) {
    && log.sequence == |h|
    && log.last == (if h == [] then 0 else h[|h| - 1])
    && log.events == Numbered(h)[Gone(h)..]
  }

  // ----- the operations -----

  function Empty(id: u64): Log { Log(id, 0, 0, []) }

  function After(events: seq<Event>, cursor: u64): seq<Event> {
    if events == [] then []
    else (if events[0].sequence > cursor then [events[0]] else []) + After(events[1..], cursor)
  }

  function SaturatingNext(n: u64): u64 { if n == 0xFFFF_FFFF_FFFF_FFFF then n else n + 1 }

  function OnSubscribe(log: Log, cursor: u64): Snapshot
    requires log.sequence <= MAX_COUNTER
  {
    var oldest := if log.events == [] then log.sequence + 1 else log.events[0].sequence;
    var reset := cursor > log.sequence || SaturatingNext(cursor) < oldest;
    Snapshot(log.id, log.sequence, log.sequence, reset, if reset then [] else After(log.events, cursor))
  }

  function Kept(events: seq<Event>): seq<Event> { if |events| == MAX_EVENTS then events[1..] else events }

  function OnVerify(log: Log, request: u64): (Log, Result<Snapshot, LogError>)
    requires log.sequence <= MAX_COUNTER
  {
    if !Counts(request) then (log, Err(BadRequest))
    else if request <= log.last then
      (log, if exists e <- log.events :: e.request == request then Ok(OnSubscribe(log, log.sequence)) else Err(StaleRequest))
    else if log.sequence == MAX_COUNTER then (log, Err(Exhausted))
    else
      var log' := log.(sequence := log.sequence + 1, last := request, events := Kept(log.events) + [Event(log.sequence + 1, request)]);
      (log', Ok(OnSubscribe(log', log.sequence)))
  }

  /** The log after a run of requests. */
  function Run(id: u64, requests: seq<u64>): (log: Log)
    ensures log.sequence <= MAX_COUNTER && log.id == id
  {
    if requests == [] then Empty(id) else OnVerify(Run(id, requests[..|requests| - 1]), requests[|requests| - 1]).0
  }

  // ----- the ring against the history -----

  /** After any run of requests the ring shows the history those requests make. */
  lemma {:induction false} RunShows(id: u64, requests: seq<u64>)
    ensures Shows(Run(id, requests), Accepted(requests))
  {
    if requests != [] {
      var before, r := requests[..|requests| - 1], requests[|requests| - 1];
      RunShows(id, before);
      VerifyShows(Run(id, before), Accepted(before), r);
    }
  }

  lemma VerifyShows(log: Log, h: History, r: u64)
    requires Shows(log, h)
    requires h != [] ==> |h| <= h[|h| - 1]
    ensures
      var joins := Counts(r) && (h == [] || h[|h| - 1] < r);
      && (joins ==> |h| < MAX_COUNTER)
      && Shows(OnVerify(log, r).0, if joins then h + [r] else h)
      && (!joins ==> OnVerify(log, r).0 == log)
  {
    hide OnSubscribe;
    if Counts(r) && (h == [] || h[|h| - 1] < r) {
      NumberedAppend(h, r);
      var all := Numbered(h);
      hide Numbered;
      assert Kept(log.events) == all[Gone(h + [r])..];
      assert (all + [Event(|h| + 1, r)])[Gone(h + [r])..] == all[Gone(h + [r])..] + [Event(|h| + 1, r)];
    }
  }

  /** Events with higher numbers than a cursor are the ones after it. */
  lemma {:induction false} AfterSuffix(h: History, from: nat, cursor: u64)
    requires from <= |h| && cursor <= |h|
    ensures After(Numbered(h)[from..], cursor) == Numbered(h)[if from < cursor then cursor else from..]
    decreases |h| - from
  {
    var all := Numbered(h);
    if from < |h| {
      AfterSuffix(h, from + 1, cursor);
      assert all[from..][1..] == all[from + 1..] && all[from..][0] == all[from] == Event(from + 1, h[from]);
      assert [all[from]] + all[from + 1..] == all[from..];
    }
  }

  /**
   * A subscription is exact. It resets just when the cursor is ahead of the history or more than 64 events behind it;
   * otherwise its events are the history's, from the one after the cursor to the last, in order and with no gap.
   */
  lemma SubscribeExact(log: Log, h: History, cursor: u64)
    requires Shows(log, h)
    ensures
      var reset := cursor > |h| || |h| - cursor > MAX_EVENTS;
      OnSubscribe(log, cursor) == Snapshot(log.id, |h|, |h|, reset, if reset then [] else Numbered(h)[cursor..])
  {
    OldestKept(log, h);
    var reset := cursor > |h| || |h| - cursor > MAX_EVENTS;
    assert OnSubscribe(log, cursor).reset == reset;
    if !reset {
      AfterSuffix(h, Gone(h), cursor);
      hide Numbered, After, OnSubscribe;
      assert (if Gone(h) < cursor then cursor else Gone(h)) == cursor;
      EventsSent(log, cursor);
    }
  }

  lemma EventsSent(log: Log, cursor: u64)
    requires log.sequence <= MAX_COUNTER
    ensures
      var s := OnSubscribe(log, cursor);
      s == Snapshot(log.id, log.sequence, log.sequence, s.reset, if s.reset then [] else After(log.events, cursor))
  {
  }

  lemma OldestKept(log: Log, h: History)
    requires Shows(log, h)
    ensures log.events == [] <==> h == []
    ensures h != [] ==> log.events[0].sequence == Gone(h) + 1
  {
    if h != [] { assert log.events[0] == Numbered(h)[Gone(h)]; }
  }

  /**
   * A request is answered in exactly one of four ways. A new event is appended and is the one event of the answer;
   * one of the last 64 is answered again and nothing changes; an older or skipped one is stale.
   * Running out of numbers cannot happen.
   */
  lemma VerifyExact(id: u64, requests: seq<u64>, r: u64)
    ensures
      var (log', answer) := OnVerify(Run(id, requests), r);
      var h, h' := Accepted(requests), Accepted(requests + [r]);
      && log' == Run(id, requests + [r])
      && (h' == h || h' == h + [r])
      && (h' != h ==> answer == Ok(Snapshot(id, |h'|, |h'|, false, [Event(|h'|, r)])))
      && (h' == h && r in h[Gone(h)..] ==> answer == Ok(Snapshot(id, |h|, |h|, false, [])))
      && (h' == h && r !in h[Gone(h)..] ==> answer == Err(if Counts(r) then StaleRequest else BadRequest))
      && (h' == h ==> log' == Run(id, requests))
  {
    var log, h, all := Run(id, requests), Accepted(requests), requests + [r];
    assert all[..|requests|] == requests && all[|all| - 1] == r;
    RunShows(id, requests);
    assert h != [] ==> |h| - 1 < h[|h| - 1];
    VerifyShows(log, h, r);
    AnswerExact(log, h, r);
  }

  lemma AnswerExact(log: Log, h: History, r: u64)
    requires Shows(log, h)
    requires h != [] ==> |h| <= h[|h| - 1]
    requires forall i, j | 0 <= i < j < |h| :: h[i] < h[j]
    ensures
      OnVerify(log, r).1 ==
      if Counts(r) && (h == [] || h[|h| - 1] < r) then Ok(Snapshot(log.id, |h| + 1, |h| + 1, false, [Event(|h| + 1, r)]))
      else if !Counts(r) then Err(BadRequest)
      else if r in h[Gone(h)..] then Ok(Snapshot(log.id, |h|, |h|, false, []))
      else Err(StaleRequest)
  {
    if Counts(r) && (h == [] || h[|h| - 1] < r) {
      VerifyShows(log, h, r);
      SubscribeExact(OnVerify(log, r).0, h + [r], log.sequence);
      assert Numbered(h + [r])[|h|..] == [Event(|h| + 1, r)];
    } else if Counts(r) {
      hide OnSubscribe;
      SubscribeExact(log, h, log.sequence);
      Retained(log, h, r);
    }
  }

  lemma Retained(log: Log, h: History, r: u64)
    requires Shows(log, h)
    ensures (exists e <- log.events :: e.request == r) <==> r in h[Gone(h)..]
  {
    var tail := h[Gone(h)..];
    assert forall i | 0 <= i < |tail| :: log.events[i] == Event(Gone(h) + i + 1, tail[i]);
    if r in tail {
      var i :| 0 <= i < |tail| && tail[i] == r;
      assert log.events[i].request == r;
    }
  }

  /** Whatever a request did, the same one again is no event. */
  lemma AcceptedOnce(requests: seq<u64>, r: u64)
    ensures
      var h := Accepted(requests + [r]);
      !(Counts(r) && (h == [] || h[|h| - 1] < r)) && Accepted(requests + [r] + [r]) == h
  {
    var once := requests + [r];
    assert once[..|requests|] == requests && (once + [r])[..|once|] == once;
  }

  /** Asking again changes nothing and never makes a second event. */
  lemma VerifyTwice(id: u64, requests: seq<u64>, r: u64)
    ensures Run(id, requests + [r] + [r]) == Run(id, requests + [r])
    ensures Accepted(requests + [r] + [r]) == Accepted(requests + [r])
  {
    var once := requests + [r];
    assert (once + [r])[..|once|] == once;
    AcceptedOnce(requests, r);
    RunShows(id, once);
    var h := Accepted(once);
    assert h != [] ==> |h| - 1 < h[|h| - 1];
    VerifyShows(Run(id, once), h, r);
    hide Accepted, Shows, OnVerify;
  }

  // ----- a follower -----

  /** What a client keeps: the events since its last reset, and where the next snapshot continues. */
  datatype Follower = Follower(start: nat, seen: seq<Event>, cursor: u64)

  function Observe(f: Follower, s: Snapshot): Follower {
    if s.reset then Follower(s.cursor, [], s.cursor) else f.(seen := f.seen + s.events, cursor := s.cursor)
  }

  ghost predicate Follows(f: Follower, h: History) {
    f.start <= f.cursor <= |h| && f.seen == Numbered(h)[f.start..f.cursor]
  }

  /** However requests and subscriptions interleave, a follower's events are one gapless stretch of the history up to its cursor. */
  lemma {:induction false} FollowerNeverSkips(id: u64, polls: seq<seq<u64>>)
    ensures Follows(Watch(id, polls), Accepted(Flat(polls)))
  {
    if polls == [] {
      assert Accepted([]) == [];
    } else {
      var before := polls[..|polls| - 1];
      FollowerNeverSkips(id, before);
      var h, h' := Accepted(Flat(before)), Accepted(Flat(polls));
      AcceptedGrows(Flat(before), polls[|polls| - 1]);
      RunShows(id, Flat(polls));
      hide Flat, Run, Accepted;
      var f := Watch(id, before);
      hide Watch;
      ObserveFollows(Run(id, Flat(polls)), f, h, h');
    }
  }

  lemma ObserveFollows(log: Log, f: Follower, h: History, h': History)
    requires Shows(log, h') && h <= h' && Follows(f, h)
    ensures Follows(Observe(f, OnSubscribe(log, f.cursor)), h')
  {
    SubscribeExact(log, h', f.cursor);
    hide OnSubscribe;
    assert Numbered(h) == Numbered(h')[..|h|];
    var all := Numbered(h');
    hide Numbered;
    assert all[f.start..f.cursor] + all[f.cursor..] == all[f.start..];
    assert all[|h'|..] == [];
  }

  /** All requests of a series of batches; the follower subscribes once after each batch. */
  function Flat(polls: seq<seq<u64>>): seq<u64> {
    if polls == [] then [] else Flat(polls[..|polls| - 1]) + polls[|polls| - 1]
  }

  function Watch(id: u64, polls: seq<seq<u64>>): Follower {
    if polls == [] then Follower(0, [], 0)
    else
      var f := Watch(id, polls[..|polls| - 1]);
      Observe(f, OnSubscribe(Run(id, Flat(polls)), f.cursor))
  }

  lemma {:induction false} AcceptedGrows(before: seq<u64>, more: seq<u64>)
    ensures Accepted(before) <= Accepted(before + more)
  {
    if more == [] {
      assert before + more == before;
    } else {
      AcceptedGrows(before, more[..|more| - 1]);
      assert (before + more)[..|before + more| - 1] == before + more[..|more| - 1];
    }
  }

  // ----- the runtime -----

  class Runtime {
    const id: u64
    var sequence: u64
    var lastRequest: u64
    var events: seq<Event>
    /** Every request the runtime was ever given. */
    ghost var requests: seq<u64>

    ghost function View(): Log
      reads this
    {
      Log(id, sequence, lastRequest, events)
    }

    ghost predicate Valid()
      reads this
    {
      View() == Run(id, requests)
    }

    constructor (id: u64)
      ensures Valid() && this.id == id && requests == []
    {
      this.id, sequence, lastRequest, events, requests := id, 0, 0, [], [];
    }

    method Subscribe(cursor: u64) returns (s: Snapshot)
      requires Valid()
      ensures s == OnSubscribe(View(), cursor)
      ensures
        var h := Accepted(requests);
        var reset := cursor > |h| || |h| - cursor > MAX_EVENTS;
        s == Snapshot(id, |h|, |h|, reset, if reset then [] else Numbered(h)[cursor..])
    {
      RunShows(id, requests);
      SubscribeExact(View(), Accepted(requests), cursor);
      hide Shows, Numbered, Accepted, Run;
      var oldest := if |events| == 0 then sequence + 1 else events[0].sequence;
      var reset := cursor > sequence || SaturatingNext(cursor) < oldest;
      return Snapshot(id, sequence, sequence, reset, if reset then [] else After(events, cursor));
    }

    method VerifyBridge(request: u64) returns (r: Result<Snapshot, LogError>)
      requires Valid()
      modifies this
      ensures Valid() && requests == old(requests) + [request]
      ensures (View(), r) == OnVerify(old(View()), request)
    {
      ghost var before := requests;
      requests := requests + [request];
      assert requests[..|before|] == before && requests[|before|] == request;
      if request == 0 || request > MAX_COUNTER { return Err(BadRequest); }
      var cursor := sequence;
      if request <= lastRequest {
        if exists e <- events :: e.request == request {
          var s := Subscribe(cursor);
          return Ok(s);
        }
        return Err(StaleRequest);
      }
      if sequence == MAX_COUNTER { return Err(Exhausted); }
      sequence, lastRequest := sequence + 1, request;
      if |events| == MAX_EVENTS { events := events[1..]; }
      events := events + [Event(sequence, request)];
      var s := Subscribe(cursor);
      return Ok(s);
    }
  }
}
