/** The simulator's queue loop: one message flooded through every node's relay cache. */
module Simulator {
  import opened Types
  import opened RelayCaches
  import opened Flooding

  const FRAME_EXPIRY: nat := 10_000

  function SentFrame(sequence: nat, origin: nat): RelayFrame {
    RelayFrame(sequence + 1, Member(origin), Member(origin), 0, MAX_RELAY_HOPS, FRAME_EXPIRY)
  }

  /** One cache between messages: it holds unexpired keys of earlier messages, and this one's if it was reached. */
  ghost predicate SeenOk(seen: Seen, sequence: nat, key: RelayKey, reached: bool) {
    && (forall k :: k in seen ==> seen[k].expiresAt == FRAME_EXPIRY && (k.id <= sequence || (reached && k == key)))
    && (reached ==> key in seen)
    && |seen| <= sequence + (if reached then 1 else 0)
  }

  ghost predicate CachesOk(caches: seq<RelayCache>, sequence: nat, key: RelayKey, reached: set<nat>)
    reads caches
  {
    forall i :: 0 <= i < |caches| ==>
      caches[i].local == Member(i) && SeenOk(caches[i].seen, sequence, key, i in reached)
  }

  predicate Distinct<T(==)>(s: seq<T>) {
    forall i, j :: 0 <= i < j < |s| ==> s[i] != s[j]
  }

  /** What an honest cache decides about a copy of the current message. */
  lemma AcceptCopy(local: nat, seen: Seen, sequence: nat, origin: nat, via: nat, hops: nat, now: nat, reached: bool)
    requires local != origin && local != via && now < FRAME_EXPIRY && hops <= MAX_RELAY_HOPS
    requires sequence < MAX_RELAY_DEDUP && SeenOk(seen, sequence, SentFrame(sequence, origin).Key(), reached)
    ensures
      var frame := SentFrame(sequence, origin).(previousHop := Member(via), hops := hops);
      var (seen', r) := AcceptSpec(Member(local), seen, frame, Member(via), now);
      if hops >= MAX_RELAY_HOPS then seen' == seen && r == Ok(HopLimit)
      else if reached then seen' == seen && r == Ok(Duplicate)
      else && r == Ok(Forward(frame.(previousHop := Member(local), hops := hops + 1)))
           && SeenOk(seen', sequence, frame.Key(), true)
  {
    assert Live(seen, now) == seen;
    var key := SentFrame(sequence, origin).Key();
    var entry := SeenRelay(FRAME_EXPIRY, now);
    if !reached && hops < MAX_RELAY_HOPS {
      assert key !in seen;
      assert Reserved(seen, key, entry) == seen[key := entry];
      assert seen[key := entry].Keys == seen.Keys + {key};
    }
  }

  function Interval(n: nat): (s: set<nat>)
    ensures |s| == n && forall i: nat :: i in s <==> i < n
  {
    if n == 0 then {} else Interval(n - 1) + {n - 1}
  }

  /** Distinct nodes other than the origin: there are n - 1 exactly when every one of them is there. */
  lemma AllReached(n: nat, o: nat, delivered: set<nat>)
    requires o < n && o !in delivered && forall v :: v in delivered ==> v < n
    ensures |delivered| <= n - 1
    ensures |delivered| == n - 1 <==> forall v :: 0 <= v < n && v != o ==> v in delivered
  {
    var all := Interval(n);
    var others := all - {o};
    assert delivered <= others;
    SubsetSize(delivered, others);
    assert others == delivered + (others - delivered);
  }

  /** In a closed set of nodes that holds the origin, every node on a path from it is there. */
  lemma {:induction false} ClosedReaches(adj: Graph, o: nat, hops: map<nat, nat>, p: seq<nat>, v: nat)
    requires IsPath(adj, p, o, v) && o in hops
    requires forall u, w :: u in hops && u < |adj| && w in adj[u] ==> w in hops
    ensures v in hops
    decreases |p|
  {
    if |p| > 1 {
      var q := p[..|p| - 1];
      ClosedReaches(adj, o, hops, q, q[|q| - 1]);
      assert p[|p| - 2 + 1] in adj[p[|p| - 2]];
    }
  }

  /** Everything a finished flood promises. */
  ghost predicate Flooded(adj: Graph, o: nat, until: nat, t: Trace, dropped: nat) {
    && TraceOk(adj, o, until, t)
    && Covered(adj, o, MAX_RELAY_HOPS, t, [], dropped == 0)
  }

  ghost predicate InTime(t: Trace, bound: seq<nat>) {
    forall u :: u in t.when ==> u < |bound| && t.when[u] <= bound[u]
  }

  /** A schedule within the hop budget. */
  ghost predicate Feasible(adj: Graph, o: nat, until: nat, bound: seq<nat>) {
    Schedule(adj, o, until, bound) && forall u :: 0 <= u < |bound| ==> bound[u] <= MAX_RELAY_HOPS
  }

  ghost predicate Regular(adj: Graph, degree: nat) {
    forall u :: 0 <= u < |adj| ==> |adj[u]| == degree
  }

  /** The nodes that forwarded the message, in order: each once, and exactly those the message reached besides its origin. */
  ghost predicate Forwarders(t: Trace, o: nat, order: seq<nat>) {
    Distinct(order) && forall v :: v in order <==> v in t.hops && v != o
  }

  lemma {:induction false} DistinctOnce(order: seq<nat>, v: nat)
    requires Distinct(order)
    ensures multiset(order)[v] == if v in order then 1 else 0
    decreases |order|
  {
    if order != [] {
      var init, last := order[..|order| - 1], order[|order| - 1];
      assert order == init + [last];
      DistinctOnce(init, v);
      assert last !in init;
    }
  }

  lemma FeasibleReachesAll(adj: Graph, o: nat, until: nat, t: Trace, dropped: nat, bound: seq<nat>, sent: RelayFrame)
    requires IsGraph(adj) && Feasible(adj, o, until, bound) && Flooded(adj, o, until, t, dropped) && InTime(t, bound)
    ensures forall v :: 0 <= v < |adj| ==> v in t.hops
  {
    forall v | 0 <= v < |adj| ensures v in t.hops {
      EarlierReached(adj, o, until, MAX_RELAY_HOPS, t, sent, [], [], bound, bound[v] + 1, v);
    }
  }

  /** On an open network distances are a schedule: no copy is ever deferred. */
  lemma DistanceFeasible(adj: Graph, o: nat, until: nat, dist: seq<nat>)
    requires IsDistance(adj, o, dist) && until <= 1
    requires forall v :: 0 <= v < |dist| ==> dist[v] <= MAX_RELAY_HOPS
    ensures Feasible(adj, o, until, dist)
  {
    forall v | 0 <= v < |adj| && v != o ensures Served(adj, o, until, dist, v) {
      var p :| p in adj[v] && p < |adj| && dist[v] == dist[p] + 1;
    }
  }

  /**
   * First-in first-out flooding of any connected graph within the hop budget: every node but the origin forwards the message
   * exactly once, with a hop count equal to its graph distance from the origin.
   */
  lemma FloodIsShortestPaths(adj: Graph, o: nat, until: nat, t: Trace, order: seq<nat>, dropped: nat, dist: seq<nat>, v: nat)
    requires IsGraph(adj) && IsDistance(adj, o, dist) && until <= 1 && v < |adj|
    requires forall u :: 0 <= u < |dist| ==> dist[u] <= MAX_RELAY_HOPS
    requires Flooded(adj, o, until, t, dropped) && InTime(t, dist) && Forwarders(t, o, order)
    ensures v in t.hops && t.hops[v] == dist[v] && Shortest(adj, o, v, t.hops[v])
    ensures multiset(order)[v] == if v == o then 0 else 1
  {
    hide Shortest, Schedule, Covered, Distinct;
    DistanceFeasible(adj, o, until, dist);
    FeasibleReachesAll(adj, o, until, t, dropped, dist, SentFrame(0, o));
    PathAtLeastDistance(adj, o, dist, t.paths[v], v);
    DistanceIsShortest(adj, o, dist, v);
    DistinctOnce(order, v);
  }

  lemma ConnectedReachesAll(adj: Graph, o: nat, until: nat, t: Trace)
    requires IsGraph(adj) && Connected(adj, o) && Flooded(adj, o, until, t, 0)
    ensures forall v :: 0 <= v < |adj| ==> v in t.hops
  {
    forall u, w | u in t.hops && u < |adj| && w in adj[u] ensures w in t.hops {
      assert !Queued([], u, w);
    }
    forall v | 0 <= v < |adj| ensures v in t.hops {
      assert Reachable(adj, o, v);
      var p :| IsPath(adj, p, o, v);
      ClosedReaches(adj, o, t.hops, p, v);
    }
  }

  // ----- the loop -----

  /** The invariant of the queue loop over its local variables and ghost trace. */
  ghost predicate LoopInv(adj: Graph, o: nat, sequence: nat, until: nat, bound: seq<nat>, report: Report,
    t: Trace, order: seq<nat>, queue: seq<Task>, rounds: seq<nat>, delivered: set<nat>, dropped: nat, now: Report)
  {
    && o < |adj| && o !in delivered && t.hops.Keys == delivered + {o}
    && (forall v :: v in delivered ==> v < |adj|)
    && Forwarders(t, o, order)
    && FloodInv(adj, o, until, MAX_RELAY_HOPS, t, SentFrame(sequence, o), queue, rounds, dropped == 0)
    && (Feasible(adj, o, until, bound) ==> InTime(t, bound))
    && (SpareHop(adj, o, until, bound) ==> dropped == 0)
    && Counted(adj, o, until, report, t, order, |queue|, dropped, now)
  }

  /** A schedule that never uses up the hop budget. */
  ghost predicate SpareHop(adj: Graph, o: nat, until: nat, bound: seq<nat>) {
    Feasible(adj, o, until, bound) && forall u :: 0 <= u < |bound| ==> bound[u] < MAX_RELAY_HOPS
  }

  /** Copies put on the queue: to all neighbours of the origin, and from each forwarder to all but the one it came from. */
  function CopiesSent(adj: Graph, o: nat, order: seq<nat>): int
    requires o < |adj| && forall v <- order :: v < |adj|
  {
    if order == [] then |adj[o]|
    else
      var init, last := order[..|order| - 1], order[|order| - 1];
      assert last in order && forall v <- init :: v in order;
      CopiesSent(adj, o, init) + |adj[last]| - 1
  }

  lemma {:induction false} RegularCopies(adj: Graph, o: nat, order: seq<nat>, degree: nat)
    requires Regular(adj, degree) && o < |adj| && forall v <- order :: v < |adj|
    ensures CopiesSent(adj, o, order) == degree + |order| * (degree - 1)
  {
    if order != [] {
      var init := order[..|order| - 1];
      assert forall v <- init :: v in order;
      RegularCopies(adj, o, init, degree);
      assert order[|order| - 1] in order;
      assert |order| * (degree - 1) == |init| * (degree - 1) + (degree - 1);
    }
  }

  /** Every copy sent is still queued, was a duplicate, was dropped at its hop limit, or was the one its node forwarded. */
  ghost predicate Counted(adj: Graph, o: nat, until: nat, report: Report, t: Trace, order: seq<nat>, queued: nat, dropped: nat, now: Report) {
    && now.hopLimitDrops == report.hopLimitDrops + dropped
    && now.duplicateDrops >= report.duplicateDrops
    && (until <= 1 ==> now.partitionDeferrals == report.partitionDeferrals)
    && o < |adj| && (forall v <- order :: v < |adj|)
    && queued + (now.duplicateDrops - report.duplicateDrops) + dropped + |order| == CopiesSent(adj, o, order)
    && HighestHop(report, t, now)
  }

  ghost predicate HighestHop(report: Report, t: Trace, now: Report) {
    && (forall v :: v in t.hops ==> t.hops[v] <= MAX_RELAY_HOPS && t.hops[v] <= now.maxHopsSeen)
    && (now.maxHopsSeen == report.maxHopsSeen || exists v :: v in t.hops && t.hops[v] == now.maxHopsSeen)
  }

  function Max(a: nat, b: nat): nat { if a > b then a else b }

  /** What the invariant says of the copy at the front of the queue. */
  lemma FrontTask(adj: Graph, o: nat, until: nat, limit: nat, t: Trace, sent: RelayFrame,
    queue: seq<Task>, rounds: seq<nat>, allHops: bool)
    requires |queue| > 0 && IsGraph(adj) && FloodInv(adj, o, until, limit, t, sent, queue, rounds, allHops)
    ensures |rounds| == |queue|
    ensures
      var task := queue[0];
      && task.via in t.hops && task.via in t.paths && task.via < |adj| && task.target < |adj|
      && task.target in adj[task.via] && task.via in adj[task.target] && task.via != task.target
      && task.frame == sent.(previousHop := Member(task.via), hops := t.hops[task.via])
      && (task.attemptAt == 1 || task.attemptAt == until)
  {
    assert TaskOk(adj, o, until, t, sent, queue[0], rounds[0]);
    assert Neighborhood(adj, queue[0].via);
  }

  lemma StartFlood(adj: Graph, o: nat, until: nat, sent: RelayFrame, t: Trace, queue: seq<Task>)
    requires IsGraph(adj) && o < |adj| && sent.previousHop == Member(o) && sent.hops == 0
    requires queue == Copies(adj[o], o, o, sent, 1)
    requires t == Trace(map[o := 0], map[o := 0], map[o := 1], map[o := [o]])
    ensures FloodInv(adj, o, until, MAX_RELAY_HOPS, t, sent, queue, Repeat(1, |queue|), true)
  {
    CopiesAreOf(adj, o, o, sent, 1);
    assert Neighborhood(adj, o);
    assert sent == sent.(previousHop := Member(o), hops := 0);
    assert TraceOk(adj, o, until, t);
    forall i | 0 <= i < |queue| ensures TaskOk(adj, o, until, t, sent, queue[i], 1) {}
  }

  lemma StartLoop(adj: Graph, o: nat, sequence: nat, until: nat, bound: seq<nat>, report: Report, t: Trace, queue: seq<Task>)
    requires IsGraph(adj) && o < |adj|
    requires queue == Copies(adj[o], o, o, SentFrame(sequence, o), 1)
    requires t == Trace(map[o := 0], map[o := 0], map[o := 1], map[o := [o]])
    ensures
      LoopInv(adj, o, sequence, until, bound, report, t, [], queue, Repeat(1, |queue|), {}, 0,
              report.(queueHighWater := Max(report.queueHighWater, |queue|)))
  {
    hide FloodInv;
    StartFlood(adj, o, until, SentFrame(sequence, o), t, queue);
    assert Neighborhood(adj, o);
    CopiesCount(adj[o], o, o, SentFrame(sequence, o), 1);
  }

  lemma TurnDefer(adj: Graph, o: nat, sequence: nat, until: nat, bound: seq<nat>, report: Report,
    t: Trace, order: seq<nat>, queue: seq<Task>, rounds: seq<nat>, delivered: set<nat>, dropped: nat, now: Report)
    requires |queue| > 0 && LoopInv(adj, o, sequence, until, bound, report, t, order, queue, rounds, delivered, dropped, now)
    requires queue[0].attemptAt < until && Crosses(|adj|, queue[0].target, queue[0].via)
    ensures
      var queue' := queue[1..] + [queue[0].(attemptAt := until)];
      && LoopInv(adj, o, sequence, until, bound, report, t, order, queue', rounds[1..] + [rounds[0] + 1], delivered, dropped,
                 now.(partitionDeferrals := now.partitionDeferrals + 1, queueHighWater := Max(now.queueHighWater, |queue'|)))
      && Weight(until, queue') < Weight(until, queue)
  {
    var late := queue[0].(attemptAt := until);
    DeferKeeps(adj, o, until, MAX_RELAY_HOPS, t, SentFrame(sequence, o), queue, rounds, dropped == 0);
    WeightAppend(until, queue[1..], [late]);
    assert TaskOk(adj, o, until, t, SentFrame(sequence, o), queue[0], rounds[0]);
  }

  lemma TurnDuplicate(adj: Graph, o: nat, sequence: nat, until: nat, bound: seq<nat>, report: Report,
    t: Trace, order: seq<nat>, queue: seq<Task>, rounds: seq<nat>, delivered: set<nat>, dropped: nat, now: Report)
    requires |queue| > 0 && LoopInv(adj, o, sequence, until, bound, report, t, order, queue, rounds, delivered, dropped, now)
    requires queue[0].target == o || queue[0].target in delivered
    ensures LoopInv(adj, o, sequence, until, bound, report, t, order, queue[1..], rounds[1..], delivered, dropped,
                    now.(duplicateDrops := now.duplicateDrops + 1))
  {
    DropKeeps(adj, o, until, MAX_RELAY_HOPS, t, SentFrame(sequence, o), queue, rounds, dropped == 0, dropped == 0);
  }

  lemma TurnHopLimit(adj: Graph, o: nat, sequence: nat, until: nat, bound: seq<nat>, report: Report,
    t: Trace, order: seq<nat>, queue: seq<Task>, rounds: seq<nat>, delivered: set<nat>, dropped: nat, now: Report)
    requires |queue| > 0 && LoopInv(adj, o, sequence, until, bound, report, t, order, queue, rounds, delivered, dropped, now)
    requires queue[0].frame.hops >= MAX_RELAY_HOPS
    ensures LoopInv(adj, o, sequence, until, bound, report, t, order, queue[1..], rounds[1..], delivered, dropped + 1,
                    now.(hopLimitDrops := now.hopLimitDrops + 1))
  {
    DropKeeps(adj, o, until, MAX_RELAY_HOPS, t, SentFrame(sequence, o), queue, rounds, dropped == 0, false);
    assert TaskOk(adj, o, until, t, SentFrame(sequence, o), queue[0], rounds[0]);
    assert InTime(t, bound) ==> t.when[queue[0].via] <= bound[queue[0].via];
  }

  lemma NewlyInTime(adj: Graph, o: nat, until: nat, t: Trace, t': Trace, sent: RelayFrame,
    queue: seq<Task>, rounds: seq<nat>, allHops: bool, bound: seq<nat>)
    requires |queue| > 0 && |rounds| > 0 && FloodInv(adj, o, until, MAX_RELAY_HOPS, t, sent, queue, rounds, allHops)
    requires IsGraph(adj) && Feasible(adj, o, until, bound) && InTime(t, bound)
    requires queue[0].target !in t.hops && t'.when == t.when[queue[0].target := rounds[0]]
    ensures InTime(t', bound)
  {
    ReachedInTime(adj, o, until, MAX_RELAY_HOPS, t, sent, queue, rounds, allHops, bound);
  }

  lemma TurnForward(adj: Graph, o: nat, sequence: nat, until: nat, bound: seq<nat>, report: Report,
    t: Trace, t': Trace, order: seq<nat>, queue: seq<Task>, rounds: seq<nat>, delivered: set<nat>, dropped: nat, now: Report,
    w: nat, copies: seq<Task>)
    requires |queue| > 0 && LoopInv(adj, o, sequence, until, bound, report, t, order, queue, rounds, delivered, dropped, now)
    requires IsGraph(adj) && queue[0].target == w && w != o && w !in delivered && w < |adj|
    requires !(queue[0].attemptAt < until && Crosses(|adj|, w, queue[0].via))
    requires queue[0].via in t.paths && queue[0].frame.hops < MAX_RELAY_HOPS
    requires t' == Visited(t, w, queue[0].frame.hops + 1, rounds[0], queue[0].attemptAt, t.paths[queue[0].via] + [w])
    requires copies == Copies(adj[w], queue[0].via, w, SentFrame(sequence, o).(previousHop := Member(w), hops := t'.hops[w]), queue[0].attemptAt)
    ensures
      LoopInv(adj, o, sequence, until, bound, report, t', order + [w], queue[1..] + copies,
              rounds[1..] + Repeat(rounds[0] + 1, |copies|), delivered + {w}, dropped,
              now.(maxHopsSeen := Max(now.maxHopsSeen, t'.hops[w]),
                   queueHighWater := Max(now.queueHighWater, |queue[1..] + copies|)))
  {
    hide FloodInv, Feasible, Forwarders, CopiesSent, InTime;
    var sent := SentFrame(sequence, o);
    var frame := sent.(previousHop := Member(w), hops := t'.hops[w]);
    FrontTask(adj, o, until, MAX_RELAY_HOPS, t, sent, queue, rounds, dropped == 0);
    CopiesAreOf(adj, queue[0].via, w, frame, queue[0].attemptAt);
    ForwardKeeps(adj, o, until, MAX_RELAY_HOPS, t, t', sent, queue, rounds, dropped == 0, copies, w);
    if Feasible(adj, o, until, bound) { NewlyInTime(adj, o, until, t, t', sent, queue, rounds, dropped == 0, bound); }
    assert Neighborhood(adj, w);
    CopiesCount(adj[w], queue[0].via, w, frame, queue[0].attemptAt);
    HighestHopGrows(report, t, t', now, w);
    OneMoreForwarder(adj, o, t, t', order, w);
  }

  lemma OneMoreForwarder(adj: Graph, o: nat, t: Trace, t': Trace, order: seq<nat>, w: nat)
    requires Forwarders(t, o, order) && w !in t.hops && w != o && t'.hops.Keys == t.hops.Keys + {w}
    requires o < |adj| && w < |adj| && forall v <- order :: v < |adj|
    ensures Forwarders(t', o, order + [w])
    ensures (forall v <- order + [w] :: v < |adj|) && CopiesSent(adj, o, order + [w]) == CopiesSent(adj, o, order) + |adj[w]| - 1
  {
    assert (order + [w])[..|order|] == order;
  }

  lemma HighestHopGrows(report: Report, t: Trace, t': Trace, now: Report, w: nat)
    requires HighestHop(report, t, now) && w !in t.hops && w in t'.hops && t'.hops[w] <= MAX_RELAY_HOPS
    requires t'.hops == t.hops[w := t'.hops[w]]
    ensures HighestHop(report, t', now.(maxHopsSeen := Max(now.maxHopsSeen, t'.hops[w])))
  {
    if now.maxHopsSeen != report.maxHopsSeen {
      var v :| v in t.hops && t.hops[v] == now.maxHopsSeen;
      assert t'.hops[v] == now.maxHopsSeen;
    }
    assert t'.hops[w] == t'.hops[w];
  }

  /** What a cache answers to a copy that comes when its frame has expired. */
  lemma AcceptLate(local: nat, seen: Seen, sequence: nat, origin: nat, via: nat, hops: nat, now: nat)
    requires local != origin && local != via && now >= FRAME_EXPIRY && hops <= MAX_RELAY_HOPS
    ensures
      var frame := SentFrame(sequence, origin).(previousHop := Member(via), hops := hops);
      AcceptSpec(Member(local), seen, frame, Member(via), now).1 == if now > MAX_LOGICAL_TIME then Err(InvalidInput) else Ok(ExpiredFrame)
  {
  }

  /** The relay gate of one node, as the loop calls it. */
  method AcceptAt(caches: seq<RelayCache>, sequence: nat, origin: nat, ghost reached: set<nat>, target: nat, frame: RelayFrame,
    via: nat, now: nat)
    returns (r: Result<Decision, DurableError>)
    requires Distinct(caches) && target < |caches| && target != origin && target != via
    requires frame.hops <= MAX_RELAY_HOPS && sequence < MAX_RELAY_DEDUP
    requires frame == SentFrame(sequence, origin).(previousHop := Member(via), hops := frame.hops)
    requires CachesOk(caches, sequence, frame.Key(), reached)
    modifies caches[target]
    ensures now >= FRAME_EXPIRY ==> r == if now > MAX_LOGICAL_TIME then Err(InvalidInput) else Ok(ExpiredFrame)
    ensures now < FRAME_EXPIRY ==>
      && r == Ok(if frame.hops >= MAX_RELAY_HOPS then HopLimit
                 else if target in reached then Duplicate
                 else Forward(frame.(previousHop := Member(target), hops := frame.hops + 1)))
      && CachesOk(caches, sequence, frame.Key(), if r.value.Forward? then reached + {target} else reached)
  {
    hide AcceptSpec, SeenOk;
    if now < FRAME_EXPIRY {
      AcceptCopy(target, caches[target].seen, sequence, origin, via, frame.hops, now, target in reached);
    } else {
      AcceptLate(target, caches[target].seen, sequence, origin, via, frame.hops, now);
    }
    r := caches[target].Accept(frame, Member(via), now);
  }

  /** The error of a copy whose partition heals only when its frame has expired. */
  function TooLate(until: nat): SimError { if until > MAX_LOGICAL_TIME then RelayRejected else ExpiredUnexpectedly }

  /** The partition separates the origin from one of its neighbours. */
  ghost predicate Severed(adj: Graph, o: nat) {
    o < |adj| && exists c :: c in adj[o] && Crosses(|adj|, c, o)
  }

  /** The copies from the origin across the partition are still waiting. */
  ghost predicate Waiting(adj: Graph, o: nat, queue: seq<Task>) {
    o < |adj| && forall c :: c in adj[o] && Crosses(|adj|, c, o) ==> Queued(queue, o, c)
  }

  lemma WaitingTail(adj: Graph, o: nat, queue: seq<Task>, more: seq<Task>)
    requires |queue| > 0 && Waiting(adj, o, queue)
    requires queue[0].target == o || !Crosses(|adj|, queue[0].target, queue[0].via) || Queued(more, queue[0].via, queue[0].target)
    ensures Waiting(adj, o, queue[1..] + more)
  {
    hide Queued;
    forall c | c in adj[o] && Crosses(|adj|, c, o) ensures Queued(queue[1..] + more, o, c) { QueuedTail(queue, more, o, c); }
  }

  lemma WaitingDeferred(adj: Graph, o: nat, queue: seq<Task>, until: nat)
    requires |queue| > 0 && Waiting(adj, o, queue)
    ensures Waiting(adj, o, queue[1..] + [queue[0].(attemptAt := until)])
  {
    var late := queue[0].(attemptAt := until);
    assert [late][0] == late;
    assert Queued([late], late.via, late.target);
    WaitingTail(adj, o, queue, [late]);
  }

  lemma WaitingDropped(adj: Graph, o: nat, queue: seq<Task>)
    requires |queue| > 0 && Waiting(adj, o, queue)
    requires queue[0].target == o || !Crosses(|adj|, queue[0].target, queue[0].via)
    ensures Waiting(adj, o, queue[1..])
  {
    assert queue[1..] + [] == queue[1..];
    WaitingTail(adj, o, queue, []);
  }

  lemma NothingSevered(adj: Graph, o: nat)
    requires Waiting(adj, o, [])
    ensures !Severed(adj, o)
  {
  }

  lemma WaitingStarts(adj: Graph, o: nat, frame: RelayFrame)
    requires IsGraph(adj) && o < |adj|
    ensures Waiting(adj, o, Copies(adj[o], o, o, frame, 1))
  {
    CopiesAreOf(adj, o, o, frame, 1);
  }

  lemma FrontOfLoop(adj: Graph, o: nat, sequence: nat, until: nat, bound: seq<nat>, report: Report,
    t: Trace, order: seq<nat>, queue: seq<Task>, rounds: seq<nat>, delivered: set<nat>, dropped: nat, now: Report)
    requires |queue| > 0 && IsGraph(adj)
    requires LoopInv(adj, o, sequence, until, bound, report, t, order, queue, rounds, delivered, dropped, now)
    ensures |rounds| > 0 && |delivered| < |adj|
    ensures
      var task := queue[0];
      && task.via in t.hops && task.via in t.paths && task.target < |adj| && task.target != task.via
      && task.frame == SentFrame(sequence, o).(previousHop := Member(task.via), hops := t.hops[task.via])
      && task.frame.hops <= MAX_RELAY_HOPS
      && (task.attemptAt == 1 || task.attemptAt == until)
      && Weight(until, queue[1..]) < Weight(until, queue)
      && (task.target != o && task.target !in delivered ==> |delivered + {task.target}| < |adj|)
  {
    FrontTask(adj, o, until, MAX_RELAY_HOPS, t, SentFrame(sequence, o), queue, rounds, dropped == 0);
    AllReached(|adj|, o, delivered);
    if queue[0].target != o { AllReached(|adj|, o, delivered + {queue[0].target}); }
  }

  lemma EndOfLoop(adj: Graph, o: nat, sequence: nat, until: nat, bound: seq<nat>, report: Report,
    t: Trace, order: seq<nat>, rounds: seq<nat>, delivered: set<nat>, dropped: nat, now: Report)
    requires LoopInv(adj, o, sequence, until, bound, report, t, order, [], rounds, delivered, dropped, now)
    ensures Flooded(adj, o, until, t, dropped) && (Feasible(adj, o, until, bound) ==> InTime(t, bound))
    ensures SpareHop(adj, o, until, bound) ==> dropped == 0
    ensures t.hops.Keys == delivered + {o} && o !in delivered
    ensures |delivered| == |adj| - 1 <==> forall v :: 0 <= v < |adj| ==> v in t.hops
    ensures Forwarders(t, o, order)
    ensures Counted(adj, o, until, report, t, order, 0, dropped, now.(recipientDeliveries := now.recipientDeliveries + |delivered|))
  {
    AllReached(|adj|, o, delivered);
  }

  /** What the loop has done when no copy came too late. */
  ghost predicate Finished(caches: seq<RelayCache>, adj: Graph, sequence: nat, o: nat, until: nat, bound: seq<nat>, report: Report,
    t: Trace, order: seq<nat>, dropped: nat, r: Result<Report, SimError>)
    reads caches
  {
    && o in t.hops && CachesOk(caches, sequence, SentFrame(sequence, o).Key(), t.hops.Keys - {o})
    && Flooded(adj, o, until, t, dropped) && Forwarders(t, o, order)
    && (Feasible(adj, o, until, bound) ==> InTime(t, bound))
    && (SpareHop(adj, o, until, bound) ==> dropped == 0)
    && (r.Ok? <==> forall v :: 0 <= v < |adj| ==> v in t.hops)
    && (r.Ok? ==>
          && r.value.recipientDeliveries == report.recipientDeliveries + |adj| - 1
          && Counted(adj, o, until, report, t, order, 0, dropped, r.value))
  }

  /**
   * One message through the queue loop. It fails in two ways only: a member was missed, or a copy came out of the partition
   * after the frame had expired.
   */
  method FloodMessage(caches: seq<RelayCache>, neighbors: Graph, sequence: nat, origin: nat, partitionUntil: nat,
    report: Report, ghost bound: seq<nat>)
    returns (r: Result<Report, SimError>, ghost t: Trace, ghost order: seq<nat>, ghost dropped: nat)
    requires IsGraph(neighbors) && |caches| == |neighbors| && origin < |neighbors| && Distinct(caches)
    requires sequence < MAX_RELAY_DEDUP
    requires CachesOk(caches, sequence, SentFrame(sequence, origin).Key(), {})
    modifies caches
    ensures r.Ok? || r == Err(MissedMember) || (r == Err(TooLate(partitionUntil)) && partitionUntil >= FRAME_EXPIRY)
    ensures partitionUntil >= FRAME_EXPIRY && Severed(neighbors, origin) ==> r == Err(TooLate(partitionUntil))
    ensures r != Err(TooLate(partitionUntil)) ==>
      Finished(caches, neighbors, sequence, origin, partitionUntil, bound, report, t, order, dropped, r)
  {
    hide LoopInv, CachesOk, Flooded, Feasible, SpareHop, InTime, Counted, Weight, Copies, IsGraph, Forwarders, Waiting, Queued;
    var n := |neighbors|;
    var delivered: set<nat> := {};
    var queue := Copies(neighbors[origin], origin, origin, SentFrame(sequence, origin), 1);
    var now := report.(queueHighWater := Max(report.queueHighWater, |queue|));
    t := Trace(map[origin := 0], map[origin := 0], map[origin := 1], map[origin := [origin]]);
    dropped, order := 0, [];
    ghost var rounds := Repeat(1, |queue|);
    StartLoop(neighbors, origin, sequence, partitionUntil, bound, report, t, queue);
    WaitingStarts(neighbors, origin, SentFrame(sequence, origin));
    while queue != []
      invariant LoopInv(neighbors, origin, sequence, partitionUntil, bound, report, t, order, queue, rounds, delivered, dropped, now)
      invariant now.recipientDeliveries == report.recipientDeliveries
      invariant CachesOk(caches, sequence, SentFrame(sequence, origin).Key(), delivered)
      invariant partitionUntil >= FRAME_EXPIRY ==> Waiting(neighbors, origin, queue)
      decreases n - |delivered|, Weight(partitionUntil, queue)
    {
      var task := queue[0];
      FrontOfLoop(neighbors, origin, sequence, partitionUntil, bound, report, t, order, queue, rounds, delivered, dropped, now);
      if task.attemptAt < partitionUntil && Crosses(n, task.target, task.via) {
        TurnDefer(neighbors, origin, sequence, partitionUntil, bound, report, t, order, queue, rounds, delivered, dropped, now);
        if partitionUntil >= FRAME_EXPIRY { WaitingDeferred(neighbors, origin, queue, partitionUntil); }
        queue, rounds := queue[1..] + [task.(attemptAt := partitionUntil)], rounds[1..] + [rounds[0] + 1];
        now := now.(partitionDeferrals := now.partitionDeferrals + 1, queueHighWater := Max(now.queueHighWater, |queue|));
        continue;
      }
      if task.target == origin {
        if partitionUntil >= FRAME_EXPIRY { WaitingDropped(neighbors, origin, queue); }
        TurnDuplicate(neighbors, origin, sequence, partitionUntil, bound, report, t, order, queue, rounds, delivered, dropped, now);
        queue, rounds, now := queue[1..], rounds[1..], now.(duplicateDrops := now.duplicateDrops + 1);
        continue;
      }
      var accepted := AcceptAt(caches, sequence, origin, delivered, task.target, task.frame, task.via, task.attemptAt);
      if accepted.Err? { return Err(RelayRejected), t, order, dropped; }
      match accepted.value
      case Forward(forward) =>
        var copies := Copies(neighbors[task.target], task.via, task.target, forward, task.attemptAt);
        if partitionUntil >= FRAME_EXPIRY { WaitingTail(neighbors, origin, queue, copies); }
        ghost var t' := Visited(t, task.target, task.frame.hops + 1, rounds[0], task.attemptAt, t.paths[task.via] + [task.target]);
        TurnForward(neighbors, origin, sequence, partitionUntil, bound, report, t, t', order, queue, rounds, delivered, dropped, now,
                    task.target, copies);
        t, order, delivered := t', order + [task.target], delivered + {task.target};
        queue, rounds := queue[1..] + copies, rounds[1..] + Repeat(rounds[0] + 1, |copies|);
        now := now.(maxHopsSeen := Max(now.maxHopsSeen, forward.hops), queueHighWater := Max(now.queueHighWater, |queue|));
      case Duplicate =>
        if partitionUntil >= FRAME_EXPIRY { WaitingDropped(neighbors, origin, queue); }
        TurnDuplicate(neighbors, origin, sequence, partitionUntil, bound, report, t, order, queue, rounds, delivered, dropped, now);
        queue, rounds, now := queue[1..], rounds[1..], now.(duplicateDrops := now.duplicateDrops + 1);
      case ExpiredFrame =>
        return Err(ExpiredUnexpectedly), t, order, dropped;
      case HopLimit =>
        if partitionUntil >= FRAME_EXPIRY { WaitingDropped(neighbors, origin, queue); }
        TurnHopLimit(neighbors, origin, sequence, partitionUntil, bound, report, t, order, queue, rounds, delivered, dropped, now);
        queue, rounds, now, dropped := queue[1..], rounds[1..], now.(hopLimitDrops := now.hopLimitDrops + 1), dropped + 1;
    }
    if partitionUntil >= FRAME_EXPIRY { NothingSevered(neighbors, origin); }
    EndOfLoop(neighbors, origin, sequence, partitionUntil, bound, report, t, order, rounds, delivered, dropped, now);
    if |delivered| != n - 1 {
      return Err(MissedMember), t, order, dropped;
    }
    return Ok(now.(recipientDeliveries := now.recipientDeliveries + |delivered|)), t, order, dropped;
  }
}
