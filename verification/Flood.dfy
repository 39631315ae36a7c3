/** Store-and-forward flooding of one message over any bounded graph, with one relay cache a node. */
module Flooding {
  import opened Types
  import opened RelayCaches

  type Graph = seq<seq<nat>>

  /** Symmetric adjacency lists without loops or repeated edges. */
  ghost predicate IsGraph(adj: Graph) {
    forall u :: 0 <= u < |adj| ==> Neighborhood(adj, u)
  }

  ghost predicate Neighborhood(adj: Graph, u: nat)
    requires u < |adj|
  {
    && (forall w :: w in adj[u] ==> w < |adj| && w != u && u in adj[w])
    && (forall i, j :: 0 <= i < j < |adj[u]| ==> adj[u][i] != adj[u][j])
  }

  // ----- paths and distances -----

  ghost predicate IsPath(adj: Graph, p: seq<nat>, u: nat, v: nat) {
    && |p| > 0 && p[0] == u && p[|p| - 1] == v
    && (forall i :: 0 <= i < |p| ==> p[i] < |adj|)
    && (forall i :: 0 <= i < |p| - 1 ==> p[i + 1] in adj[p[i]])
  }

  ghost predicate Connected(adj: Graph, o: nat) {
    forall v :: 0 <= v < |adj| ==> Reachable(adj, o, v)
  }

  ghost predicate Reachable(adj: Graph, o: nat, v: nat) {
    exists p :: IsPath(adj, p, o, v)
  }

  lemma ExtendPath(adj: Graph, p: seq<nat>, o: nat, u: nat, v: nat)
    requires IsPath(adj, p, o, u) && v < |adj| && v in adj[u]
    ensures IsPath(adj, p + [v], o, v)
  {
    var q := p + [v];
    forall i | 0 <= i < |q| - 1 ensures q[i + 1] in adj[q[i]] {
      if i < |p| - 1 { assert p[i + 1] in adj[p[i]]; }
    }
  }

  ghost predicate Shortest(adj: Graph, o: nat, v: nat, d: nat) {
    && (exists p :: IsPath(adj, p, o, v) && |p| == d + 1)
    && (forall p :: IsPath(adj, p, o, v) ==> |p| >= d + 1)
  }

  /** dist is zero at o, changes by at most one along an edge, and drops along some edge elsewhere. */
  ghost predicate IsDistance(adj: Graph, o: nat, dist: seq<nat>) {
    && |dist| == |adj| && o < |adj| && dist[o] == 0
    && (forall u, w :: 0 <= u < |adj| && w in adj[u] && w < |adj| ==> dist[w] <= dist[u] + 1)
    && (forall v :: 0 <= v < |adj| && v != o ==> exists p :: p in adj[v] && p < |adj| && dist[v] == dist[p] + 1)
  }

  lemma {:induction false} PathAtLeastDistance(adj: Graph, o: nat, dist: seq<nat>, p: seq<nat>, v: nat)
    requires IsDistance(adj, o, dist) && IsPath(adj, p, o, v)
    ensures dist[v] + 1 <= |p|
    decreases |p|
  {
    if |p| > 1 {
      var q := p[..|p| - 1];
      PathAtLeastDistance(adj, o, dist, q, q[|q| - 1]);
      assert p[|p| - 2 + 1] in adj[p[|p| - 2]];
    }
  }

  lemma {:induction false} DistancePath(adj: Graph, o: nat, dist: seq<nat>, v: nat) returns (p: seq<nat>)
    requires IsGraph(adj) && IsDistance(adj, o, dist) && v < |adj|
    ensures IsPath(adj, p, o, v) && |p| == dist[v] + 1
    decreases dist[v]
  {
    if v == o {
      p := [o];
    } else {
      var u :| u in adj[v] && u < |adj| && dist[v] == dist[u] + 1;
      assert Neighborhood(adj, v);
      var q := DistancePath(adj, o, dist, u);
      ExtendPath(adj, q, o, u, v);
      p := q + [v];
    }
  }

  /** A distance function is exactly the length of the shortest path. */
  lemma DistanceIsShortest(adj: Graph, o: nat, dist: seq<nat>, v: nat)
    requires IsGraph(adj) && IsDistance(adj, o, dist) && v < |adj|
    ensures Shortest(adj, o, v, dist[v])
  {
    var p := DistancePath(adj, o, dist, v);
    forall q | IsPath(adj, q, o, v) ensures |q| >= dist[v] + 1 {
      PathAtLeastDistance(adj, o, dist, q, v);
    }
  }

  lemma {:induction false} LeastPath(adj: Graph, o: nat, v: nat, p: seq<nat>) returns (d: nat)
    requires IsPath(adj, p, o, v)
    ensures Shortest(adj, o, v, d)
    decreases |p|
  {
    if q :| IsPath(adj, q, o, v) && |q| < |p| {
      d := LeastPath(adj, o, v, q);
    } else {
      d := |p| - 1;
    }
  }

  /** Every finite connected graph has a distance function from every node. */
  lemma DistanceExists(adj: Graph, o: nat) returns (dist: seq<nat>)
    requires IsGraph(adj) && o < |adj| && Connected(adj, o)
    ensures IsDistance(adj, o, dist)
  {
    dist := [];
    while |dist| < |adj|
      invariant |dist| <= |adj|
      invariant forall v :: 0 <= v < |dist| ==> Shortest(adj, o, v, dist[v])
    {
      assert Reachable(adj, o, |dist|);
      var p :| IsPath(adj, p, o, |dist|);
      var d := LeastPath(adj, o, |dist|, p);
      dist := dist + [d];
    }
    assert Shortest(adj, o, o, dist[o]) && IsPath(adj, [o], o, o);
    forall u, w | 0 <= u < |adj| && w in adj[u] && w < |adj| ensures dist[w] <= dist[u] + 1 {
      assert Shortest(adj, o, u, dist[u]) && Shortest(adj, o, w, dist[w]);
      ShortestAlongEdge(adj, o, u, w, dist[u], dist[w]);
    }
    forall v | 0 <= v < |adj| && v != o ensures exists p :: p in adj[v] && p < |adj| && dist[v] == dist[p] + 1 {
      assert Shortest(adj, o, v, dist[v]);
      var u, init := LastStep(adj, o, v, dist[v]);
      assert Shortest(adj, o, u, dist[u]);
      ShortestAlongEdge(adj, o, u, v, dist[u], dist[v]);
    }
  }

  lemma ShortestAlongEdge(adj: Graph, o: nat, u: nat, w: nat, d: nat, e: nat)
    requires Shortest(adj, o, u, d) && Shortest(adj, o, w, e) && u < |adj| && w < |adj| && w in adj[u]
    ensures e <= d + 1
  {
    var p: seq<nat> :| IsPath(adj, p, o, u) && |p| == d + 1;
    ExtendPath(adj, p, o, u, w);
  }

  /** The last edge of a shortest path to another node. */
  lemma LastStep(adj: Graph, o: nat, v: nat, d: nat) returns (u: nat, init: seq<nat>)
    requires IsGraph(adj) && v != o && Shortest(adj, o, v, d)
    ensures u < |adj| && v in adj[u] && u in adj[v] && IsPath(adj, init, o, u) && |init| == d
  {
    var p: seq<nat> :| IsPath(adj, p, o, v) && |p| == d + 1;
    u, init := p[|p| - 2], p[..|p| - 1];
    assert p[|p| - 2 + 1] in adj[u];
    assert Neighborhood(adj, u);
  }

  // ----- the flooding loop -----

  const REPEATED_BYTE: nat := 0x0101010101010101010101010101010101010101010101010101010101010101

  /** The simulator's member of one node: 32 copies of the byte index + 1. */
  function Member(index: nat): MemberId { (index + 1) * REPEATED_BYTE }

  datatype Task = Task(target: nat, via: nat, frame: RelayFrame, attemptAt: nat)

  datatype Report = Report(
    recipientDeliveries: nat,
    maxHopsSeen: nat,
    duplicateDrops: nat,
    hopLimitDrops: nat,
    partitionDeferrals: nat,
    queueHighWater: nat)

  datatype SimError = OutsideLimits | RelayRejected | ExpiredUnexpectedly | MissedMember

  predicate Crosses(n: nat, u: nat, v: nat) { (u < n / 2) != (v < n / 2) }

  /** Rounds an edge can cost: a copy that starts in the origin's half may be deferred once. */
  function Cost(n: nat, o: nat, until: nat, u: nat, v: nat): nat {
    if 1 < until && Crosses(n, u, v) && !Crosses(n, u, o) then 2 else 1
  }

  /** bound is a schedule: each node has a neighbour early enough to hand it the message in time. */
  ghost predicate Schedule(adj: Graph, o: nat, until: nat, bound: seq<nat>) {
    && |bound| == |adj| && o < |adj|
    && (forall v :: 0 <= v < |adj| && v != o ==> Served(adj, o, until, bound, v))
  }

  ghost predicate Served(adj: Graph, o: nat, until: nat, bound: seq<nat>, v: nat)
    requires |bound| == |adj| && v < |adj|
  {
    exists p :: p in adj[v] && p < |adj| && bound[p] + Cost(|adj|, o, until, p, v) <= bound[v]
  }

  /** What the ghost trace of a flood knows of each node that has the message. */
  datatype Trace = Trace(hops: map<nat, nat>, when: map<nat, nat>, stamp: map<nat, nat>, paths: map<nat, seq<nat>>)

  ghost predicate TraceOk(adj: Graph, o: nat, until: nat, t: Trace) {
    && o in t.hops && t.hops[o] == 0 && t.when.Keys == t.hops.Keys && t.when[o] == 0
    && t.stamp.Keys == t.hops.Keys && t.stamp[o] == 1 && t.paths.Keys == t.hops.Keys
    && (forall v :: v in t.hops ==>
          && v < |adj| && t.hops[v] <= t.when[v]
          && (t.stamp[v] == 1 || (t.stamp[v] == until && 1 < until))
          && (1 < until && t.stamp[v] == 1 ==> !Crosses(|adj|, v, o))
          && IsPath(adj, t.paths[v], o, v) && |t.paths[v]| == t.hops[v] + 1)
  }

  /** A queued copy: who sent it, with which hop count, and in which round of the queue it is due. */
  ghost predicate TaskOk(adj: Graph, o: nat, until: nat, t: Trace, sent: RelayFrame, task: Task, round: nat)
    requires TraceOk(adj, o, until, t)
  {
    && task.via in t.hops && task.target in adj[task.via] && task.target < |adj|
    && task.frame == sent.(previousHop := Member(task.via), hops := t.hops[task.via])
    && (|| (task.attemptAt == t.stamp[task.via] && round == t.when[task.via] + 1)
        || (task.attemptAt == until && 1 < until && t.stamp[task.via] == 1
            && Crosses(|adj|, task.via, task.target) && round == t.when[task.via] + 2))
  }

  ghost predicate QueueOk(adj: Graph, o: nat, until: nat, t: Trace, sent: RelayFrame, queue: seq<Task>, rounds: seq<nat>)
    requires TraceOk(adj, o, until, t)
  {
    && |queue| == |rounds|
    && (forall i :: 0 <= i < |queue| ==> TaskOk(adj, o, until, t, sent, queue[i], rounds[i]))
    && RoundsOk(t.when, rounds)
  }

  ghost function Repeat(round: nat, count: nat): seq<nat> { seq(count, _ => round) }

  /** The queue spans at most two rounds, in order, and no node was reached in a later round than its front. */
  ghost predicate RoundsOk(when: map<nat, nat>, rounds: seq<nat>) {
    && (forall i :: 0 <= i < |rounds| ==> rounds[0] <= rounds[i] <= rounds[0] + 1)
    && (forall i, j :: 0 <= i < j < |rounds| ==> rounds[i] <= rounds[j])
    && (forall v :: v in when && |rounds| > 0 ==> when[v] <= rounds[0])
  }

  lemma RoundsAdvance(when: map<nat, nat>, when': map<nat, nat>, rounds: seq<nat>, more: nat)
    requires |rounds| > 0 && RoundsOk(when, rounds)
    requires forall v :: v in when' ==> when'[v] <= rounds[0]
    ensures RoundsOk(when', rounds[1..] + Repeat(rounds[0] + 1, more))
  {
    var rounds' := rounds[1..] + Repeat(rounds[0] + 1, more);
    forall i | 0 <= i < |rounds'| ensures rounds[0] <= rounds'[i] <= rounds[0] + 1 {}
  }

  ghost predicate Queued(queue: seq<Task>, via: nat, target: nat) {
    exists i :: 0 <= i < |queue| && queue[i].via == via && queue[i].target == target
  }

  /** Every neighbour of a node that has the message has it too, or a copy is on its way. */
  ghost predicate Covered(adj: Graph, o: nat, limit: nat, t: Trace, queue: seq<Task>, allHops: bool) {
    forall u, w :: u in t.hops && u < |adj| && w in adj[u] && w !in t.hops && (allHops || t.hops[u] < limit)
      ==> Queued(queue, u, w)
  }

  /** Nodes whose bound lies before the queue's first round have the message already. */
  lemma {:induction false} EarlierReached(adj: Graph, o: nat, until: nat, limit: nat, t: Trace, sent: RelayFrame,
    queue: seq<Task>, rounds: seq<nat>, bound: seq<nat>, round: nat, v: nat)
    requires TraceOk(adj, o, until, t) && QueueOk(adj, o, until, t, sent, queue, rounds)
    requires IsGraph(adj) && Covered(adj, o, limit, t, queue, false) && Schedule(adj, o, until, bound)
    requires forall u :: u in t.hops ==> t.when[u] <= bound[u]
    requires forall u :: 0 <= u < |bound| ==> bound[u] <= limit
    requires forall i :: 0 <= i < |rounds| ==> round <= rounds[i]
    requires v < |adj| && bound[v] < round
    ensures v in t.hops
    decreases bound[v]
  {
    if v != o {
      assert Served(adj, o, until, bound, v);
      var p :| p in adj[v] && p < |adj| && bound[p] + Cost(|adj|, o, until, p, v) <= bound[v];
      EarlierReached(adj, o, until, limit, t, sent, queue, rounds, bound, round, p);
      assert Neighborhood(adj, v);
      if Queued(queue, p, v) { QueuedSoon(adj, o, until, t, sent, queue, rounds, round, p, v); }
    }
  }

  /** A queued copy is due within the cost of its edge after its sender's round. */
  lemma QueuedSoon(adj: Graph, o: nat, until: nat, t: Trace, sent: RelayFrame, queue: seq<Task>, rounds: seq<nat>,
    round: nat, p: nat, v: nat)
    requires TraceOk(adj, o, until, t) && QueueOk(adj, o, until, t, sent, queue, rounds)
    requires forall i :: 0 <= i < |rounds| ==> round <= rounds[i]
    requires p in t.hops && Queued(queue, p, v)
    ensures round <= t.when[p] + Cost(|adj|, o, until, p, v)
  {
    var i :| 0 <= i < |queue| && queue[i].via == p && queue[i].target == v;
    assert TaskOk(adj, o, until, t, sent, queue[i], rounds[i]);
  }

  function Weight(until: nat, queue: seq<Task>): nat {
    if queue == [] then 0
    else (if queue[0].attemptAt < until then 2 else 1) + Weight(until, queue[1..])
  }

  lemma {:induction false} WeightAppend(until: nat, a: seq<Task>, b: seq<Task>)
    ensures Weight(until, a + b) == Weight(until, a) + Weight(until, b)
  {
    if a == [] {
      assert a + b == b;
    } else {
      WeightAppend(until, a[1..], b);
      assert (a + b)[1..] == a[1..] + b;
    }
  }

  // ----- the copies a node sends on -----

  function Copies(list: seq<nat>, via: nat, sender: nat, frame: RelayFrame, attemptAt: nat): seq<Task> {
    if list == [] then []
    else
      var (init, last) := (list[..|list| - 1], list[|list| - 1]);
      Copies(init, via, sender, frame, attemptAt) + (if last == via then [] else [Task(last, sender, frame, attemptAt)])
  }

  lemma {:induction false} CopiesExactly(list: seq<nat>, via: nat, sender: nat, frame: RelayFrame, attemptAt: nat)
    ensures
      var c := Copies(list, via, sender, frame, attemptAt);
      && (forall i :: 0 <= i < |c| ==> c[i] == Task(c[i].target, sender, frame, attemptAt) && c[i].target in list && c[i].target != via)
      && (forall w :: w in list && w != via ==> Queued(c, sender, w))
  {
    if list != [] {
      var (init, last) := (list[..|list| - 1], list[|list| - 1]);
      CopiesExactly(init, via, sender, frame, attemptAt);
      var d, c := Copies(init, via, sender, frame, attemptAt), Copies(list, via, sender, frame, attemptAt);
      forall w | w in list && w != via ensures Queued(c, sender, w) {
        if w in init {
          assert Queued(d, sender, w);
          var i :| 0 <= i < |d| && d[i].via == sender && d[i].target == w;
          assert c[i] == d[i];
        } else {
          assert w == last && c[|c| - 1].target == w;
        }
      }
    }
  }

  lemma {:induction false} CopiesCount(list: seq<nat>, via: nat, sender: nat, frame: RelayFrame, attemptAt: nat)
    requires forall i, j :: 0 <= i < j < |list| ==> list[i] != list[j]
    ensures |Copies(list, via, sender, frame, attemptAt)| + (if via in list then 1 else 0) == |list|
  {
    if list != [] {
      CopiesCount(list[..|list| - 1], via, sender, frame, attemptAt);
      assert list == list[..|list| - 1] + [list[|list| - 1]];
    }
  }

  // ----- what one turn of the loop keeps -----

  ghost predicate FloodInv(adj: Graph, o: nat, until: nat, limit: nat, t: Trace, sent: RelayFrame,
    queue: seq<Task>, rounds: seq<nat>, allHops: bool)
  {
    TraceOk(adj, o, until, t) && QueueOk(adj, o, until, t, sent, queue, rounds) && Covered(adj, o, limit, t, queue, allHops)
  }

  lemma QueuedTail(queue: seq<Task>, more: seq<Task>, via: nat, target: nat)
    requires |queue| > 0 && Queued(queue, via, target)
    requires queue[0].target != target || queue[0].via != via || Queued(more, via, target)
    ensures Queued(queue[1..] + more, via, target)
  {
    var rest := queue[1..] + more;
    if Queued(more, via, target) {
      var i :| 0 <= i < |more| && more[i].via == via && more[i].target == target;
      assert rest[|queue| - 1 + i] == more[i];
    } else {
      var i :| 0 <= i < |queue| && queue[i].via == via && queue[i].target == target;
      assert rest[i - 1] == queue[i];
    }
  }

  /** A copy is dropped: its target has the message, or its hops are spent. */
  lemma DropKeeps(adj: Graph, o: nat, until: nat, limit: nat, t: Trace, sent: RelayFrame,
    queue: seq<Task>, rounds: seq<nat>, allHops: bool, allHops': bool)
    requires |queue| > 0 && FloodInv(adj, o, until, limit, t, sent, queue, rounds, allHops)
    requires allHops' ==> allHops
    requires queue[0].target in t.hops || (!allHops' && queue[0].frame.hops >= limit)
    ensures FloodInv(adj, o, until, limit, t, sent, queue[1..], rounds[1..], allHops')
  {
    assert TaskOk(adj, o, until, t, sent, queue[0], rounds[0]);
    RoundsAdvance(t.when, t.when, rounds, 0);
    assert rounds[1..] == rounds[1..] + Repeat(rounds[0] + 1, 0);
    forall u, w | u in t.hops && u < |adj| && w in adj[u] && w !in t.hops && (allHops' || t.hops[u] < limit)
      ensures Queued(queue[1..], u, w)
    {
      QueuedTail(queue, [], u, w);
      assert queue[1..] + [] == queue[1..];
    }
  }

  /** A copy across the open partition goes to the back of the queue, due one round later. */
  lemma DeferKeeps(adj: Graph, o: nat, until: nat, limit: nat, t: Trace, sent: RelayFrame,
    queue: seq<Task>, rounds: seq<nat>, allHops: bool)
    requires |queue| > 0 && FloodInv(adj, o, until, limit, t, sent, queue, rounds, allHops)
    requires queue[0].attemptAt < until && Crosses(|adj|, queue[0].target, queue[0].via)
    ensures FloodInv(adj, o, until, limit, t, sent,
                     queue[1..] + [queue[0].(attemptAt := until)], rounds[1..] + [rounds[0] + 1], allHops)
  {
    var late := queue[0].(attemptAt := until);
    assert TaskOk(adj, o, until, t, sent, queue[0], rounds[0]);
    assert TaskOk(adj, o, until, t, sent, late, rounds[0] + 1);
    RoundsAdvance(t.when, t.when, rounds, 1);
    assert rounds[1..] + [rounds[0] + 1] == rounds[1..] + Repeat(rounds[0] + 1, 1);
    forall u, w | u in t.hops && u < |adj| && w in adj[u] && w !in t.hops && (allHops || t.hops[u] < limit)
      ensures Queued(queue[1..] + [late], u, w)
    {
      if u == late.via && w == late.target { assert [late][0] == late; assert Queued([late], u, w); }
      QueuedTail(queue, [late], u, w);
    }
  }

  ghost function Visited(t: Trace, w: nat, hops: nat, when: nat, stamp: nat, path: seq<nat>): Trace {
    Trace(t.hops[w := hops], t.when[w := when], t.stamp[w := stamp], t.paths[w := path])
  }

  lemma VisitTraceOk(adj: Graph, o: nat, until: nat, t: Trace, t': Trace, sent: RelayFrame, task: Task, round: nat)
    requires TraceOk(adj, o, until, t) && TaskOk(adj, o, until, t, sent, task, round)
    requires task.target !in t.hops
    requires !(task.attemptAt < until && Crosses(|adj|, task.target, task.via))
    requires t' == Visited(t, task.target, task.frame.hops + 1, round, task.attemptAt, t.paths[task.via] + [task.target])
    ensures TraceOk(adj, o, until, t')
  {
    ExtendPath(adj, t.paths[task.via], o, task.via, task.target);
  }

  ghost predicate CopiesOf(adj: Graph, copies: seq<Task>, w: nat, frame: RelayFrame, attemptAt: nat)
    requires w < |adj|
  {
    forall i :: 0 <= i < |copies| ==>
      && copies[i].via == w && copies[i].target in adj[w] && copies[i].target < |adj|
      && copies[i].frame == frame && copies[i].attemptAt == attemptAt
  }

  lemma CopiesAreOf(adj: Graph, via: nat, w: nat, frame: RelayFrame, attemptAt: nat)
    requires IsGraph(adj) && w < |adj|
    ensures CopiesOf(adj, Copies(adj[w], via, w, frame, attemptAt), w, frame, attemptAt)
    ensures forall x :: x in adj[w] && x != via ==> Queued(Copies(adj[w], via, w, frame, attemptAt), w, x)
  {
    assert Neighborhood(adj, w);
    CopiesExactly(adj[w], via, w, frame, attemptAt);
  }

  /** The queue after a first copy is accepted and sent on. */
  lemma ForwardQueueOk(adj: Graph, o: nat, until: nat, t: Trace, t': Trace, sent: RelayFrame,
    queue: seq<Task>, rounds: seq<nat>, copies: seq<Task>, w: nat)
    requires |queue| > 0 && TraceOk(adj, o, until, t) && TraceOk(adj, o, until, t')
    requires QueueOk(adj, o, until, t, sent, queue, rounds)
    requires w !in t.hops && w in t'.hops && w < |adj| && t'.when[w] == rounds[0]
    requires t' == Visited(t, w, t'.hops[w], rounds[0], t'.stamp[w], t'.paths[w])
    requires CopiesOf(adj, copies, w, sent.(previousHop := Member(w), hops := t'.hops[w]), t'.stamp[w])
    ensures QueueOk(adj, o, until, t', sent, queue[1..] + copies, rounds[1..] + Repeat(rounds[0] + 1, |copies|))
  {
    var queue', rounds' := queue[1..] + copies, rounds[1..] + Repeat(rounds[0] + 1, |copies|);
    RoundsAdvance(t.when, t'.when, rounds, |copies|);
    forall i | 0 <= i < |queue'| ensures TaskOk(adj, o, until, t', sent, queue'[i], rounds'[i]) {
      if i < |queue| - 1 {
        assert TaskOk(adj, o, until, t, sent, queue[i + 1], rounds[i + 1]);
      } else {
        assert queue'[i] == copies[i - (|queue| - 1)];
      }
    }
  }

  lemma ForwardCovered(adj: Graph, o: nat, limit: nat, t: Trace, t': Trace,
    queue: seq<Task>, allHops: bool, copies: seq<Task>, w: nat)
    requires |queue| > 0 && Covered(adj, o, limit, t, queue, allHops)
    requires queue[0].target == w && w < |adj|
    requires t'.hops.Keys == t.hops.Keys + {w} && forall u :: u in t.hops && u != w ==> t'.hops[u] == t.hops[u]
    requires w !in t.hops && forall x :: x in adj[w] && x !in t'.hops ==> Queued(copies, w, x)
    ensures Covered(adj, o, limit, t', queue[1..] + copies, allHops)
  {
    forall u, x | u in t'.hops && u < |adj| && x in adj[u] && x !in t'.hops && (allHops || t'.hops[u] < limit)
      ensures Queued(queue[1..] + copies, u, x)
    {
      if u == w {
        var i :| 0 <= i < |copies| && copies[i].via == w && copies[i].target == x;
        assert (queue[1..] + copies)[|queue| - 1 + i] == copies[i];
      } else {
        QueuedTail(queue, copies, u, x);
      }
    }
  }

  /** A first copy is accepted: the node joins the trace and sends on to its other neighbours. */
  lemma ForwardKeeps(adj: Graph, o: nat, until: nat, limit: nat, t: Trace, t': Trace, sent: RelayFrame,
    queue: seq<Task>, rounds: seq<nat>, allHops: bool, copies: seq<Task>, w: nat)
    requires |queue| > 0 && FloodInv(adj, o, until, limit, t, sent, queue, rounds, allHops)
    requires IsGraph(adj) && queue[0].target == w && w !in t.hops && w < |adj|
    requires !(queue[0].attemptAt < until && Crosses(|adj|, w, queue[0].via))
    requires queue[0].via in t.paths
    requires t' == Visited(t, w, queue[0].frame.hops + 1, rounds[0], queue[0].attemptAt, t.paths[queue[0].via] + [w])
    requires CopiesOf(adj, copies, w, sent.(previousHop := Member(w), hops := t'.hops[w]), queue[0].attemptAt)
    requires forall x :: x in adj[w] && x != queue[0].via ==> Queued(copies, w, x)
    ensures FloodInv(adj, o, until, limit, t', sent, queue[1..] + copies, rounds[1..] + Repeat(rounds[0] + 1, |copies|), allHops)
  {
    hide CopiesOf, IsGraph, Queued, Covered, IsPath, Crosses, RoundsOk;
    assert TaskOk(adj, o, until, t, sent, queue[0], rounds[0]);
    VisitTraceOk(adj, o, until, t, t', sent, queue[0], rounds[0]);
    ForwardQueueOk(adj, o, until, t, t', sent, queue, rounds, copies, w);
    ForwardCovered(adj, o, limit, t, t', queue, allHops, copies, w);
  }

  /** The bound of a newly reached node is kept. */
  lemma ReachedInTime(adj: Graph, o: nat, until: nat, limit: nat, t: Trace, sent: RelayFrame,
    queue: seq<Task>, rounds: seq<nat>, allHops: bool, bound: seq<nat>)
    requires |queue| > 0 && FloodInv(adj, o, until, limit, t, sent, queue, rounds, allHops)
    requires IsGraph(adj) && Schedule(adj, o, until, bound)
    requires forall u :: u in t.hops ==> t.when[u] <= bound[u]
    requires forall u :: 0 <= u < |bound| ==> bound[u] <= limit
    requires queue[0].target !in t.hops
    ensures queue[0].target < |bound| && rounds[0] <= bound[queue[0].target]
  {
    assert TaskOk(adj, o, until, t, sent, queue[0], rounds[0]);
    if bound[queue[0].target] < rounds[0] {
      EarlierReached(adj, o, until, limit, t, sent, queue, rounds, bound, rounds[0], queue[0].target);
    }
  }
}
