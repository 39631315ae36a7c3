/** The simulator's fifty-phone campaign over the even overlay, with and without a temporary partition. */
module Topology {
  import opened Types
  import opened RelayCaches
  import opened Flooding
  import opened Simulator
  import opened Overlay
  import opened Sums

  // ----- a schedule that survives one deferral -----

  /** Rounds by which a node has the message: its ring distance inside the origin's half, or one spare round. */
  function DeferredBound(n: nat, o: nat, v: nat): nat
    requires HasChord(n) && o < n && v < n
  {
    if Crosses(n, v, o) || RingSteps(n, o, v) > Hops(n, o, v) + 1 then Hops(n, o, v) + 1 else RingSteps(n, o, v)
  }

  function DeferredSchedule(n: nat, o: nat): (s: seq<nat>)
    requires HasChord(n) && o < n
    ensures |s| == n && forall v :: 0 <= v < n ==> s[v] == DeferredBound(n, o, v)
  {
    seq(n, v requires 0 <= v < n => DeferredBound(n, o, v))
  }

  lemma RingNeighbors(n: nat, o: nat, v: nat)
    requires HasChord(n) && o < n && v < n
    ensures
      var (r, b, a) := (RingSteps(n, o, v), RingSteps(n, o, Before(n, v)), RingSteps(n, o, After(n, v)));
      && (r == 0 ==> b == 1 && a == 1)
      && (r == n / 2 ==> b == r - 1 && a == r - 1)
      && (0 < r < n / 2 ==> (b == r - 1 && a == r + 1) || (b == r + 1 && a == r - 1))
  {
  }

  /** Some neighbour of v is early enough, whether or not its copy to v is deferred once. */
  lemma EarlyNeighbor(n: nat, o: nat, until: nat, v: nat) returns (p: nat)
    requires HasChord(n) && o < n && v < n && v != o
    ensures p < n && Adjacent(n, v, p)
    ensures DeferredBound(n, o, p) + Cost(n, o, until, p, v) <= DeferredBound(n, o, v)
  {
    var r := RingSteps(n, o, v);
    var aroundRing := if Crosses(n, v, o) then r <= n / 2 + 1 - r else r <= Hops(n, o, v) + 1;
    RingNeighbors(n, o, v);
    if r == n / 2 {
      p := o;
    } else {
      var towards := if aroundRing then r - 1 else r + 1;
      p := if RingSteps(n, o, Before(n, v)) == towards then Before(n, v) else After(n, v);
    }
  }

  lemma DeferredScheduleHolds(adj: Graph, n: nat, o: nat, until: nat)
    requires IsOverlay(adj, n) && HasChord(n) && n <= MAX_GROUP_MEMBERS && o < n
    ensures SpareHop(adj, o, until, DeferredSchedule(n, o))
  {
    hide DeferredBound, SpareHop, Adjacent, Cost;
    var bound := DeferredSchedule(n, o);
    forall v | 0 <= v < |adj| && v != o ensures Served(adj, o, until, bound, v) {
      var p := EarlyNeighbor(n, o, until, v);
      assert p in adj[v];
    }
    forall u | 0 <= u < |bound| ensures bound[u] < MAX_RELAY_HOPS { DeferredHops(n, o, u); }
    ScheduleSpares(adj, o, until, bound);
  }

  lemma ScheduleSpares(adj: Graph, o: nat, until: nat, bound: seq<nat>)
    requires Schedule(adj, o, until, bound)
    requires forall u :: 0 <= u < |bound| ==> bound[u] < MAX_RELAY_HOPS
    ensures SpareHop(adj, o, until, bound)
  {
    hide Schedule;
  }

  lemma DeferredHops(n: nat, o: nat, v: nat)
    requires HasChord(n) && o < n && v < n
    ensures DeferredBound(n, o, v) <= (n + 2) / 4 + 1
  {
    hide Hops, RingSteps;
    var _ := OverlayDiameter(n, o);
  }

  lemma DistanceScheduleHolds(adj: Graph, n: nat, o: nat, until: nat)
    requires IsOverlay(adj, n) && HasChord(n) && n <= MAX_GROUP_MEMBERS && o < n && until <= 1
    ensures SpareHop(adj, o, until, HopsFrom(n, o))
  {
    hide Hops, Adjacent, IsOverlay, IsDistance, Schedule, IsGraph, HopsFrom;
    HopsIsDistance(adj, n, o);
    var _ := OverlayDiameter(n, o);
    forall v | 0 <= v < n ensures HopsFrom(n, o)[v] <= 13 { assert HopsFrom(n, o)[v] == Hops(n, o, v); }
    DistanceFeasible(adj, o, until, HopsFrom(n, o));
  }

  // ----- building the overlay -----

  predicate Ascending(s: seq<nat>) {
    forall i, j :: 0 <= i < j < |s| ==> s[i] < s[j]
  }

  /** Insertion into an ordered set. */
  method InsertPeer(s: seq<nat>, x: nat) returns (r: seq<nat>)
    requires Ascending(s)
    ensures Ascending(r) && (forall y :: y in r <==> y in s || y == x)
    ensures |r| == |s| + (if x in s then 0 else 1)
  {
    var i := 0;
    while i < |s| && s[i] < x
      invariant 0 <= i <= |s| && forall j :: 0 <= j < i ==> s[j] < x
    {
      i := i + 1;
    }
    if i < |s| && s[i] == x { return s; }
    r := s[..i] + [x] + s[i..];
    assert forall y :: y in s ==> y in s[..i] || y in s[i..];
  }

  method BuildOverlay(nodes: nat) returns (neighbors: Graph)
    requires HasChord(nodes)
    ensures IsOverlay(neighbors, nodes) && Regular(neighbors, 3)
    ensures forall u :: 0 <= u < nodes ==> Ascending(neighbors[u])
  {
    neighbors := [];
    while |neighbors| < nodes
      invariant |neighbors| <= nodes
      invariant forall u :: 0 <= u < |neighbors| ==>
        Ascending(neighbors[u]) && |neighbors[u]| == 3 && (forall w: nat :: w in neighbors[u] <==> w < nodes && Adjacent(nodes, u, w))
    {
      var node := |neighbors|;
      ModuloSteps(nodes, node);
      var peers := InsertPeer([], (node + nodes - 1) % nodes);
      peers := InsertPeer(peers, (node + 1) % nodes);
      peers := InsertPeer(peers, (node + nodes / 2) % nodes);
      neighbors := neighbors + [peers];
    }
    forall u | 0 <= u < nodes ensures Neighborhood(neighbors, u) {
      forall w | w in neighbors[u] ensures u in neighbors[w] {
        assert Adjacent(nodes, w, u);
      }
    }
  }

  method NewCaches(nodes: nat) returns (caches: seq<RelayCache>)
    ensures |caches| == nodes && Distinct(caches) && fresh(caches)
    ensures forall i :: 0 <= i < nodes ==> caches[i].local == Member(i) && caches[i].seen == map[]
  {
    caches := [];
    while |caches| < nodes
      invariant |caches| <= nodes && Distinct(caches) && fresh(caches)
      invariant forall i :: 0 <= i < |caches| ==> caches[i].local == Member(i) && caches[i].seen == map[]
    {
      var cache := new RelayCache(Member(|caches|));
      caches := caches + [cache];
    }
  }

  datatype TopologyReport = TopologyReport(
    nodes: nat,
    messages: nat,
    expectedRecipientDeliveries: nat,
    maxWifiAwareDegree: nat,
    maxAuthenticatedDegree: nat,
    flood: Report)

  predicate WithinLimits(nodes: nat, messages: nat) {
    4 <= nodes <= MAX_GROUP_MEMBERS && nodes % 2 == 0 && 1 <= messages <= 32
  }

  ghost predicate Kept(caches: seq<RelayCache>, sequence: nat)
    reads caches
  {
    forall i :: 0 <= i < |caches| ==>
      caches[i].local == Member(i) && |caches[i].seen| <= sequence
      && forall k :: k in caches[i].seen ==> caches[i].seen[k].expiresAt == FRAME_EXPIRY && k.id <= sequence
  }

  lemma KeptStarts(caches: seq<RelayCache>, sequence: nat, origin: nat)
    requires Kept(caches, sequence)
    ensures CachesOk(caches, sequence, SentFrame(sequence, origin).Key(), {})
  {
  }

  lemma KeptAfter(caches: seq<RelayCache>, sequence: nat, origin: nat, reached: set<nat>)
    requires CachesOk(caches, sequence, SentFrame(sequence, origin).Key(), reached)
    ensures Kept(caches, sequence + 1)
  {
    forall i | 0 <= i < |caches|
      ensures |caches[i].seen| <= sequence + 1
      ensures forall k :: k in caches[i].seen ==> caches[i].seen[k].expiresAt == FRAME_EXPIRY && k.id <= sequence + 1
    {
      assert SeenOk(caches[i].seen, sequence, SentFrame(sequence, origin).Key(), i in reached);
    }
  }

  /** With no partition the farthest node is reached in exactly the diameter. */
  ghost predicate HopsExact(until: nat, nodes: nat, messages: nat, maxHops: nat) {
    && maxHops <= (nodes + 2) / 4 + 1
    && (until <= 1 && messages > 0 ==> maxHops == (nodes + 2) / 4)
  }

  /** Without a partition every node is reached over a shortest path. */
  lemma ExactHops(adj: Graph, n: nat, o: nat, until: nat, t: Trace, v: nat)
    requires IsOverlay(adj, n) && HasChord(n) && o < n && v in t.hops && v < n
    requires TraceOk(adj, o, until, t) && InTime(t, HopsFrom(n, o))
    ensures t.hops[v] == Hops(n, o, v)
  {
    hide Hops;
    HopsIsDistance(adj, n, o);
    PathAtLeastDistance(adj, o, HopsFrom(n, o), t.paths[v], v);
  }

  /** What one flooded message adds to the campaign's highest hop count. */
  lemma OneMessage(adj: Graph, n: nat, o: nat, until: nat, report: Report, t: Trace, order: seq<nat>, dropped: nat, now: Report,
    messages: nat)
    requires IsOverlay(adj, n) && HasChord(n) && n <= MAX_GROUP_MEMBERS && o < n
    requires Flooded(adj, o, until, t, dropped) && Counted(adj, o, until, report, t, order, 0, dropped, now)
    requires InTime(t, if until <= 1 then HopsFrom(n, o) else DeferredSchedule(n, o))
    requires forall v :: 0 <= v < n ==> v in t.hops
    requires HopsExact(until, n, messages, report.maxHopsSeen) && (messages == 0 ==> report.maxHopsSeen == 0)
    ensures HopsExact(until, n, messages + 1, now.maxHopsSeen)
  {
    hide IsOverlay, Schedule, Covered, Regular, Hops, RingSteps, Adjacent, CopiesSent;
    var far := OverlayDiameter(n, o);
    assert HighestHop(report, t, now) && TraceOk(adj, o, until, t);
    if until <= 1 {
      forall v | v in t.hops ensures t.hops[v] == Hops(n, o, v) { ExactHops(adj, n, o, until, t, v); }
      assert t.hops[far] == (n + 2) / 4;
    } else {
      forall v | v in t.hops ensures t.hops[v] <= (n + 2) / 4 + 1 { DeferredHops(n, o, v); }
    }
  }

  /** One turn of the campaign: message number `sequence` leaves its origin and reaches everyone. */
  method RunMessage(caches: seq<RelayCache>, neighbors: Graph, sequence: nat, partitionUntil: nat, report: Report)
    returns (r: Result<Report, SimError>)
    requires IsOverlay(neighbors, |neighbors|) && Regular(neighbors, 3) && HasChord(|neighbors|) && |neighbors| <= MAX_GROUP_MEMBERS
    requires |caches| == |neighbors| && Distinct(caches) && Kept(caches, sequence) && sequence < 32
    requires HopsExact(partitionUntil, |neighbors|, sequence, report.maxHopsSeen) && (sequence == 0 ==> report.maxHopsSeen == 0)
    modifies caches
    ensures partitionUntil >= FRAME_EXPIRY ==> r == Err(TooLate(partitionUntil))
    ensures partitionUntil < FRAME_EXPIRY ==>
      && Kept(caches, sequence + 1) && r.Ok?
      && HopsExact(partitionUntil, |neighbors|, sequence + 1, r.value.maxHopsSeen)
      && r.value.recipientDeliveries == report.recipientDeliveries + |neighbors| - 1
      && r.value.hopLimitDrops == report.hopLimitDrops
      && r.value.duplicateDrops == report.duplicateDrops + |neighbors| + 2
      && (partitionUntil <= 1 ==> r.value.partitionDeferrals == report.partitionDeferrals)
  {
    hide IsOverlay, Kept, CachesOk, Flooded, InTime, SpareHop, Feasible, Counted, Regular, HopsExact, IsGraph, HopsFrom, DeferredSchedule, Forwarders;
    var nodes := |neighbors|;
    var origin := sequence % nodes;
    ghost var bound := if partitionUntil <= 1 then HopsFrom(nodes, origin) else DeferredSchedule(nodes, origin);
    ScheduleHolds(neighbors, nodes, origin, partitionUntil);
    KeptStarts(caches, sequence, origin);
    var outcome, t, order, dropped := FloodMessage(caches, neighbors, sequence, origin, partitionUntil, report, bound);
    r := outcome;
    if partitionUntil >= FRAME_EXPIRY {
      OppositeSevered(neighbors, nodes, origin);
      return;
    }
    ReachedAll(neighbors, origin, partitionUntil, t, dropped, bound, SentFrame(sequence, origin));
    OneMessage(neighbors, nodes, origin, partitionUntil, report, t, order, dropped, outcome.value, sequence);
    CountedThree(neighbors, origin, partitionUntil, report, t, order, nodes, dropped, outcome.value);
    KeptAfter(caches, sequence, origin, t.hops.Keys - {origin});
  }

  /** Opposite members are in different halves. */
  lemma OppositeSevered(adj: Graph, n: nat, o: nat)
    requires IsOverlay(adj, n) && HasChord(n) && o < n
    ensures Severed(adj, o)
  {
    assert Adjacent(n, o, Opposite(n, o)) && Crosses(n, Opposite(n, o), o);
  }

  /**
   * Within its limits the campaign fails just when the partition outlasts the frames. Otherwise every message reaches every other
   * node, no copy is lost to the hop limit, and the number of duplicates is fixed by the topology alone.
   */
  method RunRelayTopologyWithPartition(nodes: nat, messages: nat, partitionUntil: nat)
    returns (r: Result<TopologyReport, SimError>)
    ensures !WithinLimits(nodes, messages) ==> r == Err(OutsideLimits)
    ensures WithinLimits(nodes, messages) && partitionUntil >= FRAME_EXPIRY ==> r == Err(TooLate(partitionUntil))
    ensures WithinLimits(nodes, messages) && partitionUntil < FRAME_EXPIRY ==>
      && r.Ok?
      && r.value.nodes == nodes && r.value.messages == messages
      && r.value.flood.recipientDeliveries == r.value.expectedRecipientDeliveries == messages * (nodes - 1)
      && r.value.maxWifiAwareDegree == 2 && r.value.maxAuthenticatedDegree == 3
      && r.value.flood.hopLimitDrops == 0
      && r.value.flood.duplicateDrops == messages * (nodes + 2)
      && HopsExact(partitionUntil, nodes, messages, r.value.flood.maxHopsSeen)
      && (partitionUntil <= 1 ==> r.value.flood.partitionDeferrals == 0)
  {
    if !(4 <= nodes <= MAX_GROUP_MEMBERS) || nodes % 2 != 0 || !(1 <= messages <= 32) {
      return Err(OutsideLimits);
    }
    var neighbors := BuildOverlay(nodes);
    var caches := NewCaches(nodes);
    var report := Report(0, 0, 0, 0, 0, 0);
    var sequence := 0;
    var degree := |neighbors[0]|;
    hide IsOverlay, Kept, HopsExact, Regular;
    assert Kept(caches, 0) by { KeptInitially(caches); }
    assert HopsExact(partitionUntil, nodes, 0, 0) by { HopsExactInitially(partitionUntil, nodes); }
    while sequence < messages
      invariant 0 <= sequence <= messages && Kept(caches, sequence)
      invariant partitionUntil >= FRAME_EXPIRY ==> sequence == 0
      invariant report.recipientDeliveries == sequence * (nodes - 1)
      invariant report.hopLimitDrops == 0 && report.duplicateDrops == sequence * (nodes + 2)
      invariant partitionUntil <= 1 ==> report.partitionDeferrals == 0
      invariant HopsExact(partitionUntil, nodes, sequence, report.maxHopsSeen) && (sequence == 0 ==> report.maxHopsSeen == 0)
    {
      var outcome := RunMessage(caches, neighbors, sequence, partitionUntil, report);
      if outcome.Err? { return Err(outcome.error); }
      assert (sequence + 1) * (nodes - 1) == sequence * (nodes - 1) + (nodes - 1);
      assert (sequence + 1) * (nodes + 2) == sequence * (nodes + 2) + (nodes + 2);
      report := outcome.value;
      sequence := sequence + 1;
    }
    return Ok(TopologyReport(nodes, messages, messages * (nodes - 1), 2, degree, report));
  }

  lemma KeptInitially(caches: seq<RelayCache>)
    requires forall i :: 0 <= i < |caches| ==> caches[i].local == Member(i) && caches[i].seen == map[]
    ensures Kept(caches, 0)
  {
  }

  lemma HopsExactInitially(until: nat, nodes: nat)
    ensures HopsExact(until, nodes, 0, 0)
  {
  }

  lemma ScheduleHolds(adj: Graph, n: nat, o: nat, until: nat)
    requires IsOverlay(adj, n) && HasChord(n) && n <= MAX_GROUP_MEMBERS && o < n
    ensures IsGraph(adj) && |adj| == n
    ensures
      var bound := if until <= 1 then HopsFrom(n, o) else DeferredSchedule(n, o);
      SpareHop(adj, o, until, bound) && Feasible(adj, o, until, bound)
  {
    HopsIsDistance(adj, n, o);
    if until <= 1 { DistanceScheduleHolds(adj, n, o, until); } else { DeferredScheduleHolds(adj, n, o, until); }
  }

  lemma ReachedAll(adj: Graph, o: nat, until: nat, t: Trace, dropped: nat, bound: seq<nat>, sent: RelayFrame)
    requires IsGraph(adj) && Feasible(adj, o, until, bound) && Flooded(adj, o, until, t, dropped) && InTime(t, bound)
    ensures forall v :: 0 <= v < |adj| ==> v in t.hops
  {
    FeasibleReachesAll(adj, o, until, t, dropped, bound, sent);
  }

  lemma CountedThree(adj: Graph, o: nat, until: nat, report: Report, t: Trace, order: seq<nat>, n: nat, dropped: nat, now: Report)
    requires Regular(adj, 3) && |adj| == n && Counted(adj, o, until, report, t, order, 0, dropped, now) && dropped == 0
    requires Forwarders(t, o, order) && Flooded(adj, o, until, t, dropped) && forall v :: 0 <= v < n ==> v in t.hops
    ensures now.duplicateDrops == report.duplicateDrops + n + 2 && now.hopLimitDrops == report.hopLimitDrops
    ensures until <= 1 ==> now.partitionDeferrals == report.partitionDeferrals
  {
    RegularCopies(adj, o, order, 3);
    assert TraceOk(adj, o, until, t);
    hide Flooded, Regular, HighestHop, CopiesSent, Forwarders;
    AllForwarded(t, o, order, n);
  }

  lemma AllForwarded(t: Trace, o: nat, order: seq<nat>, n: nat)
    requires o < n && Forwarders(t, o, order) && (forall v :: v in t.hops ==> v < n) && forall v :: 0 <= v < n ==> v in t.hops
    ensures |order| == n - 1
  {
    DistinctCount(order);
    var all := set v | v in order;
    AllReached(n, o, all);
  }

  /** No partition: the report of the even overlay is determined, down to the farthest hop. */
  method RunRelayTopology(nodes: nat, messages: nat) returns (r: Result<TopologyReport, SimError>)
    ensures r.Ok? <==> WithinLimits(nodes, messages)
    ensures r.Ok? ==>
      && r.value.flood.recipientDeliveries == messages * (nodes - 1)
      && r.value.flood.hopLimitDrops == 0 && r.value.flood.partitionDeferrals == 0
      && r.value.flood.duplicateDrops == messages * (nodes + 2)
      && r.value.flood.maxHopsSeen == (nodes + 2) / 4 <= 13
  {
    r := RunRelayTopologyWithPartition(nodes, messages, 0);
  }

  /** A partition that heals at attempt 6 delays copies but loses none, and costs at most one hop more. */
  method RunRelayPartitionReunion(nodes: nat, messages: nat) returns (r: Result<TopologyReport, SimError>)
    ensures r.Ok? <==> WithinLimits(nodes, messages)
    ensures r.Ok? ==>
      && r.value.flood.recipientDeliveries == messages * (nodes - 1)
      && r.value.flood.hopLimitDrops == 0
      && r.value.flood.duplicateDrops == messages * (nodes + 2)
      && r.value.flood.maxHopsSeen <= (nodes + 2) / 4 + 1 <= 14
  {
    r := RunRelayTopologyWithPartition(nodes, messages, 6);
  }
}
