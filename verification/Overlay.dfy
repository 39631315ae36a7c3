/** The sparse overlay every member derives from the certified roster, and its exact hop distances. */
module Overlay {
  import opened Types
  import opened Flooding
  import opened Rosters

  // ----- the plan -----

  datatype NeighborPlan = NeighborPlan(wifiAware: seq<MemberId>, bluetoothFallback: Option<MemberId>)

  /** Position of a member in the ascending roster. */
  function IndexOf(roster: seq<MemberId>, local: MemberId): (i: nat)
    requires local in roster
    ensures i < |roster| && roster[i] == local
  {
    if roster[0] == local then 0 else 1 + IndexOf(roster[1..], local)
  }

  function PlanAt(roster: seq<MemberId>, index: nat): NeighborPlan
    requires index < |roster|
  {
    var count := |roster|;
    NeighborPlan(
      if count == 1 then []
      else if count == 2 then [roster[(index + 1) % count]]
      else [roster[(index + count - 1) % count], roster[(index + 1) % count]],
      if count >= 4 && count % 2 == 0 then Some(roster[(index + count / 2) % count]) else None)
  }

  function PlanFor(local: MemberId, members: seq<MemberId>): Result<NeighborPlan, DurableError> {
    if members == [] || |members| > MAX_GROUP_MEMBERS then Err(InvalidInput)
    else
      var roster := Sorted(members);
      if !StrictlyIncreasing(roster) || local !in roster then Err(InvalidInput)
      else Ok(PlanAt(roster, IndexOf(roster, local)))
  }

  /** b is one of a's planned direct neighbours. */
  predicate Linked(members: seq<MemberId>, a: MemberId, b: MemberId) {
    var plan := PlanFor(a, members);
    plan.Ok? && (b in plan.value.wifiAware || plan.value.bluetoothFallback == Some(b))
  }

  /** Every member derives the same plan, whatever order it received the roster in. */
  lemma PlanIgnoresOrder(local: MemberId, a: seq<MemberId>, b: seq<MemberId>)
    requires multiset(a) == multiset(b)
    ensures PlanFor(local, a) == PlanFor(local, b)
  {
    SortedUnique(Sorted(a), Sorted(b));
    assert |a| == |multiset(a)| == |multiset(b)| == |b|;
  }

  /** A plan is refused exactly for an empty, oversized or repeating roster, or a stranger. */
  lemma PlanDefined(local: MemberId, members: seq<MemberId>)
    ensures PlanFor(local, members).Ok? <==>
              0 < |members| <= MAX_GROUP_MEMBERS && DuplicateFree(members) && local in members
  {
    SortedStrictly(members);
    assert local in members <==> local in multiset(members);
    assert local in Sorted(members) <==> local in multiset(Sorted(members));
  }

  // ----- the overlay as a graph over roster positions -----

  function Before(n: nat, v: nat): nat requires v < n { if v == 0 then n - 1 else v - 1 }
  function After(n: nat, v: nat): nat requires v < n { if v == n - 1 then 0 else v + 1 }
  function Opposite(n: nat, v: nat): nat requires v < n { if v < n / 2 then v + n / 2 else v - n / 2 }

  predicate HasChord(n: nat) { n >= 4 && n % 2 == 0 }

  /** Edges of the overlay of n members: the ring, and for even n >= 4 the opposite member. */
  predicate Adjacent(n: nat, u: nat, w: nat)
    requires u < n && w < n
  {
    n > 1 && (w == Before(n, u) || w == After(n, u) || (HasChord(n) && w == Opposite(n, u)))
  }

  lemma ModuloSteps(n: nat, v: nat)
    requires v < n
    ensures (v + n - 1) % n == Before(n, v) && (v + 1) % n == After(n, v)
    ensures n % 2 == 0 ==> (v + n / 2) % n == Opposite(n, v)
  {
    ModuloOnce(n, v + n - 1);
    ModuloOnce(n, v + 1);
    ModuloOnce(n, v + n / 2);
  }

  lemma ModuloOnce(n: nat, x: nat)
    requires 0 < n && x < 2 * n
    ensures x % n == if x < n then x else x - n
  {
    if x >= n { QuotientUnique(n, x, x / n, 1); }
  }

  lemma QuotientUnique(n: nat, x: nat, p: int, q: int)
    requires 0 < n && 0 <= x - n * p < n && 0 <= x - n * q < n
    ensures p == q
  {
    MulMonotone(n, p, q - 1);
    MulMonotone(n, q, p - 1);
  }

  lemma MulMonotone(n: nat, a: int, b: int)
    ensures a <= b ==> n * a <= n * b
  {
  }

  lemma {:induction false} IndexOfUnique(roster: seq<MemberId>, i: nat)
    requires StrictlyIncreasing(roster) && i < |roster|
    ensures IndexOf(roster, roster[i]) == i
  {
    if i > 0 { IndexOfUnique(roster[1..], i - 1); }
  }

  /** The planned links of a roster are exactly the overlay's edges between positions. */
  lemma LinkedIsAdjacent(members: seq<MemberId>, i: nat, j: nat)
    requires 0 < |members| <= MAX_GROUP_MEMBERS && DuplicateFree(members)
    requires i < |members| && j < |members|
    ensures Linked(members, Sorted(members)[i], Sorted(members)[j]) <==> Adjacent(|members|, i, j)
  {
    hide Sorted, PlanAt, Adjacent;
    var roster := Sorted(members);
    SortedStrictly(members);
    IndexOfUnique(roster, i);
    PlanAtIs(roster, i, j);
  }

  lemma PlanAtIs(roster: seq<MemberId>, i: nat, j: nat)
    requires StrictlyIncreasing(roster) && i < |roster| && j < |roster|
    ensures (roster[j] in PlanAt(roster, i).wifiAware || PlanAt(roster, i).bluetoothFallback == Some(roster[j]))
            <==> Adjacent(|roster|, i, j)
  {
    var n := |roster|;
    ModuloSteps(n, i);
    assert forall k :: 0 <= k < n && k != j ==> roster[k] != roster[j];
    assert PlanAt(roster, i).wifiAware ==
           if n == 1 then [] else if n == 2 then [roster[After(n, i)]] else [roster[Before(n, i)], roster[After(n, i)]];
  }

  /** The neighbour relation is symmetric: both ends of a link plan it. */
  lemma LinksAreMutual(members: seq<MemberId>, a: MemberId, b: MemberId)
    requires Linked(members, a, b)
    ensures Linked(members, b, a)
  {
    hide Linked, Sorted;
    LinkedInRoster(members, a, b);
    var i, j := IndexOf(Sorted(members), a), IndexOf(Sorted(members), b);
    LinkedIsAdjacent(members, i, j);
    LinkedIsAdjacent(members, j, i);
  }

  lemma LinkedInRoster(members: seq<MemberId>, a: MemberId, b: MemberId)
    requires Linked(members, a, b)
    ensures 0 < |members| <= MAX_GROUP_MEMBERS && DuplicateFree(members)
    ensures a in Sorted(members) && b in Sorted(members)
  {
    hide Sorted;
    PlanDefined(a, members);
  }

  // ----- exact distances in the even overlay -----

  /** Steps between two positions around the ring. */
  function RingSteps(n: nat, u: nat, v: nat): nat
    requires u < n && v < n
  {
    var d := if u <= v then v - u else u - v;
    if d <= n - d then d else n - d
  }

  /** Hops in the even overlay: around the ring, or across one chord and then around. */
  function Hops(n: nat, u: nat, v: nat): nat
    requires u < n && v < n && HasChord(n)
  {
    var r := RingSteps(n, u, v);
    if r <= n / 2 + 1 - r then r else n / 2 + 1 - r
  }

  function HopsFrom(n: nat, o: nat): (s: seq<nat>)
    requires o < n && HasChord(n)
    ensures |s| == n && forall v :: 0 <= v < n ==> s[v] == Hops(n, o, v)
  {
    seq(n, v requires 0 <= v < n => Hops(n, o, v))
  }

  /** adj lists the overlay's edges, in some order. */
  ghost predicate IsOverlay(adj: Graph, n: nat) {
    && |adj| == n
    && (forall u :: 0 <= u < n ==> Neighborhood(adj, u))
    && (forall u, w :: 0 <= u < n && 0 <= w < n ==> (w in adj[u] <==> Adjacent(n, u, w)))
  }

  lemma HopsAlongEdge(n: nat, o: nat, u: nat, w: nat)
    requires HasChord(n) && o < n && u < n && w < n && Adjacent(n, u, w)
    ensures Hops(n, o, w) <= Hops(n, o, u) + 1
  {
  }

  /** From any other position some edge leads one hop closer. */
  lemma HopCloser(n: nat, o: nat, v: nat) returns (p: nat)
    requires HasChord(n) && o < n && v < n && v != o
    ensures p < n && Adjacent(n, v, p) && Hops(n, o, v) == Hops(n, o, p) + 1
  {
    var r := RingSteps(n, o, v);
    var towards := if r <= n / 2 + 1 - r then r - 1 else r + 1;
    p := if r == n / 2 then Opposite(n, v)
         else if RingSteps(n, o, Before(n, v)) == towards then Before(n, v) else After(n, v);
  }

  /** Hops is the exact graph distance of the even overlay. */
  lemma HopsIsDistance(adj: Graph, n: nat, o: nat)
    requires IsOverlay(adj, n) && HasChord(n) && o < n
    ensures IsGraph(adj) && IsDistance(adj, o, HopsFrom(n, o))
  {
    var dist := HopsFrom(n, o);
    forall u, w | 0 <= u < |adj| && w in adj[u] && w < |adj| ensures dist[w] <= dist[u] + 1 {
      HopsAlongEdge(n, o, u, w);
    }
    forall v | 0 <= v < |adj| && v != o ensures exists p :: p in adj[v] && p < |adj| && dist[v] == dist[p] + 1 {
      var p := HopCloser(n, o, v);
      assert p in adj[v];
    }
  }

  /** The diameter of the even overlay is (n + 2) / 4, reached from every position: 13 of 50 members. */
  lemma OverlayDiameter(n: nat, o: nat) returns (far: nat)
    requires HasChord(n) && o < n
    ensures forall v :: 0 <= v < n ==> Hops(n, o, v) <= (n + 2) / 4
    ensures far < n && Hops(n, o, far) == (n + 2) / 4
    ensures n <= MAX_GROUP_MEMBERS ==> (n + 2) / 4 <= 13
  {
    var k := (n + 2) / 4;
    far := if o + k < n then o + k else o + k - n;
  }

  /** Any two members of an even roster are within (n + 2) / 4 planned links of each other, and no closer than Hops. */
  lemma MembersWithinDiameter(adj: Graph, members: seq<MemberId>, i: nat, j: nat)
    requires HasChord(|members|) && |members| <= MAX_GROUP_MEMBERS && DuplicateFree(members)
    requires IsOverlay(adj, |members|) && i < |members| && j < |members|
    ensures forall u, w :: 0 <= u < |members| && w < |members| && w in adj[u] ==>
              Linked(members, Sorted(members)[u], Sorted(members)[w])
    ensures Shortest(adj, i, j, Hops(|members|, i, j)) && Hops(|members|, i, j) <= (|members| + 2) / 4 <= 13
  {
    var n := |members|;
    forall u, w | 0 <= u < n && w < n && w in adj[u] ensures Linked(members, Sorted(members)[u], Sorted(members)[w]) {
      assert Neighborhood(adj, u);
      LinkedIsAdjacent(members, u, w);
    }
    HopsIsDistance(adj, n, i);
    DistanceIsShortest(adj, i, HopsFrom(n, i), j);
    var _ := OverlayDiameter(n, i);
  }

  /** The overlay's neighbours of one position. */
  function NeighborsOf(n: nat, u: nat): seq<nat>
    requires u < n
  {
    if n == 1 then [] else if n == 2 then [1 - u]
    else if HasChord(n) then [Before(n, u), After(n, u), Opposite(n, u)]
    else [Before(n, u), After(n, u)]
  }

  /** Every size has an overlay. */
  lemma OverlayExists(n: nat) returns (adj: Graph)
    ensures IsOverlay(adj, n)
  {
    adj := seq(n, u requires 0 <= u < n => NeighborsOf(n, u));
    forall u, w | 0 <= u < n && 0 <= w < n ensures w in adj[u] <==> Adjacent(n, u, w) {
      assert adj[u] == NeighborsOf(n, u);
    }
    forall u | 0 <= u < n ensures Neighborhood(adj, u) {
      forall w | w in adj[u] ensures u in adj[w] {
        assert Adjacent(n, u, w) && Adjacent(n, w, u);
      }
    }
  }

  /** Every roster's overlay is connected, odd sizes included. */
  lemma {:induction false} OverlayConnected(adj: Graph, n: nat, o: nat, v: nat) returns (p: seq<nat>)
    requires IsOverlay(adj, n) && o < n && v < n
    ensures IsPath(adj, p, o, v)
    decreases if v < o then v + n - o else v - o
  {
    if v == o {
      p := [o];
    } else {
      var u := Before(n, v);
      var q := OverlayConnected(adj, n, o, u);
      assert v == After(n, u) && v in adj[u];
      ExtendPath(adj, q, o, u, v);
      p := q + [v];
    }
  }
}
