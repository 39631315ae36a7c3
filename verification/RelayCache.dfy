/** The bounded forwarding gate of one relay: at most one forward decision per routed object. */
module RelayCaches {
  import opened Types

  const MAX_RELAY_HOPS: nat := 16
  const MAX_RELAY_DEDUP: nat := 512

  datatype RelayKey = RelayKey(origin: MemberId, id: nat)

  datatype RelayFrame = RelayFrame(
    id: nat,
    origin: MemberId,
    previousHop: MemberId,
    hops: nat,
    hopLimit: nat,
    expiresAt: nat)
  {
    function Key(): RelayKey { RelayKey(origin, id) }
  }

  datatype SeenRelay = SeenRelay(expiresAt: nat, receivedAt: nat)

  type Seen = map<RelayKey, SeenRelay>

  datatype Decision = Forward(frame: RelayFrame) | Duplicate | ExpiredFrame | HopLimit

  predicate Admissible(local: MemberId, frame: RelayFrame, via: MemberId, now: nat) {
    && now <= MAX_LOGICAL_TIME
    && frame.expiresAt <= MAX_LOGICAL_TIME
    && frame.previousHop == via
    && 0 < frame.hopLimit <= MAX_RELAY_HOPS
    && frame.hops <= frame.hopLimit
    && frame.origin != local
    && via != local
  }

  function Live(seen: Seen, now: nat): Seen {
    map k | k in seen && now < seen[k].expiresAt :: seen[k]
  }

  /** Strict order of eviction: earliest expiry, then earliest observed, then the map's key order. */
  predicate EvictedBefore(seen: Seen, a: RelayKey, b: RelayKey)
    requires a in seen && b in seen
  {
    var (x, y) := (seen[a], seen[b]);
    || x.expiresAt < y.expiresAt
    || (x.expiresAt == y.expiresAt &&
        (|| x.receivedAt < y.receivedAt
         || (x.receivedAt == y.receivedAt &&
             (a.origin < b.origin || (a.origin == b.origin && a.id < b.id)))))
  }

  ghost predicate Oldest(seen: Seen, k: RelayKey) {
    k in seen && forall j :: j in seen && j != k ==> EvictedBefore(seen, k, j)
  }

  ghost function Evicted(seen: Seen): Seen {
    if exists k :: Oldest(seen, k) then (var k :| Oldest(seen, k); seen - {k}) else seen
  }

  ghost function Reserved(seen: Seen, key: RelayKey, entry: SeenRelay): Seen {
    (if |seen| >= MAX_RELAY_DEDUP then Evicted(seen) else seen)[key := entry]
  }

  ghost function AcceptSpec(local: MemberId, seen: Seen, frame: RelayFrame, via: MemberId, now: nat)
    : (Seen, Result<Decision, DurableError>)
  {
    if !Admissible(local, frame, via, now) then (seen, Err(InvalidInput))
    else
      var live := Live(seen, now);
      if now >= frame.expiresAt then (live, Ok(ExpiredFrame))
      else if frame.hops >= frame.hopLimit then (live, Ok(HopLimit))
      else if frame.Key() in live then (live, Ok(Duplicate))
      else (Reserved(live, frame.Key(), SeenRelay(frame.expiresAt, now)),
            Ok(Forward(frame.(previousHop := local, hops := frame.hops + 1))))
  }

  class RelayCache {
    const local: MemberId
    var seen: Seen

    constructor (local: MemberId)
      ensures this.local == local && seen == map[]
    {
      this.local := local;
      seen := map[];
    }

    method ExpireSeen(now: nat)
      modifies this
      ensures seen == Live(old(seen), now)
    {
      seen := map k | k in seen && now < seen[k].expiresAt :: seen[k];
    }

    /** The scan that picks the entry to evict. */
    method FindOldest() returns (k: RelayKey)
      requires seen != map[]
      ensures Oldest(seen, k)
    {
      var rest := seen.Keys;
      k :| k in rest;
      rest := rest - {k};
      while rest != {}
        invariant k in seen && k !in rest && rest <= seen.Keys
        invariant forall j :: j in seen && j !in rest && j != k ==> EvictedBefore(seen, k, j)
        decreases rest
      {
        var j :| j in rest;
        rest := rest - {j};
        if EvictedBefore(seen, j, k) { k := j; }
      }
    }

    method Reserve(key: RelayKey, expiresAt: nat, now: nat)
      modifies this
      ensures seen == Reserved(old(seen), key, SeenRelay(expiresAt, now))
    {
      if |seen| >= MAX_RELAY_DEDUP {
        var oldest := FindOldest();
        EvictedIs(seen, oldest);
        seen := seen - {oldest};
      }
      seen := seen[key := SeenRelay(expiresAt, now)];
    }

    method Accept(frame: RelayFrame, via: MemberId, now: nat) returns (r: Result<Decision, DurableError>)
      modifies this
      ensures (seen, r) == AcceptSpec(local, old(seen), frame, via, now)
    {
      if || now > MAX_LOGICAL_TIME || frame.expiresAt > MAX_LOGICAL_TIME || frame.previousHop != via
         || frame.hopLimit == 0 || frame.hopLimit > MAX_RELAY_HOPS || frame.hops > frame.hopLimit
      {
        return Err(InvalidInput);
      }
      if frame.origin == local || via == local { return Err(InvalidInput); }
      ExpireSeen(now);
      if now >= frame.expiresAt { return Ok(ExpiredFrame); }
      if frame.hops >= frame.hopLimit { return Ok(HopLimit); }
      if frame.Key() in seen { return Ok(Duplicate); }
      Reserve(frame.Key(), frame.expiresAt, now);
      return Ok(Forward(frame.(previousHop := local, hops := frame.hops + 1)));
    }
  }

  lemma EvictedIs(seen: Seen, k: RelayKey)
    requires Oldest(seen, k)
    ensures Evicted(seen) == seen - {k}
  {
    forall j | Oldest(seen, j) ensures j == k {
      // two different keys cannot each come before the other
    }
  }

  lemma {:induction false} OldestExists(seen: Seen) returns (k: RelayKey)
    requires seen != map[]
    ensures Oldest(seen, k)
    decreases seen.Keys
  {
    var any :| any in seen;
    var rest := seen - {any};
    k := any;
    if rest != map[] {
      var j := OldestExists(rest);
      assert seen.Keys == rest.Keys + {any};
      k := if EvictedBefore(seen, j, any) then j else any;
    } else {
      assert forall x :: x in seen && x != any ==> x in rest;
    }
  }

  // ----- one step -----

  lemma ReservedBounded(seen: Seen, key: RelayKey, entry: SeenRelay)
    requires |seen| <= MAX_RELAY_DEDUP
    ensures |Reserved(seen, key, entry)| <= MAX_RELAY_DEDUP && key in Reserved(seen, key, entry)
  {
    if |seen| >= MAX_RELAY_DEDUP {
      var k := OldestExists(seen);
      EvictedIs(seen, k);
      assert (seen - {k}).Keys == seen.Keys - {k};
      assert (seen - {k})[key := entry].Keys == (seen - {k}).Keys + {key};
    } else {
      assert seen[key := entry].Keys == seen.Keys + {key};
    }
  }

  lemma LiveBounded(seen: Seen, now: nat)
    ensures |Live(seen, now)| <= |seen|
  {
    assert Live(seen, now).Keys <= seen.Keys;
    SubsetSize(Live(seen, now).Keys, seen.Keys);
  }

  /** The cache never outgrows its bound, and a forward adds exactly one hop and names this relay. */
  lemma AcceptBounded(local: MemberId, seen: Seen, frame: RelayFrame, via: MemberId, now: nat)
    requires |seen| <= MAX_RELAY_DEDUP
    ensures
      var (seen', r) := AcceptSpec(local, seen, frame, via, now);
      && |seen'| <= MAX_RELAY_DEDUP
      && (r.Ok? && r.value.Forward? ==>
            && r.value.frame == frame.(previousHop := local, hops := frame.hops + 1)
            && r.value.frame.hops <= frame.hopLimit
            && frame.Key() in seen')
  {
    LiveBounded(seen, now);
    ReservedBounded(Live(seen, now), frame.Key(), SeenRelay(frame.expiresAt, now));
  }

  lemma {:induction false} SubsetSize<T>(a: set<T>, b: set<T>)
    requires a <= b
    ensures |a| <= |b|
  {
    assert b == a + (b - a);
  }

  // ----- one frame along a path -----

  /** The frame is unexpired, still has a hop left, names the neighbour it came from, and neither started here nor came from here. */
  predicate Passable(local: MemberId, frame: RelayFrame, via: MemberId, now: nat) {
    && now < frame.expiresAt <= MAX_LOGICAL_TIME && frame.hops < frame.hopLimit <= 16
    && frame.previousHop == via && local != frame.origin && local != via
  }

  /** A relay forwards exactly the passable frames whose key it does not remember, and then as the frame that its neighbours can pass on. */
  lemma ForwardExact(local: MemberId, seen: Seen, frame: RelayFrame, via: MemberId, now: nat)
    ensures
      var r := AcceptSpec(local, seen, frame, via, now).1;
      && (r == Ok(Forward(frame.(previousHop := local, hops := frame.hops + 1))) <==>
            Passable(local, frame, via, now) && !(frame.Key() in seen && now < seen[frame.Key()].expiresAt))
      && (r.Ok? && r.value.Forward? ==> r == Ok(Forward(frame.(previousHop := local, hops := frame.hops + 1))))
      && (r == Ok(Duplicate) <==> Passable(local, frame, via, now) && frame.Key() in seen && now < seen[frame.Key()].expiresAt)
  {
    hide Reserved;
  }

  /** The frame as relay k of the path receives it. */
  function OnPath(path: seq<MemberId>, frame: RelayFrame, k: nat): RelayFrame
    requires k <= |path|
  {
    if k == 0 then frame else frame.(previousHop := path[k - 1], hops := frame.hops + k)
  }

  /** What the k-th relay of the path decides when every relay before it forwarded the frame and none had seen it. */
  ghost function PathDecision(path: seq<MemberId>, frame: RelayFrame, now: nat, k: nat): Result<Decision, DurableError>
    requires k < |path|
  {
    if k == 0 then AcceptSpec(path[0], map[], frame, frame.previousHop, now).1
    else
      var before := PathDecision(path, frame, now, k - 1);
      if before.Ok? && before.value.Forward? then AcceptSpec(path[k], map[], before.value.frame, path[k - 1], now).1 else before
  }

  /** A path away from the origin: consecutive relays differ, the first is not where the frame comes from. */
  predicate AwayFrom(path: seq<MemberId>, frame: RelayFrame) {
    && (forall k :: 0 <= k < |path| ==> path[k] != frame.origin)
    && (forall k :: 0 < k < |path| ==> path[k] != path[k - 1]) && (path != [] ==> path[0] != frame.previousHop)
  }

  /** An unexpired frame is forwarded by exactly as many relays of a path as it has hops left; the next one answers that none is left. */
  lemma {:induction false} PathForwards(path: seq<MemberId>, frame: RelayFrame, now: nat, k: nat)
    requires k < |path| && AwayFrom(path, frame) && now < frame.expiresAt <= MAX_LOGICAL_TIME
    requires frame.hops <= frame.hopLimit && 0 < frame.hopLimit <= 16
    ensures PathDecision(path, frame, now, k) ==
      if k < frame.hopLimit - frame.hops then Ok(Forward(OnPath(path, frame, k + 1))) else Ok(HopLimit)
  {
    hide Reserved, Live;
    if k > 0 {
      PathForwards(path, frame, now, k - 1);
      if k <= frame.hopLimit - frame.hops { NextOnPath(path, frame, now, k); }
    } else {
      NextOnPath(path, frame, now, 0);
    }
  }

  lemma NextOnPath(path: seq<MemberId>, frame: RelayFrame, now: nat, k: nat)
    requires k < |path| && AwayFrom(path, frame) && now < frame.expiresAt <= MAX_LOGICAL_TIME && 0 < frame.hopLimit <= 16
    requires k <= frame.hopLimit - frame.hops
    ensures
      var via := if k == 0 then frame.previousHop else path[k - 1];
      AcceptSpec(path[k], map[], OnPath(path, frame, k), via, now).1 ==
        if k < frame.hopLimit - frame.hops then Ok(Forward(OnPath(path, frame, k + 1))) else Ok(HopLimit)
  {
    hide Reserved;
  }

  // ----- runs against an unbounded memory -----

  datatype Offer = Offer(frame: RelayFrame, via: MemberId, now: nat)

  /** What a cache that never forgets would do: remember each key's expiry for ever. */
  function UnboundedAccept(local: MemberId, all: map<RelayKey, nat>, o: Offer)
    : (map<RelayKey, nat>, Result<Decision, DurableError>)
  {
    if !Admissible(local, o.frame, o.via, o.now) then (all, Err(InvalidInput))
    else if o.now >= o.frame.expiresAt then (all, Ok(ExpiredFrame))
    else if o.frame.hops >= o.frame.hopLimit then (all, Ok(HopLimit))
    else if o.frame.Key() in all && o.now < all[o.frame.Key()] then (all, Ok(Duplicate))
    else (all[o.frame.Key() := o.frame.expiresAt],
          Ok(Forward(o.frame.(previousHop := local, hops := o.frame.hops + 1))))
  }

  ghost function BoundedRun(local: MemberId, run: seq<Offer>): (Seen, seq<Result<Decision, DurableError>>) {
    if run == [] then (map[], [])
    else
      var (seen, rs) := BoundedRun(local, run[..|run| - 1]);
      var o := run[|run| - 1];
      var (seen', r) := AcceptSpec(local, seen, o.frame, o.via, o.now);
      (seen', rs + [r])
  }

  function UnboundedRun(local: MemberId, run: seq<Offer>): (map<RelayKey, nat>, seq<Result<Decision, DurableError>>) {
    if run == [] then (map[], [])
    else
      var (all, rs) := UnboundedRun(local, run[..|run| - 1]);
      var (all', r) := UnboundedAccept(local, all, run[|run| - 1]);
      (all', rs + [r])
  }

  predicate ClockOrdered(run: seq<Offer>) {
    forall i, j :: 0 <= i < j < |run| ==> run[i].now <= run[j].now
  }

  predicate OneExpiryPerKey(run: seq<Offer>) {
    forall i, j :: 0 <= i < |run| && 0 <= j < |run| && run[i].frame.Key() == run[j].frame.Key()
      ==> run[i].frame.expiresAt == run[j].frame.expiresAt
  }

  function LiveKeys(all: map<RelayKey, nat>, now: nat): set<RelayKey> {
    set k | k in all && now < all[k]
  }

  /** No moment of the run has more than the cache's capacity of unexpired keys to remember. */
  predicate WithinCapacity(local: MemberId, run: seq<Offer>) {
    forall n :: 0 < n <= |run| ==>
      |LiveKeys(UnboundedRun(local, run[..n]).0, run[n - 1].now)| <= MAX_RELAY_DEDUP
  }

  ghost predicate Agrees(seen: Seen, all: map<RelayKey, nat>, now: nat) {
    && (forall k :: k in seen && now < seen[k].expiresAt ==> k in all && all[k] == seen[k].expiresAt)
    && (forall k :: k in all && now < all[k] ==> k in seen && seen[k].expiresAt == all[k])
  }

  lemma StepAgrees(local: MemberId, seen: Seen, all: map<RelayKey, nat>, before: nat, o: Offer)
    requires Agrees(seen, all, before) && before <= o.now
    requires |LiveKeys(UnboundedAccept(local, all, o).0, o.now)| <= MAX_RELAY_DEDUP
    ensures AcceptSpec(local, seen, o.frame, o.via, o.now).1 == UnboundedAccept(local, all, o).1
    ensures Agrees(AcceptSpec(local, seen, o.frame, o.via, o.now).0, UnboundedAccept(local, all, o).0, o.now)
  {
    hide Agrees, Live, Reserved, LiveKeys, Admissible;
    LiveAgrees(seen, all, before, o.now);
    AgreesLater(seen, all, before, o.now);
    var (all', r) := UnboundedAccept(local, all, o);
    if r.Ok? && r.value.Forward? {
      ForwardAgrees(Live(seen, o.now), all, o.frame.Key(), o.frame.expiresAt, o.now);
    }
  }

  lemma AgreesLater(seen: Seen, all: map<RelayKey, nat>, before: nat, now: nat)
    requires Agrees(seen, all, before) && before <= now
    ensures Agrees(seen, all, now)
  {
  }

  lemma ForwardAgrees(live: Seen, all: map<RelayKey, nat>, key: RelayKey, expiresAt: nat, now: nat)
    requires Agrees(live, all, now) && live.Keys == LiveKeys(all, now) && now < expiresAt
    requires key !in live && |LiveKeys(all[key := expiresAt], now)| <= MAX_RELAY_DEDUP
    ensures Agrees(Reserved(live, key, SeenRelay(expiresAt, now)), all[key := expiresAt], now)
  {
    assert LiveKeys(all[key := expiresAt], now) == LiveKeys(all, now) + {key};
    assert |live| == |live.Keys| < MAX_RELAY_DEDUP;
    InsertAgrees(live, all, key, expiresAt, now);
  }

  lemma InsertAgrees(live: Seen, all: map<RelayKey, nat>, key: RelayKey, expiresAt: nat, now: nat)
    requires Agrees(live, all, now)
    ensures Agrees(live[key := SeenRelay(expiresAt, now)], all[key := expiresAt], now)
  {
  }

  lemma LiveAgrees(seen: Seen, all: map<RelayKey, nat>, before: nat, now: nat)
    requires Agrees(seen, all, before) && before <= now
    ensures Agrees(Live(seen, now), all, now)
    ensures Live(seen, now).Keys == LiveKeys(all, now)
    ensures forall k :: k in Live(seen, now) <==> k in all && now < all[k]
  {
  }

  /**
   * On a nondecreasing clock the bounded cache decides exactly as a cache that never forgets,
   * as long as no more than its capacity of keys is unexpired at once.
   */
  lemma {:induction false} BoundedRunAgrees(local: MemberId, run: seq<Offer>)
    requires ClockOrdered(run) && WithinCapacity(local, run)
    ensures BoundedRun(local, run).1 == UnboundedRun(local, run).1
    ensures |run| > 0 ==> Agrees(BoundedRun(local, run).0, UnboundedRun(local, run).0, run[|run| - 1].now)
  {
    hide AcceptSpec, UnboundedAccept, LiveKeys;
    if run != [] {
      var n := |run| - 1;
      var init := run[..n];
      assert forall k :: 0 < k <= n ==> init[..k] == run[..k];
      BoundedRunAgrees(local, init);
      assert run[..|run|] == run;
      var (seen, _) := BoundedRun(local, init);
      var (all, _) := UnboundedRun(local, init);
      var before := if n == 0 then 0 else init[n - 1].now;
      StepAgrees(local, seen, all, before, run[n]);
    }
  }

  lemma {:induction false} RunBounded(local: MemberId, run: seq<Offer>)
    ensures |BoundedRun(local, run).0| <= MAX_RELAY_DEDUP
  {
    hide AcceptSpec;
    if run != [] {
      var init, o := run[..|run| - 1], run[|run| - 1];
      RunBounded(local, init);
      AcceptBounded(local, BoundedRun(local, init).0, o.frame, o.via, o.now);
    }
  }

  /** After every offer the cache remembers exactly the unexpired keys, each with its expiry. */
  ghost predicate AlwaysAgrees(local: MemberId, run: seq<Offer>) {
    forall n :: 0 < n <= |run| ==> AgreesAfter(local, run, n)
  }

  ghost predicate AgreesAfter(local: MemberId, run: seq<Offer>, n: nat)
    requires 0 < n <= |run|
  {
    Agrees(BoundedRun(local, run[..n]).0, UnboundedRun(local, run[..n]).0, run[n - 1].now)
  }

  /** The capacity condition is exact: on a nondecreasing clock the cache forgets no live key just when never more than 512 are live. */
  lemma CapacityExact(local: MemberId, run: seq<Offer>)
    requires ClockOrdered(run)
    ensures AlwaysAgrees(local, run) <==> WithinCapacity(local, run)
  {
    hide BoundedRun, UnboundedRun;
    if AlwaysAgrees(local, run) {
      forall n | 0 < n <= |run| ensures |LiveKeys(UnboundedRun(local, run[..n]).0, run[n - 1].now)| <= MAX_RELAY_DEDUP {
        assert AgreesAfter(local, run, n);
        var seen := BoundedRun(local, run[..n]).0;
        RunBounded(local, run[..n]);
        SubsetSize(LiveKeys(UnboundedRun(local, run[..n]).0, run[n - 1].now), seen.Keys);
      }
    }
    if WithinCapacity(local, run) {
      forall n | 0 < n <= |run| ensures AgreesAfter(local, run, n) {
        var part := run[..n];
        assert forall k :: 0 < k <= n ==> part[..k] == run[..k];
        BoundedRunAgrees(local, part);
      }
    }
  }

  lemma {:induction false} UnboundedRunPrefix(local: MemberId, run: seq<Offer>, n: nat)
    requires n <= |run|
    ensures |UnboundedRun(local, run).1| == |run|
    ensures UnboundedRun(local, run[..n]).1 == UnboundedRun(local, run).1[..n]
    decreases |run|
  {
    if n == |run| {
      assert run[..n] == run;
      if n > 0 { UnboundedRunPrefix(local, run[..n - 1], n - 1); }
    } else {
      var init := run[..|run| - 1];
      UnboundedRunPrefix(local, init, n);
      assert init[..n] == run[..n];
    }
  }

  predicate ForwardedAt(rs: seq<Result<Decision, DurableError>>, i: nat) {
    i < |rs| && rs[i].Ok? && rs[i].value.Forward?
  }

  /** Once a key was forwarded, the unbounded memory keeps its one expiry for the rest of the run. */
  lemma {:induction false} ForwardRemembered(local: MemberId, run: seq<Offer>, i: nat)
    requires OneExpiryPerKey(run) && ForwardedAt(UnboundedRun(local, run).1, i) && i < |run|
    ensures
      var k := run[i].frame.Key();
      var all := UnboundedRun(local, run).0;
      k in all && all[k] == run[i].frame.expiresAt
  {
    var n := |run| - 1;
    var init := run[..n];
    UnboundedRunPrefix(local, run, n);
    if i < n {
      assert UnboundedRun(local, run).1[i] == UnboundedRun(local, init).1[i];
      ForwardRemembered(local, init, i);
    }
  }

  /** A key once forwarded is not forwarded by the last step of an unbounded run. */
  lemma NotForwardedLast(local: MemberId, run: seq<Offer>, i: nat)
    requires OneExpiryPerKey(run) && i < |run| - 1
    requires ForwardedAt(UnboundedRun(local, run[..|run| - 1]).1, i)
    requires run[i].frame.Key() == run[|run| - 1].frame.Key()
    ensures !ForwardedAt(UnboundedRun(local, run).1, |run| - 1)
  {
    var init := run[..|run| - 1];
    ForwardRemembered(local, init, i);
    UnboundedRunPrefix(local, init, 0);
  }

  lemma UnboundedAtMostOnce(local: MemberId, run: seq<Offer>, i: nat, j: nat)
    requires OneExpiryPerKey(run) && i < j < |run|
    requires ForwardedAt(UnboundedRun(local, run).1, i) && ForwardedAt(UnboundedRun(local, run).1, j)
    ensures run[i].frame.Key() != run[j].frame.Key()
  {
    var upto := run[..j + 1];
    assert upto[..j] == run[..j] && OneExpiryPerKey(upto);
    hide UnboundedRun, OneExpiryPerKey;
    UnboundedRunPrefix(local, run, j + 1);
    UnboundedRunPrefix(local, run, j);
    if run[i].frame.Key() == run[j].frame.Key() { NotForwardedLast(local, upto, i); }
  }

  /** With capacity for every unexpired key and one expiry per key, no key is forwarded twice. */
  lemma ForwardedAtMostOnce(local: MemberId, run: seq<Offer>, i: nat, j: nat)
    requires ClockOrdered(run) && WithinCapacity(local, run) && OneExpiryPerKey(run)
    requires i < j < |run|
    requires ForwardedAt(BoundedRun(local, run).1, i) && ForwardedAt(BoundedRun(local, run).1, j)
    ensures run[i].frame.Key() != run[j].frame.Key()
  {
    BoundedRunAgrees(local, run);
    UnboundedAtMostOnce(local, run, i, j);
  }

  /**
   * Beyond capacity the once-only promise fails: any full cache of live keys that forwards a new
   * key evicts its oldest one, and the next copy of that evicted key is forwarded again.
   */
  lemma OverflowForwardsAgain(local: MemberId, seen: Seen, incoming: Offer, again: Offer)
    requires |seen| >= MAX_RELAY_DEDUP
    requires forall k :: k in seen ==> incoming.now < seen[k].expiresAt
    requires Admissible(local, incoming.frame, incoming.via, incoming.now) && incoming.frame.Key() !in seen
    requires incoming.now < incoming.frame.expiresAt && incoming.frame.hops < incoming.frame.hopLimit
    requires Oldest(seen, again.frame.Key()) && incoming.now <= again.now < again.frame.expiresAt
    requires Admissible(local, again.frame, again.via, again.now) && again.frame.hops < again.frame.hopLimit
    ensures
      var seen' := AcceptSpec(local, seen, incoming.frame, incoming.via, incoming.now).0;
      var r := AcceptSpec(local, seen', again.frame, again.via, again.now).1;
      r.Ok? && r.value.Forward?
  {
    assert Live(seen, incoming.now) == seen;
    EvictedIs(seen, again.frame.Key());
  }

  // ----- a run that overflows the cache -----

  const SOURCE: MemberId := 2
  const RELAY: MemberId := 1
  const EXPIRY: nat := 10_000

  function FrameOf(id: nat): RelayFrame { RelayFrame(id, SOURCE, SOURCE, 0, MAX_RELAY_HOPS, EXPIRY) }

  /** Offers of the keys 0, 1, 2, ..., key i at time i. */
  function Fresh(n: nat): seq<Offer> { seq(n, i requires 0 <= i => Offer(FrameOf(i), SOURCE, i)) }

  function FirstKeys(n: nat): set<RelayKey> { set i | 0 <= i < n :: RelayKey(SOURCE, i) }

  function Remembered(n: nat): Seen { map k | k in FirstKeys(n) :: SeenRelay(EXPIRY, k.id) }

  /** One key more than the cache holds, and then the first one again. */
  function OverflowRun(): seq<Offer> { Fresh(MAX_RELAY_DEDUP + 1) + [Offer(FrameOf(0), SOURCE, MAX_RELAY_DEDUP + 1)] }

  lemma {:induction false} FirstKeysCount(n: nat)
    ensures |FirstKeys(n)| == n
  {
    if n == 0 {
      assert FirstKeys(0) == {};
    } else {
      FirstKeysCount(n - 1);
      assert FirstKeys(n) == FirstKeys(n - 1) + {RelayKey(SOURCE, n - 1)};
    }
  }

  lemma RememberedCount(n: nat)
    ensures |Remembered(n)| == n
  {
    FirstKeysCount(n);
    hide FirstKeys;
    assert Remembered(n).Keys == FirstKeys(n);
  }

  lemma FirstIsOldest(n: nat)
    requires n > 0
    ensures Oldest(Remembered(n), RelayKey(SOURCE, 0))
  {
  }

  function Sent(id: nat): Result<Decision, DurableError> { Ok(Forward(FrameOf(id).(previousHop := RELAY, hops := 1))) }

  function Forwards(n: nat): seq<Result<Decision, DurableError>> { seq(n, i requires 0 <= i => Sent(i)) }

  lemma FreshStep(n: nat)
    requires n < MAX_RELAY_DEDUP
    ensures
      AcceptSpec(RELAY, Remembered(n), FrameOf(n), SOURCE, n)
      == (Remembered(n + 1), Sent(n))
  {
    var seen := Remembered(n);
    RememberedCount(n);
    assert Live(seen, n) == seen;
    hide Live;
    assert Remembered(n + 1) == seen[RelayKey(SOURCE, n) := SeenRelay(EXPIRY, n)];
  }

  lemma {:induction false} FreshRun(n: nat)
    requires n <= MAX_RELAY_DEDUP
    ensures BoundedRun(RELAY, Fresh(n)) == (Remembered(n), Forwards(n))
  {
    hide AcceptSpec;
    if n == 0 {
      assert Fresh(0) == [] && Remembered(0) == map[] && Forwards(0) == [];
    } else {
      hide Fresh, Forwards, Remembered, BoundedRun;
      FreshRun(n - 1);
      FreshOffers(n - 1);
      OneMoreOffer(RELAY, Fresh(n - 1), Offer(FrameOf(n - 1), SOURCE, n - 1));
      FreshStep(n - 1);
    }
  }

  lemma FirstForwards(n: nat)
    requires n > 0
    ensures |Fresh(n)| == |Forwards(n)| == n && Forwards(n)[0] == Sent(0)
  {
  }

  lemma FreshOffers(n: nat)
    ensures Fresh(n + 1) == Fresh(n) + [Offer(FrameOf(n), SOURCE, n)]
    ensures Forwards(n + 1) == Forwards(n) + [Sent(n)]
  {
  }

  /** The state and answers of a run and one more offer. */
  lemma OneMoreOffer(local: MemberId, run: seq<Offer>, o: Offer)
    ensures
      var (seen, rs) := BoundedRun(local, run);
      var (seen', r) := AcceptSpec(local, seen, o.frame, o.via, o.now);
      BoundedRun(local, run + [o]) == (seen', rs + [r])
  {
    hide AcceptSpec;
    assert (run + [o])[..|run|] == run;
  }

  lemma OverflowOrdered()
    ensures |OverflowRun()| == MAX_RELAY_DEDUP + 2 && ClockOrdered(OverflowRun()) && OneExpiryPerKey(OverflowRun())
    ensures OverflowRun()[0].frame.Key() == OverflowRun()[MAX_RELAY_DEDUP + 1].frame.Key()
  {
    assert forall o <- OverflowRun() :: o.frame.expiresAt == EXPIRY;
  }

  /** 513 keys that are all still live, and the first of them is forwarded a second time. */
  lemma OverflowForwardsTwice()
    ensures
      var run, rs := OverflowRun(), BoundedRun(RELAY, OverflowRun()).1;
      && ClockOrdered(run) && OneExpiryPerKey(run) && !WithinCapacity(RELAY, run)
      && run[0].frame.Key() == run[MAX_RELAY_DEDUP + 1].frame.Key()
      && ForwardedAt(rs, 0) && ForwardedAt(rs, MAX_RELAY_DEDUP + 1)
  {
    OverflowOrdered();
    OverflowAnswers();
    hide OneExpiryPerKey, ClockOrdered, BoundedRun, OverflowRun, WithinCapacity;
    if WithinCapacity(RELAY, OverflowRun()) { ForwardedAtMostOnce(RELAY, OverflowRun(), 0, MAX_RELAY_DEDUP + 1); }
  }

  /** The answers to the keys 0, 1, ..., n - 1 and two more offers. */
  lemma TwoMoreOffers(n: nat, late: Offer, again: Offer)
    requires n <= MAX_RELAY_DEDUP
    ensures
      var (seen', r) := AcceptSpec(RELAY, Remembered(n), late.frame, late.via, late.now);
      var r' := AcceptSpec(RELAY, seen', again.frame, again.via, again.now).1;
      BoundedRun(RELAY, Fresh(n) + [late] + [again]).1 == Forwards(n) + [r] + [r']
  {
    hide AcceptSpec, BoundedRun, Remembered, Fresh, Forwards;
    FreshRun(n);
    OneMoreOffer(RELAY, Fresh(n), late);
    OneMoreOffer(RELAY, Fresh(n) + [late], again);
  }

  lemma OverflowAnswers()
    ensures ForwardedAt(BoundedRun(RELAY, OverflowRun()).1, 0) && ForwardedAt(BoundedRun(RELAY, OverflowRun()).1, MAX_RELAY_DEDUP + 1)
  {
    var n := MAX_RELAY_DEDUP;
    var late, again := Offer(FrameOf(n), SOURCE, n), Offer(FrameOf(0), SOURCE, n + 1);
    FreshOffers(n);
    assert OverflowRun() == Fresh(n) + [late] + [again];
    hide AcceptSpec, BoundedRun, Remembered, Fresh, Forwards, FrameOf, OverflowRun;
    TwoMoreOffers(n, late, again);
    FirstForwards(n);
    OverflowsOnce(late, again);
  }

  lemma OverflowsOnce(late: Offer, again: Offer)
    requires late == Offer(FrameOf(MAX_RELAY_DEDUP), SOURCE, MAX_RELAY_DEDUP)
    requires again == Offer(FrameOf(0), SOURCE, MAX_RELAY_DEDUP + 1)
    ensures
      var seen' := AcceptSpec(RELAY, Remembered(MAX_RELAY_DEDUP), late.frame, late.via, late.now).0;
      var r := AcceptSpec(RELAY, seen', again.frame, again.via, again.now).1;
      r.Ok? && r.value.Forward?
  {
    RememberedCount(MAX_RELAY_DEDUP);
    FirstIsOldest(MAX_RELAY_DEDUP);
    hide AcceptSpec, Oldest;
    OverflowForwardsAgain(RELAY, Remembered(MAX_RELAY_DEDUP), late, again);
  }
}
