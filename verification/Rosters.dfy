/** Ascending member lists, and the audiences a roster is split into. */
module Rosters {
  import opened Types
  import opened Chunking

  predicate StrictlyIncreasing(s: seq<MemberId>) {
    forall i, j :: 0 <= i < j < |s| ==> s[i] < s[j]
  }

  predicate NonDecreasing(s: seq<MemberId>) {
    forall i, j :: 0 <= i < j < |s| ==> s[i] <= s[j]
  }

  function Insert(s: seq<MemberId>, x: MemberId): seq<MemberId> {
    if s == [] then [x]
    else if x <= s[0] then [x] + s
    else [s[0]] + Insert(s[1..], x)
  }

  lemma {:induction false} InsertOrders(s: seq<MemberId>, x: MemberId)
    requires NonDecreasing(s)
    ensures NonDecreasing(Insert(s, x)) && forall y :: y in Insert(s, x) ==> y == x || y in s
  {
    if s != [] && x > s[0] {
      InsertOrders(s[1..], x);
      var rest := Insert(s[1..], x);
      forall i, j | 0 <= i < j < |rest| + 1 ensures ([s[0]] + rest)[i] <= ([s[0]] + rest)[j] {
        assert rest[j - 1] in rest;
      }
    }
  }

  lemma {:induction false} InsertAdds(s: seq<MemberId>, x: MemberId)
    ensures multiset(Insert(s, x)) == multiset(s) + multiset{x}
  {
    if s != [] && x > s[0] {
      InsertAdds(s[1..], x);
      assert s == [s[0]] + s[1..];
    }
  }

  /** The roster in ascending order. */
  function Sorted(members: seq<MemberId>): (r: seq<MemberId>)
    ensures NonDecreasing(r) && multiset(r) == multiset(members) && |r| == |members|
  {
    if members == [] then []
    else
      assert members == members[..|members| - 1] + [members[|members| - 1]];
      var init := Sorted(members[..|members| - 1]);
      InsertOrders(init, members[|members| - 1]);
      InsertAdds(init, members[|members| - 1]);
      var r := Insert(init, members[|members| - 1]);
      assert |r| == |multiset(r)| == |multiset(members)| == |members|;
      r
  }

  lemma LeastFirst(a: seq<MemberId>, b: seq<MemberId>)
    requires NonDecreasing(a) && multiset(a) == multiset(b) && |a| > 0 && |b| > 0
    ensures a[0] <= b[0]
  {
    assert b[0] in multiset(a);
    var j :| 0 <= j < |a| && a[j] == b[0];
  }

  lemma {:induction false} SortedUnique(a: seq<MemberId>, b: seq<MemberId>)
    requires NonDecreasing(a) && NonDecreasing(b) && multiset(a) == multiset(b)
    ensures a == b
  {
    assert |a| == |multiset(a)| == |multiset(b)| == |b|;
    if a != [] {
      LeastFirst(a, b);
      LeastFirst(b, a);
      assert a == [a[0]] + a[1..] && b == [b[0]] + b[1..];
      assert multiset(a[1..]) == multiset(a) - multiset{a[0]};
      assert multiset(b[1..]) == multiset(b) - multiset{b[0]};
      SortedUnique(a[1..], b[1..]);
    }
  }

  predicate DuplicateFree(s: seq<MemberId>) {
    forall i, j :: 0 <= i < j < |s| ==> s[i] != s[j]
  }

  lemma DuplicateFreeCounts(s: seq<MemberId>)
    ensures DuplicateFree(s) <==> forall x :: x in s ==> multiset(s)[x] == 1
  {
    if DuplicateFree(s) {
      forall x | x in s ensures multiset(s)[x] == 1 { OnceOnly(s, x); }
    } else {
      var i, j :| 0 <= i < j < |s| && s[i] == s[j];
      assert s == s[..j] + s[j..] && s[..j][i] == s[i] && s[j..][0] == s[j];
      assert multiset(s) == multiset(s[..j]) + multiset(s[j..]);
      assert multiset(s)[s[i]] >= 2;
    }
  }

  lemma {:induction false} OnceOnly(s: seq<MemberId>, x: MemberId)
    requires DuplicateFree(s) && x in s
    ensures multiset(s)[x] == 1
  {
    assert s == [s[0]] + s[1..];
    if s[0] == x {
      assert x !in s[1..];
    } else {
      OnceOnly(s[1..], x);
    }
  }

  /** Sorting a roster makes it strictly increasing exactly when it has no duplicate. */
  lemma SortedStrictly(members: seq<MemberId>)
    ensures StrictlyIncreasing(Sorted(members)) <==> DuplicateFree(members)
  {
    var s := Sorted(members);
    DuplicateFreeCounts(members);
    DuplicateFreeCounts(s);
    assert forall x :: x in s <==> x in multiset(s);
    assert forall x :: x in members <==> x in multiset(members);
  }

  // ----- audiences -----

  function Without(roster: seq<MemberId>, local: MemberId): (r: seq<MemberId>)
    ensures forall x :: x in r <==> x in roster && x != local
  {
    if roster == [] then []
    else if roster[0] == local then Without(roster[1..], local)
    else [roster[0]] + Without(roster[1..], local)
  }

  function BroadcastAudiences(local: MemberId, members: seq<MemberId>): Result<seq<seq<MemberId>>, DurableError> {
    if members == [] || |members| > MAX_GROUP_MEMBERS then Err(InvalidInput)
    else
      var roster := Sorted(members);
      if !StrictlyIncreasing(roster) || local !in roster then Err(InvalidInput)
      else Ok(Chunks(Without(roster, local), MAX_TARGETS))
  }

  lemma AudiencesIncrease(s: seq<MemberId>)
    requires StrictlyIncreasing(s)
    ensures forall i :: 0 <= i < |Chunks(s, MAX_TARGETS)| ==> StrictlyIncreasing(Chunks(s, MAX_TARGETS)[i])
    ensures |Chunks(s, MAX_TARGETS)| == (|s| + 9) / 10 && Flatten(Chunks(s, MAX_TARGETS)) == s
    ensures forall i :: 0 <= i < |Chunks(s, MAX_TARGETS)| ==> 0 < |Chunks(s, MAX_TARGETS)[i]| <= MAX_TARGETS
    ensures forall i :: 0 <= i < |Chunks(s, MAX_TARGETS)| - 1 ==> |Chunks(s, MAX_TARGETS)[i]| == MAX_TARGETS
  {
    ChunkCount(s, MAX_TARGETS);
    ChunksJoin(s, MAX_TARGETS);
    var cs := Chunks(s, MAX_TARGETS);
    forall i | 0 <= i < |cs| ensures StrictlyIncreasing(cs[i]) { ChunkAt(s, MAX_TARGETS, i); }
  }

  lemma {:induction false} WithoutSize(roster: seq<MemberId>, local: MemberId)
    requires StrictlyIncreasing(roster)
    ensures StrictlyIncreasing(Without(roster, local))
    ensures |Without(roster, local)| == if local in roster then |roster| - 1 else |roster|
  {
    if roster != [] {
      WithoutSize(roster[1..], local);
    }
  }

  /**
   * The audiences partition the ascending roster minus the origin, in order, into nonempty groups of at most ten,
   * all full but the last; a 50-member roster gives five.
   */
  lemma AudiencesPartition(local: MemberId, members: seq<MemberId>)
    ensures
      var r := BroadcastAudiences(local, members);
      && (r.Ok? <==> 0 < |members| <= MAX_GROUP_MEMBERS && DuplicateFree(members) && local in members)
      && (r.Ok? ==>
            && Flatten(r.value) == Without(Sorted(members), local)
            && |Flatten(r.value)| == |members| - 1
            && StrictlyIncreasing(Flatten(r.value))
            && (forall x :: x in Flatten(r.value) <==> x in members && x != local)
            && (forall i :: 0 <= i < |r.value| ==> 0 < |r.value[i]| <= MAX_TARGETS && StrictlyIncreasing(r.value[i]))
            && (forall i :: 0 <= i < |r.value| - 1 ==> |r.value[i]| == MAX_TARGETS)
            && |r.value| == (|members| - 1 + 9) / 10)
  {
    SortedStrictly(members);
    assert local in members <==> local in multiset(members);
    assert local in Sorted(members) <==> local in multiset(Sorted(members));
    var r := BroadcastAudiences(local, members);
    if r.Ok? {
      var roster := Sorted(members);
      WithoutSize(roster, local);
      AudiencesIncrease(Without(roster, local));
      assert forall x :: x in members <==> x in multiset(members);
      assert forall x :: x in roster <==> x in multiset(roster);
    }
  }
}
