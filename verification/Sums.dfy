/** Totals over finite tables, as SQL's sum(...) computes them. */
module Sums {

  ghost function Total<K>(m: map<K, nat>): nat
    decreases m.Keys
  {
    if m == map[] then 0
    else
      var k :| k in m;
      assert (m - {k}).Keys < m.Keys;
      m[k] + Total(m - {k})
  }

  /** The total does not depend on the order of the rows. */
  lemma {:induction false} TotalSplit<K>(m: map<K, nat>, k: K)
    requires k in m
    ensures Total(m) == m[k] + Total(m - {k})
    decreases m.Keys
  {
    var j :| j in m && Total(m) == m[j] + Total(m - {j});
    if j != k {
      TotalSplit(m - {j}, k);
      TotalSplit(m - {k}, j);
      assert m - {j} - {k} == m - {k} - {j};
    }
  }

  lemma TotalInsert<K>(m: map<K, nat>, k: K, v: nat)
    requires k !in m
    ensures Total(m[k := v]) == Total(m) + v
  {
    TotalSplit(m[k := v], k);
    assert m[k := v] - {k} == m;
  }

  /** Row by row at most: then at most in total, and equal in total only if equal in every row. */
  lemma {:induction false} TotalAtMost<K>(a: map<K, nat>, b: map<K, nat>)
    requires a.Keys == b.Keys && forall k :: k in a ==> a[k] <= b[k]
    ensures Total(a) <= Total(b)
    ensures Total(a) == Total(b) ==> a == b
    decreases a.Keys
  {
    if a == map[] {
      assert b == map[];
    } else {
      var k :| k in a;
      TotalSplit(a, k);
      TotalSplit(b, k);
      assert (a - {k}).Keys < a.Keys;
      TotalAtMost(a - {k}, b - {k});
      assert a == (a - {k})[k := a[k]] && b == (b - {k})[k := b[k]];
    }
  }

  /** Dropping rows does not raise the total. */
  lemma {:induction false} TotalRestrict<K>(m: map<K, nat>, drop: set<K>)
    ensures Total(m - drop) <= Total(m)
    decreases m.Keys
  {
    if forall k :: k in drop ==> k !in m {
      assert m - drop == m;
    } else {
      var k :| k in drop && k in m;
      TotalSplit(m, k);
      assert (m - {k}).Keys < m.Keys;
      TotalRestrict(m - {k}, drop);
      assert m - {k} - drop == m - drop;
    }
  }

  /** The naturals below n: there are n of them. */
  function Below(n: nat): (all: set<nat>)
    ensures |all| == n
    ensures forall i: nat :: i in all <==> i < n
  {
    if n == 0 then {} else Below(n - 1) + {n - 1}
  }

  /** A subset has at most as many elements, and as many only if it is the whole set. */
  lemma {:induction false} SubsetCardinality<T>(a: set<T>, b: set<T>)
    requires a <= b
    ensures |a| <= |b| && (|a| == |b| ==> a == b)
  {
    if a != {} {
      var x :| x in a;
      SubsetCardinality(a - {x}, b - {x});
      assert a == (a - {x}) + {x} && b == (b - {x}) + {x};
    }
  }

  /** Distinct elements: the set of them is as large as the list. */
  lemma {:induction false} DistinctCount<T>(s: seq<T>)
    requires forall i, j :: 0 <= i < j < |s| ==> s[i] != s[j]
    ensures |set t | t in s| == |s|
  {
    if s == [] {
      assert (set t | t in s) == {};
    } else {
      var init, last := s[..|s| - 1], s[|s| - 1];
      DistinctCount(init);
      assert s == init + [last];
      assert last !in init;
      assert (set t | t in s) == (set t | t in init) + {last};
    }
  }
}
