/** The 64-packet sliding window, and the unbounded set of accepted packet numbers it stands for. */
module Replays {
  import opened Words

  /** The greatest accepted number is the highest. */
  ghost predicate IsHighest(highest: u64, accepted: set<u64>) {
    highest in accepted && forall n :: n in accepted ==> n <= highest
  }

  /** Bit d is set exactly when `highest - d` was accepted, for d below 64. */
  ghost predicate BitsAre(highest: u64, bits: u64, accepted: set<u64>) {
    forall n: u64 :: n <= highest < n + 64 ==> (Bit(bits, highest - n) <==> n in accepted)
  }

  /** A number that was never accepted and is less than 64 below every accepted one. */
  ghost predicate Fresh(accepted: set<u64>, n: u64) {
    n !in accepted && forall m :: m in accepted ==> m < n + 64
  }

  lemma FirstBits(n: u64)
    ensures IsHighest(n, {n}) && BitsAre(n, 1, {n})
  {
    var one := {n};
    forall m: u64 | m <= n < m + 64 ensures Bit(1, n - m) <==> m in one {
      SetBitOnly(0, 0, n - m);
      ZeroBits(n - m);
    }
  }

  lemma {:induction false} ZeroBits(d: nat)
    ensures !Bit(0, d)
  {
    if d > 0 { ZeroBits(d - 1); }
  }

  /** Far above the highest nothing old stays in the window. */
  lemma FarBits(highest: u64, accepted: set<u64>, n: u64)
    requires IsHighest(highest, accepted) && n >= highest + 64
    ensures IsHighest(n, accepted + {n}) && BitsAre(n, 1, accepted + {n})
  {
    FirstBits(n);
  }

  lemma NearBits(highest: u64, bits: u64, accepted: set<u64>, n: u64)
    requires IsHighest(highest, accepted) && BitsAre(highest, bits, accepted) && highest < n < highest + 64
    ensures IsHighest(n, accepted + {n})
    ensures BitsAre(n, SetBit(ShiftLeft(bits, n - highest), 0), accepted + {n})
  {
    var k := n - highest;
    forall m: u64 | m <= n < m + 64 ensures Bit(SetBit(ShiftLeft(bits, k), 0), n - m) <==> m in accepted + {n} {
      SetBitOnly(ShiftLeft(bits, k), 0, n - m);
      ShiftLeftBits(bits, k, n - m);
    }
  }

  lemma OldBits(highest: u64, bits: u64, accepted: set<u64>, n: u64)
    requires IsHighest(highest, accepted) && BitsAre(highest, bits, accepted) && n <= highest < n + 64
    ensures IsHighest(highest, accepted + {n})
    ensures BitsAre(highest, SetBit(bits, highest - n), accepted + {n})
  {
    forall m: u64 | m <= highest < m + 64 ensures Bit(SetBit(bits, highest - n), highest - m) <==> m in accepted + {n} {
      SetBitOnly(bits, highest - n, highest - m);
    }
  }

  class Replay {
    var any: bool
    var highest: u64
    var bits: u64
    ghost var accepted: set<u64>

    /** The window stands for the whole set of accepted numbers. */
    ghost predicate Valid()
      reads this
    {
      if any then IsHighest(highest, accepted) && BitsAre(highest, bits, accepted) else accepted == {}
    }

    constructor ()
      ensures Valid() && accepted == {}
    {
      any, highest, bits, accepted := false, 0, 0, {};
    }

    /** Passes exactly the numbers that are new and not too far behind. */
    method Check(n: u64) returns (passes: bool)
      requires Valid()
      ensures passes <==> Fresh(accepted, n)
    {
      if any {
        if n <= highest {
          var delta := highest - n;
          if delta >= 64 || Bit(bits, delta) { return false; }
        }
      }
      return true;
    }

    method Accept(n: u64)
      requires Valid() && Fresh(accepted, n)
      modifies this
      ensures Valid() && accepted == old(accepted) + {n}
    {
      if !any {
        any, highest, bits := true, n, 1;
        FirstBits(n);
      } else if n > highest {
        if n - highest >= 64 {
          FarBits(highest, accepted, n);
          bits := 1;
        } else {
          NearBits(highest, bits, accepted, n);
          bits := SetBit(ShiftLeft(bits, n - highest), 0);
        }
        highest := n;
      } else {
        OldBits(highest, bits, accepted, n);
        bits := SetBit(bits, highest - n);
      }
      accepted := accepted + {n};
      assert accepted == old(accepted) + {n} && (!old(any) ==> accepted == {n});
    }
  }

  // ----- every run -----

  /** The numbers accepted from a sequence of offers. */
  ghost function Accepted(offers: seq<u64>): set<u64> {
    if offers == [] then {}
    else
      var before := Accepted(offers[..|offers| - 1]);
      if Fresh(before, offers[|offers| - 1]) then before + {offers[|offers| - 1]} else before
  }

  /** No number is accepted a second time, however often and in whatever order it is offered. */
  lemma {:induction false} NeverTwice(offers: seq<u64>, i: nat, j: nat)
    requires i < j < |offers| && offers[i] == offers[j]
    ensures !(Fresh(Accepted(offers[..i]), offers[i]) && Fresh(Accepted(offers[..j]), offers[j]))
  {
    if Fresh(Accepted(offers[..i]), offers[i]) {
      Grows(offers, i + 1, j);
      assert offers[..i + 1][..i] == offers[..i];
    }
  }

  lemma {:induction false} Grows(offers: seq<u64>, i: nat, j: nat)
    requires i <= j <= |offers|
    ensures Accepted(offers[..i]) <= Accepted(offers[..j])
    decreases j - i
  {
    if i < j {
      Grows(offers, i, j - 1);
      assert offers[..j][..j - 1] == offers[..j - 1];
    }
  }

  /** A new number within 64 of everything before is accepted, in whatever order numbers arrive. */
  lemma AcceptedWhenNear(offers: seq<u64>, n: u64)
    requires n !in offers && forall m :: m in offers ==> m < n + 64
    ensures Fresh(Accepted(offers), n)
  {
    OnlyOffers(offers);
  }

  lemma {:induction false} OnlyOffers(offers: seq<u64>)
    ensures forall n :: n in Accepted(offers) ==> n in offers
  {
    if offers != [] { OnlyOffers(offers[..|offers| - 1]); }
  }

  /** The window's answers over a whole run are the unbounded set's. */
  method Offer(offers: seq<u64>) returns (answers: seq<bool>)
    ensures |answers| == |offers|
    ensures forall i :: 0 <= i < |offers| ==> (answers[i] <==> Fresh(Accepted(offers[..i]), offers[i]))
  {
    var window := new Replay();
    answers := [];
    for i := 0 to |offers|
      invariant window.Valid() && fresh(window) && window.accepted == Accepted(offers[..i])
      invariant |answers| == i && forall j :: 0 <= j < i ==> (answers[j] <==> Fresh(Accepted(offers[..j]), offers[j]))
    {
      assert offers[..i + 1][..i] == offers[..i];
      var passes := window.Check(offers[i]);
      if passes { window.Accept(offers[i]); }
      answers := answers + [passes];
    }
  }
}
