/** Unsigned 64-bit words: shifts and single-bit operations, as arithmetic modulo 2^64. */
module Words {

  type u64 = x: int | 0 <= x < 0x1_0000_0000_0000_0000 witness 0

  function Pow2(k: nat): (p: nat)
    ensures p > 0
  {
    if k == 0 then 1 else 2 * Pow2(k - 1)
  }

  lemma WordSize()
    ensures Pow2(64) == 0x1_0000_0000_0000_0000
  {
    assert Pow2(4) == 16;
    Pow2Adds(4, 4);
    Pow2Adds(8, 8);
    Pow2Adds(16, 16);
    Pow2Adds(32, 32);
  }

  lemma {:induction false} Pow2Adds(a: nat, b: nat)
    ensures Pow2(a + b) == Pow2(a) * Pow2(b)
  {
    if a > 0 { Pow2Adds(a - 1, b); }
  }

  lemma {:induction false} Pow2Grows(a: nat, b: nat)
    requires a <= b
    ensures Pow2(a) <= Pow2(b)
    decreases b - a
  {
    if a < b { Pow2Grows(a + 1, b); }
  }

  /** Bit d of x. */
  predicate Bit(x: nat, d: nat) {
    if d == 0 then x % 2 == 1 else Bit(x / 2, d - 1)
  }

  /** `x << k` on a 64-bit word: what leaves the word is lost. */
  function ShiftLeft(x: u64, k: nat): u64
    requires k < 64
  {
    x * Pow2(k) % 0x1_0000_0000_0000_0000
  }

  /** `x | 1 << d` on a 64-bit word. */
  function SetBit(x: u64, d: nat): u64
    requires d < 64
  {
    if Bit(x, d) then x
    else
      FitsWord(x, d);
      x + Pow2(d)
  }

  /** A word with bit d clear has room for it. */
  lemma FitsWord(x: u64, d: nat)
    requires d < 64 && !Bit(x, d)
    ensures x + Pow2(d) < 0x1_0000_0000_0000_0000
  {
    WordSize();
    ClearFits(x, d, 64);
  }

  lemma {:induction false} ClearFits(x: nat, d: nat, w: nat)
    requires d < w && x < Pow2(w) && !Bit(x, d)
    ensures x + Pow2(d) < Pow2(w)
  {
    assert x == 2 * (x / 2) + x % 2 && Pow2(w) == 2 * Pow2(w - 1);
    if d > 0 { ClearFits(x / 2, d - 1, w - 1); }
  }

  lemma {:induction false} SetBitBits(x: nat, d: nat, e: nat)
    requires !Bit(x, d)
    ensures Bit(x + Pow2(d), e) <==> e == d || Bit(x, e)
    decreases d
  {
    if d > 0 {
      assert (x + Pow2(d)) / 2 == x / 2 + Pow2(d - 1);
      if e > 0 { SetBitBits(x / 2, d - 1, e - 1); }
    }
  }

  /** Setting a bit sets that bit and no other. */
  lemma SetBitOnly(x: u64, d: nat, e: nat)
    requires d < 64
    ensures Bit(SetBit(x, d), e) <==> e == d || Bit(x, e)
  {
    if !Bit(x, d) { SetBitBits(x, d, e); }
  }

  lemma {:induction false} TimesBits(x: nat, k: nat, d: nat)
    ensures Bit(x * Pow2(k), d) <==> d >= k && Bit(x, d - k)
    decreases k
  {
    if k > 0 {
      assert x * Pow2(k) == 2 * (x * Pow2(k - 1));
      if d > 0 { TimesBits(x, k - 1, d - 1); }
    }
  }

  lemma {:induction false} RemainderBits(x: nat, w: nat, d: nat)
    requires d < w
    ensures Bit(x % Pow2(w), d) <==> Bit(x, d)
    decreases d
  {
    Halve(x, w);
    if d > 0 { RemainderBits(x / 2, w - 1, d - 1); }
  }

  lemma Halve(x: nat, w: nat)
    requires w > 0
    ensures x % Pow2(w) % 2 == x % 2 && (x % Pow2(w)) / 2 == (x / 2) % Pow2(w - 1)
  {
    var p, q := Pow2(w - 1), x / Pow2(w);
    var r := x % Pow2(w);
    assert x == q * (2 * p) + r;
    assert q * (2 * p) == 2 * (q * p);
    assert x / 2 == q * p + r / 2 && 0 <= r / 2 < p;
    Remainder(q, p, r / 2);
  }

  lemma Remainder(q: nat, p: nat, r: nat)
    requires r < p
    ensures (q * p + r) % p == r
  {
    if q > 0 {
      Remainder(q - 1, p, r);
      assert q * p + r == (q - 1) * p + r + p;
      assert ((q - 1) * p + r + p) % p == ((q - 1) * p + r) % p by { AddOnce((q - 1) * p + r, p); }
    }
  }

  lemma AddOnce(x: nat, p: nat)
    requires p > 0
    ensures (x + p) % p == x % p
  {
    var q := x / p;
    assert x + p == (q + 1) * p + x % p;
    Unique(x + p, p, q + 1, x % p);
  }

  lemma Unique(x: nat, p: nat, q: nat, r: nat)
    requires x == q * p + r && r < p
    ensures x % p == r
  {
    assert x == x / p * p + x % p;
    assert (x / p - q) * p == r - x % p;
    ZeroMultiple(x / p - q, p);
  }

  lemma ZeroMultiple(z: int, p: int)
    requires p > 0 && -p < z * p < p
    ensures z == 0
  {
    MulAtLeast(z, p);
    MulAtLeast(-z, p);
  }

  lemma MulAtLeast(z: int, p: int)
    requires p > 0
    ensures z >= 1 ==> z * p >= p
  {
  }

  /** Shifting moves every bit up, fills with zeros and loses the top. */
  lemma ShiftLeftBits(x: u64, k: nat, d: nat)
    requires k < 64 && d < 64
    ensures Bit(ShiftLeft(x, k), d) <==> d >= k && Bit(x, d - k)
  {
    WordSize();
    RemainderBits(x * Pow2(k), 64, d);
    TimesBits(x, k, d);
  }
}
