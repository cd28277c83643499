/** Shifts and bitwise or on `size_t` values, and the rounding of a capacity up to a power of two.
    The values stay below 2^63, so nothing wraps. */
module PowersOfTwo {

  function Pow2(k: nat): (p: nat)
    ensures p >= 1
  {
    if k == 0 then 1 else 2 * Pow2(k - 1)
  }

  function Shr(n: nat, k: nat): nat
    decreases k
  {
    if k == 0 then n else Shr(n / 2, k - 1)
  }

  function Or(a: nat, b: nat): nat {
    if a == 0 then b
    else if b == 0 then a
    else (if a % 2 == 1 || b % 2 == 1 then 1 else 0) + 2 * Or(a / 2, b / 2)
  }

  ghost predicate IsPowerOfTwo(n: nat) {
    exists k: nat :: n == Pow2(k)
  }

  function OrShifted(n: nat, k: nat): nat {
    Or(n, Shr(n, k))
  }

  /** The bit smearing of `reset`. */
  function AdjustSize(v: nat): nat {
    var n := v;
    var n := OrShifted(n, 1);
    var n := OrShifted(n, 2);
    var n := OrShifted(n, 4);
    var n := OrShifted(n, 8);
    var n := OrShifted(n, 16);
    var n := OrShifted(n, 32);
    var n := n + 1;
    if Shr(n, 1) == v then v else n
  }

  lemma {:induction false} ShrTwice(n: nat, a: nat, b: nat)
    ensures Shr(Shr(n, a), b) == Shr(n, a + b)
    decreases a
  {
    if a > 0 {
      ShrTwice(n / 2, a - 1, b);
    }
  }

  lemma OrHalf(a: nat, b: nat)
    ensures Or(a, b) / 2 == Or(a / 2, b / 2)
  {
  }

  lemma {:induction false} ShrOr(a: nat, b: nat, k: nat)
    ensures Shr(Or(a, b), k) == Or(Shr(a, k), Shr(b, k))
    decreases k
  {
    if k > 0 {
      OrHalf(a, b);
      ShrOr(a / 2, b / 2, k - 1);
    }
  }

  lemma {:induction false} ShrBounds(n: nat, k: nat)
    ensures Shr(n, k) * Pow2(k) <= n < (Shr(n, k) + 1) * Pow2(k)
    decreases k
  {
    if k > 0 {
      ShrBounds(n / 2, k - 1);
      var s, p := Shr(n / 2, k - 1), Pow2(k - 1);
      assert s * (2 * p) == 2 * (s * p);
      assert (s + 1) * (2 * p) == 2 * ((s + 1) * p);
    }
  }

  lemma {:induction false} Pow2Sum(a: nat, b: nat)
    ensures Pow2(a + b) == Pow2(a) * Pow2(b)
    decreases a
  {
    if a > 0 {
      Pow2Sum(a - 1, b);
    }
  }

  lemma {:induction false} ShrOnes(w: nat, k: nat)
    requires k <= w
    ensures Shr(Pow2(w) - 1, k) == Pow2(w - k) - 1
    decreases k
  {
    if k > 0 {
      assert (Pow2(w) - 1) / 2 == Pow2(w - 1) - 1;
      ShrOnes(w - 1, k - 1);
    }
  }

  lemma OrOdd(x: nat, p: nat)
    requires p > 0
    ensures Or(x, 2 * p - 1) == 1 + 2 * Or(x / 2, p - 1)
  {
    assert (2 * p - 1) / 2 == p - 1;
  }

  /** Or-ing `e` ones in at the bottom fills the bottom `e` bits. */
  lemma {:induction false} OrLowOnes(x: nat, e: nat)
    ensures Or(x, Pow2(e) - 1) == Shr(x, e) * Pow2(e) + Pow2(e) - 1
    decreases e
  {
    if e == 0 {
      assert Pow2(e) == 1 && Shr(x, e) == x;
    } else {
      OneBitLess(x, e);
      hide *;
      var p, r := Pow2(e - 1), Shr(x, e);
      OrLowOnes(x / 2, e - 1);
      OrOdd(x, p);
      Doubled(r, p);
    }
  }

  lemma OneBitLess(x: nat, e: nat)
    requires e > 0
    ensures Pow2(e) == 2 * Pow2(e - 1) && Shr(x, e) == Shr(x / 2, e - 1)
  {
  }

  lemma Doubled(s: nat, p: nat)
    ensures s * (2 * p) + 2 * p - 1 == 1 + 2 * (s * p + p - 1)
  {
  }

  /** A number of `m + 1` bits whose top `w` bits are ones. */
  ghost predicate TopOnes(n: nat, m: nat, w: nat) {
    w <= m + 1 && Shr(n, m + 1 - w) == Pow2(w) - 1
  }

  /** One smearing step doubles the run of ones at the top, as far as there are bits. */
  lemma SmearStep(n: nat, m: nat, w: nat)
    requires w > 0 && TopOnes(n, m, w)
    ensures TopOnes(OrShifted(n, w), m, if 2 * w <= m + 1 then 2 * w else m + 1)
  {
    var wider := if 2 * w <= m + 1 then 2 * w else m + 1;
    var e, d := wider - w, m + 1 - wider;
    TopRun(n, m, w, e, d);
    ShrOr(n, Shr(n, w), d);
    OrLowOnes(Shr(n, d), e);
    hide Or, Shr, Pow2;
    Pow2Sum(w, e);
    Filled(Pow2(w), Pow2(e));
  }

  lemma TopRun(n: nat, m: nat, w: nat, e: nat, d: nat)
    requires e <= w && d + e + w == m + 1
    requires Shr(n, m + 1 - w) == Pow2(w) - 1
    ensures Shr(Shr(n, d), e) == Pow2(w) - 1
    ensures Shr(Shr(n, w), d) == Pow2(e) - 1
  {
    hide *;
    var top := m + 1 - w;
    assert Shr(n, top) == Pow2(w) - 1;
    ShrTwice(n, d, e);
    assert d + e == top;
    ShrTwice(n, w, d);
    ShrTwice(n, top, w - e);
    assert w + d == top + (w - e);
    ShrOnes(w, w - e);
  }

  lemma Filled(a: nat, b: nat)
    requires a >= 1
    ensures (a - 1) * b + b - 1 == a * b - 1
  {
  }

  lemma SmearWhole(n: nat, m: nat, w: nat)
    requires w > 0 && TopOnes(n, m, if w <= m + 1 then w else m + 1)
    ensures TopOnes(OrShifted(n, w), m, if 2 * w <= m + 1 then 2 * w else m + 1)
  {
    if w <= m + 1 {
      SmearStep(n, m, w);
    } else {
      assert n == Pow2(m + 1) - 1;
      ShrTwice(n, m + 1, w - (m + 1));
      ShrOnes(m + 1, m + 1);
      ShrZero(w - (m + 1));
    }
  }

  lemma {:induction false} ShrZero(k: nat)
    ensures Shr(0, k) == 0
    decreases k
  {
    if k > 0 {
      ShrZero(k - 1);
    }
  }

  lemma {:induction false} HighestBit(v: nat, most: nat) returns (m: nat)
    requires 0 < v < Pow2(most)
    ensures m < most && Shr(v, m) == 1
    decreases most
  {
    if v == 1 {
      m := 0;
    } else {
      m := HighestBit(v / 2, most - 1);
      m := m + 1;
    }
  }

  lemma TwoTo63()
    ensures Pow2(63) == 0x8000_0000_0000_0000
  {
    assert Pow2(8) == 256 && Pow2(7) == 128;
    hide Pow2;
    Pow2Sum(8, 8);
    Pow2Sum(8, 7);
    assert Pow2(16) == 0x1_0000 && Pow2(15) == 0x8000;
    Pow2Sum(16, 16);
    Pow2Sum(16, 15);
    assert Pow2(32) == 0x1_0000_0000 && Pow2(31) == 0x8000_0000;
    Pow2Sum(32, 31);
  }

  /** All smearing steps together leave nothing but ones below the highest bit. */
  lemma AdjustSizeFromBit(v: nat, m: nat)
    requires m < 63 && Shr(v, m) == 1
    ensures AdjustSize(v) == if Pow2(m) == v then v else Pow2(m + 1)
  {
    assert TopOnes(v, m, 1);
    var n1 := OrShifted(v, 1);
    var n2 := OrShifted(n1, 2);
    var n4 := OrShifted(n2, 4);
    var n8 := OrShifted(n4, 8);
    var n16 := OrShifted(n8, 16);
    var n32 := OrShifted(n16, 32);
    Smeared(v, m, n1, n2, n4, n8, n16, n32);
    assert Shr(Pow2(m + 1), 1) == Pow2(m);
  }

  lemma Smeared(v: nat, m: nat, n1: nat, n2: nat, n4: nat, n8: nat, n16: nat, n32: nat)
    requires m < 63 && TopOnes(v, m, 1)
    requires n1 == OrShifted(v, 1) && n2 == OrShifted(n1, 2) && n4 == OrShifted(n2, 4)
    requires n8 == OrShifted(n4, 8) && n16 == OrShifted(n8, 16) && n32 == OrShifted(n16, 32)
    ensures n32 == Pow2(m + 1) - 1
  {
    hide OrShifted, Pow2;
    SmearWhole(v, m, 1);
    SmearWhole(n1, m, 2);
    SmearWhole(n2, m, 4);
    SmearWhole(n4, m, 8);
    SmearWhole(n8, m, 16);
    SmearWhole(n16, m, 32);
  }

  lemma NoPowerBetween(v: nat, m: nat, k: nat)
    requires Shr(v, m) == 1 && Pow2(k) >= v
    ensures (if Pow2(m) == v then v else Pow2(m + 1)) <= Pow2(k)
  {
    hide *;
    ShrBoundsOne(v, m);
    if k < m {
      Pow2Grows(k, m);
    } else if k > m {
      Pow2Grows(m + 1, k);
      Pow2Grows(m, k);
    }
  }

  /** The rounding gives the least power of two that is not below `v`. */
  lemma AdjustSizeIsLeast(v: nat)
    requires 0 < v < 0x8000_0000_0000_0000
    ensures IsPowerOfTwo(AdjustSize(v)) && AdjustSize(v) >= v
    ensures forall p: nat | IsPowerOfTwo(p) && p >= v :: AdjustSize(v) <= p
  {
    TwoTo63();
    hide Pow2, Shr, AdjustSize;
    var m := HighestBit(v, 63);
    AdjustSizeFromBit(v, m);
    forall p: nat | IsPowerOfTwo(p) && p >= v
      ensures AdjustSize(v) <= p
    {
      var k: nat :| p == Pow2(k);
      NoPowerBetween(v, m, k);
    }
    ShrBoundsOne(v, m);
  }

  lemma ShrBoundsOne(v: nat, m: nat)
    requires Shr(v, m) == 1
    ensures Pow2(m) <= v < Pow2(m + 1)
  {
    ShrBounds(v, m);
  }

  lemma {:induction false} Pow2Grows(a: nat, b: nat)
    requires a <= b
    ensures Pow2(a) <= Pow2(b)
    ensures a < b ==> Pow2(a) < Pow2(b)
    decreases b
  {
    if a < b {
      Pow2Grows(a, b - 1);
    }
  }
}
