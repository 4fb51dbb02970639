/** Powers of two, floor logarithms and bit reversal, defined on natural numbers.
    These are the reference definitions: the machine-word tricks in Words are proved to
    agree with them, and the hash table orders its nodes by them. */
module Bits {

  function Pow2(n: nat): (p: nat)
    ensures p >= 1
  {
    if n == 0 then 1 else 2 * Pow2(n - 1)
  }

  /** v shifted left by n bits. */
  function Shift(v: nat, n: nat): nat {
    if n == 0 then v else 2 * Shift(v, n - 1)
  }

  /** The m lowest bits of v. */
  function LowBits(v: nat, m: nat): (r: nat)
    ensures r < Pow2(m)
  {
    if m == 0 then 0 else v % 2 + 2 * LowBits(v / 2, m - 1)
  }

  /** The bits of v above the m lowest. */
  function HighBits(v: nat, m: nat): nat {
    if m == 0 then v else HighBits(v / 2, m - 1)
  }

  /** The n low bits of v, read in the opposite order. */
  function Reverse(v: nat, n: nat): (r: nat)
    ensures r < Pow2(n)
  {
    if n == 0 then 0
    else (if v % 2 == 1 then Pow2(n - 1) else 0) + Reverse(v / 2, n - 1)
  }

  /** The position of the highest set bit; 0 for 0 and 1. */
  function Log2(v: nat): (k: nat)
    ensures v >= 1 ==> Pow2(k) <= v < Pow2(k + 1)
  {
    if v <= 1 then 0 else 1 + Log2(v / 2)
  }

  /** The number of set bits. */
  function PopCount(v: nat): nat {
    if v == 0 then 0 else v % 2 + PopCount(v / 2)
  }

  // ---------------------------------------------------------------- powers and logarithms

  lemma {:induction false} Pow2Monotone(m: nat, n: nat)
    requires m <= n
    ensures Pow2(m) <= Pow2(n)
    ensures m < n ==> 2 * Pow2(m) <= Pow2(n)
    decreases n
  {
    if m < n {
      Pow2Monotone(m, n - 1);
    }
  }

  lemma {:induction false} Log2Unique(v: nat, k: nat)
    requires Pow2(k) <= v < Pow2(k + 1)
    ensures Log2(v) == k
  {
    if Log2(v) < k {
      Pow2Monotone(Log2(v) + 1, k);
    } else if Log2(v) > k {
      Pow2Monotone(k + 1, Log2(v));
    }
  }

  lemma {:induction false} Log2Below(v: nat, s: nat)
    requires v < Pow2(s) && s >= 1
    ensures Log2(v) < s
  {
    if v >= 1 && Log2(v) >= s {
      Pow2Monotone(s, Log2(v));
    }
  }

  /** One set bit means a power of two, and only that. */
  lemma {:induction false} PopCountOne(v: nat)
    requires v >= 1
    ensures PopCount(v) >= 1
    ensures PopCount(v) == 1 <==> v == Pow2(Log2(v))
  {
    if v > 1 {
      PopCountOne(v / 2);
    }
  }

  // ---------------------------------------------------------------- shifting

  lemma {:induction false} ShiftAdd(v: nat, w: nat, n: nat)
    ensures Shift(v + w, n) == Shift(v, n) + Shift(w, n)
  {
    if n > 0 {
      ShiftAdd(v, w, n - 1);
    }
  }

  lemma {:induction false} ShiftZero(n: nat)
    ensures Shift(0, n) == 0
  {
    if n > 0 {
      ShiftZero(n - 1);
    }
  }

  lemma {:induction false} ShiftPow2(m: nat, n: nat)
    ensures Shift(Pow2(m), n) == Pow2(m + n)
  {
    if n > 0 {
      ShiftPow2(m, n - 1);
    }
  }

  lemma {:induction false} ShiftStrict(v: nat, w: nat, n: nat)
    ensures v < w ==> Shift(v, n) + Pow2(n) <= Shift(w, n)
  {
    if n > 0 {
      ShiftStrict(v, w, n - 1);
    }
  }

  lemma {:induction false} ShiftProduct(v: nat, n: nat)
    ensures Shift(v, n) == Pow2(n) * v
  {
    if n > 0 {
      ShiftProduct(v, n - 1);
      assert 2 * (Pow2(n - 1) * v) == (2 * Pow2(n - 1)) * v;
    }
  }

  // ---------------------------------------------------------------- low and high bits

  lemma LowBitsNone(v: nat)
    ensures LowBits(v, 0) == 0
  {
  }

  lemma LowBitsStep(a: nat, v: nat, m: nat)
    requires a < 2 && m >= 1
    ensures LowBits(a + 2 * v, m) == a + 2 * LowBits(v, m - 1)
  {
    assert (a + 2 * v) % 2 == a && (a + 2 * v) / 2 == v;
  }

  lemma {:induction false} BitsSplit(v: nat, m: nat)
    ensures v == Shift(HighBits(v, m), m) + LowBits(v, m)
  {
    if m > 0 {
      BitsSplit(v / 2, m - 1);
    }
  }

  lemma {:induction false} ConcatBits(low: nat, high: nat, m: nat)
    requires low < Pow2(m)
    ensures LowBits(Shift(high, m) + low, m) == low && HighBits(Shift(high, m) + low, m) == high
  {
    if m > 0 {
      ConcatBits(low / 2, high, m - 1);
      var v := Shift(high, m) + low;
      assert v / 2 == Shift(high, m - 1) + low / 2 && v % 2 == low % 2;
    }
  }

  /** A value of at most m bits is its own low bits. */
  lemma {:induction false} ShortBits(v: nat, m: nat)
    requires v < Pow2(m)
    ensures LowBits(v, m) == v && HighBits(v, m) == 0
  {
    if m > 0 {
      ShortBits(v / 2, m - 1);
    }
  }

  lemma {:induction false} NextMultiple(a: int, b: int, d: nat)
    ensures a < b ==> d * a + d <= d * b
  {
    if d > 0 {
      NextMultiple(a, b, d - 1);
      assert d * a == (d - 1) * a + a && d * b == (d - 1) * b + b;
    }
  }

  lemma {:induction false} DivModOf(q: nat, r: nat, d: nat)
    requires r < d
    ensures d * q + r >= 0 && (d * q + r) / d == q && (d * q + r) % d == r
  {
    var v := d * q + r;
    NextMultiple(q, v / d, d);
    NextMultiple(v / d, q, d);
  }

  /** The low bits are the remainder by a power of two. */
  lemma {:induction false} LowBitsMod(v: nat, m: nat)
    ensures LowBits(v, m) == v % Pow2(m)
  {
    BitsSplit(v, m);
    ShiftProduct(HighBits(v, m), m);
    DivModOf(HighBits(v, m), LowBits(v, m), Pow2(m));
  }

  // ---------------------------------------------------------------- reversal

  /** Reversal exchanges the low m bits with the high n bits, reversing each part. */
  lemma {:induction false} ReverseSplit(v: nat, m: nat, n: nat)
    ensures Reverse(v, m + n) == Shift(Reverse(LowBits(v, m), m), n) + Reverse(HighBits(v, m), n)
    decreases m
  {
    if m == 0 {
      ShiftZero(n);
    } else {
      ReverseSplit(v / 2, m - 1, n);
      ReverseSplitStep(v % 2, LowBits(v / 2, m - 1), m - 1, n);
    }
  }

  lemma {:induction false} ReverseSplitStep(a: nat, low: nat, m: nat, n: nat)
    requires a < 2
    ensures Shift(Reverse(a + 2 * low, m + 1), n)
         == (if a == 1 then Pow2(m + n) else 0) + Shift(Reverse(low, m), n)
  {
    assert (a + 2 * low) % 2 == a && (a + 2 * low) / 2 == low;
    ShiftPow2(m, n);
    ShiftAdd(Pow2(m), Reverse(low, m), n);
  }

  lemma {:induction false} ReverseZero(n: nat)
    ensures Reverse(0, n) == 0
  {
    if n > 0 {
      ReverseZero(n - 1);
    }
  }

  /** A bit a put on top of n low bits comes out last. */
  lemma {:induction false} ReverseTop(low: nat, a: nat, n: nat)
    requires low < Pow2(n) && a < 2
    ensures Reverse(Shift(a, n) + low, n + 1) == 2 * Reverse(low, n) + a
  {
    if n == 0 {
      assert Reverse(a, 1) == a;
    } else {
      ReverseTop(low / 2, a, n - 1);
      var v := Shift(a, n) + low;
      assert v % 2 == low % 2 && v / 2 == Shift(a, n - 1) + low / 2;
    }
  }

  lemma ReverseNone(v: nat)
    ensures Reverse(v, 0) == 0
  {
  }

  lemma ReverseStep(v: nat, n: nat)
    requires n > 0
    ensures Reverse(v, n) == Shift(v % 2, n - 1) + Reverse(v / 2, n - 1)
  {
    ShiftPow2(0, n - 1);
    ShiftZero(n - 1);
  }

  lemma LowBitsUnfold(v: nat, n: nat)
    requires n > 0
    ensures LowBits(v, n) == v % 2 + 2 * LowBits(v / 2, n - 1)
  {
  }

  /** Reversing twice gives the n low bits back. */
  lemma {:induction false} ReverseInvolution(v: nat, n: nat)
    ensures Reverse(Reverse(v, n), n) == LowBits(v, n)
  {
    hide Reverse, LowBits, Shift, Pow2;
    if n == 0 {
      ReverseNone(Reverse(v, n));
      LowBitsNone(v);
    } else {
      ReverseInvolution(v / 2, n - 1);
      ReverseStep(v, n);
      ReverseTop(Reverse(v / 2, n - 1), v % 2, n - 1);
      LowBitsUnfold(v, n);
    }
  }

  lemma {:induction false} ReverseInjective(v: nat, w: nat, n: nat)
    requires v < Pow2(n) && w < Pow2(n)
    requires Reverse(v, n) == Reverse(w, n)
    ensures v == w
  {
    ReverseInvolution(v, n);
    ReverseInvolution(w, n);
    ShortBits(v, n);
    ShortBits(w, n);
  }

  /** The reversal of h starts with the reversal of its low m bits. */
  lemma {:induction false} ReversePrefix(h: nat, m: nat, n: nat)
    ensures var b := LowBits(h, m);
            && Reverse(b, m + n) == Shift(Reverse(b, m), n)
            && Reverse(b, m + n) <= Reverse(h, m + n) < Reverse(b, m + n) + Pow2(n)
  {
    var b := LowBits(h, m);
    ShortBits(b, m);
    ReverseSplit(b, m, n);
    ReverseZero(n);
    ReverseSplit(h, m, n);
  }

  /** Split order is local: whatever lies between a bucket and a hash of that bucket
      belongs to the bucket. */
  lemma {:induction false} ReverseLocality(h: nat, x: nat, m: nat, n: nat)
    requires Reverse(LowBits(h, m), m + n) <= Reverse(x, m + n) <= Reverse(h, m + n)
    ensures LowBits(x, m) == LowBits(h, m)
  {
    var b, c := LowBits(h, m), LowBits(x, m);
    ReversePrefix(h, m, n);
    ReversePrefix(x, m, n);
    ShiftStrict(Reverse(b, m), Reverse(c, m), n);
    ShiftStrict(Reverse(c, m), Reverse(b, m), n);
    ReverseInjective(b, c, m);
  }
}
