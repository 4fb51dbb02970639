/** The 64-bit word tricks of LF_HashTable.hpp on machine words, and their meaning on the
    numbers those words denote. */
module Words {
  import opened Bits

  const UPPER_BIT: bv64 := 0x8000000000000000

  // ---------------------------------------------------------------- what a word denotes

  predicate Bit(w: bv64, i: bv64) {
    i < 64 && (w >> i) & 1 == 1
  }

  function BitValue(w: bv64, i: bv64): (b: nat)
    ensures b < 2
  {
    if Bit(w, i) then 1 else 0
  }

  /** The number written by the n bits of w at i, i + 1, ..., least significant first. */
  function Upward(w: bv64, i: bv64, n: nat): (v: nat)
    ensures v < Pow2(n)
    decreases n
  {
    if n == 0 then 0 else BitValue(w, i) + 2 * Upward(w, i + 1, n - 1)
  }

  /** The number written by the n bits of w at i, i - 1, ..., least significant first. */
  function Downward(w: bv64, i: bv64, n: nat): nat
    decreases n
  {
    if n == 0 then 0 else BitValue(w, i) + 2 * Downward(w, i - 1, n - 1)
  }

  /** The unsigned number a word denotes. */
  function Number(w: bv64): (v: nat)
    ensures v < Pow2(64)
  {
    Upward(w, 0, 64)
  }

  /** i, i + 1, ..., j are n positions. */
  predicate Span(i: bv64, j: bv64, n: nat)
    decreases n
  {
    n >= 1 && i <= j < 64 && if n == 1 then i == j else Span(i + 1, j, n - 1)
  }

  lemma {:induction false} SpanInit(i: bv64, j: bv64, n: nat)
    requires Span(i, j, n) && n >= 2
    ensures Span(i, j - 1, n - 1)
    decreases n
  {
    if n > 2 {
      SpanInit(i + 1, j, n - 1);
    }
  }

  /** Positions 0 to 63 are 64 positions, counted eight at a time. */
  lemma WordSpan()
    ensures Span(0, 63, 64)
  {
    assert Span(56, 63, 8);
    assert Span(48, 63, 16);
    assert Span(40, 63, 24);
    assert Span(32, 63, 32);
    assert Span(24, 63, 40);
    assert Span(16, 63, 48);
    assert Span(8, 63, 56);
  }

  lemma {:induction false} DownwardLast(w: bv64, i: bv64, j: bv64, n: nat)
    requires Span(i, j, n)
    ensures Downward(w, j, n) == Downward(w, j, n - 1) + (if Bit(w, i) then Pow2(n - 1) else 0)
    decreases n
  {
    if n >= 2 {
      SpanInit(i, j, n);
      DownwardLast(w, i, j - 1, n - 1);
    }
  }

  lemma {:induction false} UpwardLast(w: bv64, i: bv64, j: bv64, n: nat)
    requires Span(i, j, n)
    ensures Upward(w, i, n) == Upward(w, i, n - 1) + (if Bit(w, j) then Pow2(n - 1) else 0)
    decreases n
  {
    if n >= 2 {
      UpwardLast(w, i + 1, j, n - 1);
    }
  }

  // ---------------------------------------------------------------- bit reversal

  function Reverse32(v0: bv32): bv32 {
    var v1 := ((v0 >> 1) & 0x55555555) | ((v0 & 0x55555555) << 1);
    var v2 := ((v1 >> 2) & 0x33333333) | ((v1 & 0x33333333) << 2);
    var v3 := ((v2 >> 4) & 0x0F0F0F0F) | ((v2 & 0x0F0F0F0F) << 4);
    var v4 := ((v3 >> 8) & 0x00FF00FF) | ((v3 & 0x00FF00FF) << 8);
    (v4 >> 16) | (v4 << 16)
  }

  /** Each 32-bit half is reversed by swapping ever larger groups; then the halves change
      places. */
  function ReverseBitOrder(v: bv64): bv64 {
    var low := (v & 0xFFFFFFFF) as bv32;
    var high := (v >> 32) as bv32;
    ((Reverse32(low) as bv64) << 32) | (Reverse32(high) as bv64)
  }

  lemma ReverseBitOrderTwice(v: bv64)
    ensures ReverseBitOrder(ReverseBitOrder(v)) == v
  {
  }

  lemma ReversedBit(v: bv64, i: bv64)
    requires i < 64
    ensures Bit(ReverseBitOrder(v), i) == Bit(v, 63 - i)
  {
  }

  lemma {:induction false} ReversedUpward(v: bv64, i: bv64, n: nat)
    requires n >= 1 ==> Span(i, 63, n)
    ensures Upward(ReverseBitOrder(v), i, n) == Downward(v, 63 - i, n)
    decreases n
  {
    if n >= 1 {
      ReversedBit(v, i);
      ReversedUpward(v, i + 1, n - 1);
    }
  }

  lemma {:induction false} DownwardReverses(v: bv64, i: bv64, j: bv64, n: nat)
    requires n >= 1 ==> Span(i, j, n)
    ensures Reverse(Upward(v, i, n), n) == Downward(v, j, n)
    decreases n
  {
    if n >= 1 {
      DownwardLast(v, i, j, n);
      DownwardReverses(v, i + 1, j, n - 1);
    }
  }

  /** The word trick computes the mathematical reversal of all 64 bits. */
  lemma ReverseBitOrderIsReversal(v: bv64)
    ensures Number(ReverseBitOrder(v)) == Reverse(Number(v), 64)
  {
    WordSpan();
    ReversedUpward(v, 0, 64);
    DownwardReverses(v, 0, 63, 64);
  }

  // ---------------------------------------------------------------- the upper bit

  function SetUpperBit(v: bv64): bv64 {
    v | UPPER_BIT
  }

  lemma {:induction false} UpwardBelowTop(v: bv64, i: bv64, n: nat)
    requires n >= 1 ==> Span(i, 62, n)
    ensures Upward(SetUpperBit(v), i, n) == Upward(v, i, n)
    decreases n
  {
    if n >= 1 {
      assert i != 63;
      UpwardBelowTop(v, i + 1, n - 1);
    }
  }

  lemma {:induction false} UpwardLow(v: bv64, i: bv64, m: nat, n: nat)
    requires m <= n
    ensures LowBits(Upward(v, i, n), m) == Upward(v, i, m)
    decreases n
  {
    hide LowBits, Pow2, Bit;
    if m == 0 {
      LowBitsNone(Upward(v, i, n));
    } else {
      UpwardLow(v, i + 1, m - 1, n - 1);
      LowBitsStep(BitValue(v, i), Upward(v, i + 1, n - 1), m);
    }
  }

  lemma UpperBitSet(v: bv64)
    ensures Bit(SetUpperBit(v), 63)
  {
  }

  /** Setting the upper bit keeps the 63 low bits and makes bit 63 one. */
  lemma SetUpperBitMeaning(v: bv64)
    ensures Number(SetUpperBit(v)) == LowBits(Number(v), 63) + Pow2(63)
  {
    hide Upward, LowBits, Pow2, SetUpperBit, Bit, Span;
    WordSpan();
    SpanInit(0, 63, 64);
    UpwardBelowTop(v, 0, 63);
    UpwardLast(SetUpperBit(v), 0, 63, 64);
    UpwardLow(v, 0, 63, 64);
    UpperBitSet(v);
  }

  // ---------------------------------------------------------------- the logarithm

  /** The table of the De Bruijn trick, as eight rows of eight. */
  const TAB64: seq<seq<nat>> := [
    [63,  0, 58,  1, 59, 47, 53,  2],
    [60, 39, 48, 27, 54, 33, 42,  3],
    [61, 51, 37, 40, 49, 18, 28, 20],
    [55, 30, 34, 11, 43, 14, 22,  4],
    [62, 57, 46, 52, 38, 26, 32, 41],
    [50, 36, 17, 19, 29, 10, 13, 21],
    [56, 45, 25, 31, 35, 16,  9, 12],
    [44, 24, 15,  8, 23,  7,  6,  5]
  ]

  /** Copies the highest set bit into every lower position. */
  function Smear(v0: bv64): bv64 {
    var v1 := v0 | (v0 >> 1);
    var v2 := v1 | (v1 >> 2);
    var v3 := v2 | (v2 >> 4);
    var v4 := v3 | (v3 >> 8);
    var v5 := v4 | (v4 >> 16);
    v5 | (v5 >> 32)
  }

  /** What is left of a smeared word when its half is taken away. */
  function Isolate(s: bv64): bv64 {
    s - (s >> 1)
  }

  /** The table entry chosen by the six top bits of the De Bruijn product. */
  function Lookup(b: bv64): nat {
    var index := (b * 0x07EDD5E59A4E28C2) >> 58;
    TAB64[(index >> 3) as bv3 as nat][(index & 7) as bv3 as nat]
  }

  function Log2Word(value: bv64): nat {
    Lookup(Isolate(Smear(value)))
  }

  function OneBit(j: bv64): bv64
    requires j < 64
  {
    1 << j
  }

  /** j is the position of the highest set bit of v. */
  predicate TopAt(v: bv64, j: bv64) {
    j < 64 && v >> j == 1
  }

  /** s has the highest set bit of v and every lower bit set. */
  predicate Smeared(s: bv64, v: bv64) {
    s >= v && v > (s >> 1) && s & (s + 1) == 0
  }

  /** f maps the k words m, 2m, 4m, ... to n, n + 1, n + 2, ... */
  predicate Counts(f: bv64 -> nat, m: bv64, n: nat, k: nat)
    decreases k
  {
    k == 0 || (f(m) == n && Counts(f, m << 1, n + 1, k - 1))
  }

  lemma TableFrom48()
    ensures Counts(Lookup, 0x0001000000000000, 48, 16)
  {
    assert Counts(Lookup, 0x0100000000000000, 56, 8);
  }

  lemma TableFrom32()
    ensures Counts(Lookup, 0x0000000100000000, 32, 32)
  {
    TableFrom48();
    assert Counts(Lookup, 0x0000010000000000, 40, 24);
  }

  lemma TableFrom16()
    ensures Counts(Lookup, 0x0000000000010000, 16, 48)
  {
    TableFrom32();
    assert Counts(Lookup, 0x0000000001000000, 24, 40);
  }

  lemma TableIsRight()
    ensures Counts(Lookup, 1, 0, 64)
  {
    TableFrom16();
    assert Counts(Lookup, 0x0000000000000100, 8, 56);
  }

  lemma ShiftOnce(i: bv64)
    requires i < 63
    ensures ((1 as bv64) << i) << 1 == (1 as bv64) << (i + 1)
  {
  }

  lemma {:induction false} CountsAt(f: bv64 -> nat, i: bv64, j: bv64, n: nat, r: nat, k: nat)
    requires Span(i, j, r) && r <= k && Counts(f, 1 << i, n, k)
    ensures f(1 << j) == n + r - 1
    decreases r
  {
    if r >= 2 {
      ShiftOnce(i);
      CountsAt(f, i + 1, j, n + 1, r - 1, k - 1);
    }
  }

  lemma SmearCovers(v: bv64)
    ensures Smear(v) >= v
  {
  }

  lemma SmearTight(v: bv64)
    requires v != 0
    ensures v > (Smear(v) >> 1)
  {
  }

  lemma SmearIsOnes(v: bv64)
    ensures Smear(v) & (Smear(v) + 1) == 0
  {
  }

  lemma SmearSmears(v: bv64)
    requires v != 0
    ensures Smeared(Smear(v), v)
  {
    hide Smear;
    SmearCovers(v);
    SmearTight(v);
    SmearIsOnes(v);
  }

  lemma SmearedTop(s: bv64, v: bv64, j: bv64)
    requires TopAt(v, j) && Smeared(s, v)
    ensures TopAt(s, j)
  {
  }

  lemma IsolateOnes(s: bv64, v: bv64, j: bv64)
    requires TopAt(s, j) && Smeared(s, v)
    ensures Isolate(s) == OneBit(j)
  {
  }

  lemma {:induction false} UpwardAbove(v: bv64, i: bv64, n: nat)
    requires n >= 1 ==> Span(i, 63, n) && v >> i == 0
    ensures Upward(v, i, n) == 0
    decreases n
  {
    if n >= 1 {
      UpwardAbove(v, i + 1, n - 1);
    }
  }

  lemma {:induction false} UpwardTop(v: bv64, i: bv64, j: bv64, r: nat, n: nat)
    requires Span(i, j, r) && Span(i, 63, n) && TopAt(v, j)
    ensures Pow2(r - 1) <= Upward(v, i, n) < Pow2(r)
    decreases n
  {
    if r == 1 {
      UpwardAbove(v, i + 1, n - 1);
    } else {
      UpwardTop(v, i + 1, j, r - 1, n - 1);
    }
  }

  /** The words 1, 2, 4, ... look up 0, 1, 2, ... */
  lemma LookupAt(j: bv64, n: nat)
    requires Span(0, j, n + 1) && n < 64
    ensures j < 64 && Lookup(OneBit(j)) == n
  {
    TableIsRight();
    assert (1 as bv64) << 0 == 1;
    CountsAt(Lookup, 0, j, 0, n + 1, 64);
  }

  lemma HighestAt(v: bv64, j: bv64, n: nat)
    requires n < 64 && Span(0, j, n + 1) && TopAt(v, j)
    ensures Log2(Number(v)) == n
  {
    WordSpan();
    UpwardTop(v, 0, j, n + 1, 64);
    Log2Unique(Number(v), n);
  }

  lemma Log2WordAt(v: bv64, j: bv64, n: nat)
    requires v != 0 && n < 64 && Span(0, j, n + 1) && TopAt(v, j)
    ensures Log2Word(v) == Log2(Number(v))
  {
    hide Smear, Lookup, Isolate, OneBit, Smeared, TopAt;
    SmearSmears(v);
    SmearedTop(Smear(v), v, j);
    IsolateOnes(Smear(v), v, j);
    LookupAt(j, n);
    HighestAt(v, j, n);
  }

  /** v has no set bit above position j. */
  predicate TopBelow(v: bv64, j: bv64) {
    j < 64 && v >> j <= 1
  }

  lemma TopOrBelow(v: bv64, j: bv64)
    requires v != 0 && TopBelow(v, j)
    ensures TopAt(v, j) || (j >= 1 && TopBelow(v, j - 1))
  {
  }

  lemma {:induction false} Log2WordFrom(v: bv64, j: bv64, n: nat)
    requires v != 0 && n < 64 && Span(0, j, n + 1) && TopBelow(v, j)
    ensures Log2Word(v) == Log2(Number(v))
    decreases n
  {
    hide Log2Word, TopAt, TopBelow, Number, Log2;
    TopOrBelow(v, j);
    if TopAt(v, j) {
      Log2WordAt(v, j, n);
    } else {
      SpanInit(0, j, n + 1);
      Log2WordFrom(v, j - 1, n - 1);
    }
  }

  lemma TopBelowLast(v: bv64)
    ensures TopBelow(v, 63)
  {
  }

  /** Smearing and the De Bruijn table compute the floor of the logarithm of every non-zero
      word. */
  lemma Log2WordIsLog2(v: bv64)
    requires v != 0
    ensures Log2Word(v) == Log2(Number(v))
  {
    WordSpan();
    TopBelowLast(v);
    Log2WordFrom(v, 63, 63);
  }

  /** The comment on the function promises zero for zero; the table gives 63. */
  lemma Log2WordOfZero()
    ensures Log2Word(0) == 63
  {
    assert Smear(0) == 0;
    assert Lookup(0) == 63;
  }
}
