/** The order of the nodes in the one list behind the hash table: by bit-reversed hash,
    dummies even and regular nodes odd. */
module SplitOrder {
  import opened Bits
  import opened Segments
  import Words

  /** What a list node of the table carries; the shipped table maps size_t to size_t. */
  datatype HashNode = HashNode(isDummy: bool, key: nat, value: nat, hash: nat, rhash: nat)

  /** The default node, used for the list's two ghosts. */
  const GHOST: HashNode := HashNode(true, 0, 0, 0, 0)

  /** set_upper_bit on the number a word denotes. */
  function UpperBit(hash: nat): nat {
    LowBits(hash, 63) + Pow2(63)
  }

  function Rank(hash: nat): nat {
    Reverse(hash, 64)
  }

  function MakeNode(isDummy: bool, key: nat, value: nat, hash: nat): HashNode {
    HashNode(isDummy, key, value, hash, Rank(if isDummy then hash else UpperBit(hash)))
  }

  /** Bit 63 marks regular nodes, so keys that differ only there share one identity. */
  function Canon(key: nat): (c: nat)
    ensures c < Pow2(63)
  {
    LowBits(key, 63)
  }

  /** The numbers used here are the ones the word operations compute. */
  lemma WordsAgree(v: bv64)
    ensures Words.Number(Words.ReverseBitOrder(v)) == Rank(Words.Number(v))
    ensures Words.Number(Words.SetUpperBit(v)) == UpperBit(Words.Number(v))
  {
    hide Words.Number, Words.ReverseBitOrder, Words.SetUpperBit, Pow2, Reverse, LowBits;
    Words.ReverseBitOrderIsReversal(v);
    Words.SetUpperBitMeaning(v);
  }

  // ---------------------------------------------------------------- even and odd

  lemma TopBitLast(low: nat, n: nat)
    requires low < Pow2(n)
    ensures Reverse(low, n + 1) == 2 * Reverse(low, n)
    ensures Reverse(low + Pow2(n), n + 1) == 2 * Reverse(low, n) + 1
  {
    ShiftPow2(0, n);
    ShiftZero(n);
    ReverseTop(low, 0, n);
    ReverseTop(low, 1, n);
  }

  /** A regular node follows, by one, the place a dummy of the same bits would have. */
  lemma RegularRank(hash: nat)
    ensures Rank(UpperBit(hash)) == Rank(Canon(hash)) + 1
    ensures Rank(Canon(hash)) % 2 == 0
  {
    hide Pow2, Reverse, LowBits;
    TopBitLast(Canon(hash), 63);
  }

  lemma {:induction false} TopBitOrNot(v: nat, n: nat)
    requires v < Pow2(n + 1)
    ensures v == LowBits(v, n) || v == LowBits(v, n) + Pow2(n)
    ensures v < Pow2(n) ==> LowBits(v, n) == v
  {
    if n > 0 {
      TopBitOrNot(v / 2, n - 1);
    }
  }

  /** Insertion searches with the plain hash, whose rank is that of the dummy or that of the
      regular node. */
  lemma PlainRank(hash: nat)
    requires hash < Pow2(64)
    ensures Rank(hash) == Rank(Canon(hash)) || Rank(hash) == Rank(UpperBit(hash))
  {
    hide Pow2, Reverse, LowBits;
    TopBitOrNot(hash, 63);
  }

  lemma {:induction false} LowBitsTwice(v: nat, m: nat, n: nat)
    requires m <= n
    ensures LowBits(LowBits(v, n), m) == LowBits(v, m)
  {
    hide LowBits, Pow2;
    if m == 0 {
      LowBitsNone(v);
      LowBitsNone(LowBits(v, n));
    } else {
      LowBitsTwice(v / 2, m - 1, n - 1);
      LowBitsUnfold(v, n);
      LowBitsUnfold(v, m);
      LowBitsStep(v % 2, LowBits(v / 2, n - 1), m);
    }
  }

  lemma Pow2Half(n: nat)
    requires n > 0
    ensures Pow2(n) == 2 * Pow2(n - 1)
  {
  }

  lemma {:induction false} LowBitsBelowTop(v: nat, m: nat, n: nat)
    requires m <= n
    ensures LowBits(v + Pow2(n), m) == LowBits(v, m)
  {
    hide LowBits, Pow2;
    if m == 0 {
      LowBitsNone(v);
      LowBitsNone(v + Pow2(n));
    } else {
      LowBitsBelowTop(v / 2, m - 1, n - 1);
      LowBitsUnfold(v, m);
      LowBitsStep(v % 2, v / 2 + Pow2(n - 1), m);
      Pow2Half(n);
      var a, w, p := v % 2, v / 2, Pow2(n - 1);
      assert v == a + 2 * w && Pow2(n) == 2 * p;
      assert v + Pow2(n) == a + 2 * (w + p);
    }
  }

  /** Regular nodes have the same rank exactly when their keys share their 63 low bits. */
  lemma RegularRankUnique(g: nat, h: nat)
    ensures Rank(UpperBit(g)) == Rank(UpperBit(h)) <==> Canon(g) == Canon(h)
  {
    hide Pow2, Reverse, LowBits;
    TopBitLast(Canon(g), 63);
    TopBitLast(Canon(h), 63);
    if Rank(UpperBit(g)) == Rank(UpperBit(h)) {
      ReverseInjective(Canon(g), Canon(h), 63);
    }
  }

  lemma DummyRankUnique(b: nat, c: nat)
    requires b < Pow2(63) && c < Pow2(63)
    ensures Rank(b) % 2 == 0
    ensures Rank(b) == Rank(c) <==> b == c
  {
    hide Pow2, Reverse, LowBits;
    TopBitLast(b, 63);
    TopBitLast(c, 63);
    if Rank(b) == Rank(c) {
      ReverseInjective(b, c, 63);
    }
  }

  // ---------------------------------------------------------------- buckets

  /** The dummy of a bucket precedes every node of the bucket. */
  lemma BucketFirst(hash: nat, s: nat)
    requires s <= 63
    ensures Rank(LowBits(hash, s)) <= Rank(Canon(hash)) < Rank(UpperBit(hash))
  {
    hide Pow2, Reverse, LowBits;
    RegularRank(hash);
    LowBitsTwice(hash, s, 63);
    ReversePrefix(Canon(hash), s, 64 - s);
  }

  /** A bucket comes after the bucket it was split from. */
  lemma ParentFirst(index: nat)
    requires 1 <= index < Pow2(63)
    ensures ParentIndex(index) < index
    ensures Rank(ParentIndex(index)) < Rank(index)
  {
    hide Pow2, Reverse, LowBits;
    ParentBound(index);
    ParentLowBits(index);
    Log2Below(index, 63);
    ShortBits(index, 63);
    BucketFirst(index, Log2(index));
    DummyRankUnique(ParentIndex(index), index);
  }

  lemma UpperBitLow(hash: nat, s: nat)
    requires s <= 63
    ensures LowBits(UpperBit(hash), s) == LowBits(hash, s)
  {
    hide Pow2, LowBits;
    LowBitsTwice(hash, s, 63);
    LowBitsBelowTop(Canon(hash), s, 63);
  }

  /** Every node between the dummy of a bucket and a hash of that bucket is in the bucket;
      x is the hash of a dummy or of a regular node. */
  lemma BucketLocality(hash: nat, x: nat, s: nat, regular: bool)
    requires s <= 63 && x < Pow2(64)
    requires Rank(LowBits(hash, s)) <= Rank(if regular then UpperBit(x) else x) <= Rank(UpperBit(hash))
    ensures LowBits(x, s) == LowBits(hash, s)
  {
    hide Pow2, Reverse, LowBits;
    var y := if regular then UpperBit(x) else x;
    UpperBitLow(hash, s);
    UpperBitLow(x, s);
    ReverseLocality(UpperBit(hash), y, s, 64 - s);
  }
}
