/** Where the bucket of a global index lives: the growing table is an array of segments,
    segment 0 holding index 0, segment 1 indexes 1 and 2, and segment s >= 2 the 2^(s-1)
    indexes above 2^(s-1). */
module Segments {
  import opened Bits

  /** The number of buckets of a table whose last segment is s. */
  function GlobalSize(s: nat): nat {
    Pow2(s)
  }

  function GlobalIndex(hash: nat, s: nat): nat {
    hash % GlobalSize(s)
  }

  function SegmentSize(s: nat): nat {
    if s == 0 then 1
    else if s == 1 then 2
    else Pow2(s - 1)
  }

  /** The set-bit count less one is stored in a bool, so it adds at most one. */
  function TableSegment(index: nat): nat {
    if index == 0 then 0
    else if index == 1 then 1
    else
      var above := PopCount(index) - 1 != 0;
      Log2(index) + if above then 1 else 0
  }

  function SlotIndex(index: nat): int {
    var segment := TableSegment(index);
    if segment == 0 then 0
    else if segment == 1 then index - 1
    else index - SegmentSize(segment) - 1
  }

  /** The bucket a bucket was split from: its index without the highest set bit. */
  function ParentIndex(index: nat): nat {
    if index == 1 || index == 0 then 0 else index - Pow2(Log2(index))
  }

  // ---------------------------------------------------------------- indexes and slots

  lemma SegmentRange(index: nat)
    requires index >= 2
    ensures var s := TableSegment(index);
            s >= 1 && Pow2(s - 1) < index <= Pow2(s)
  {
    PopCountOne(index);
  }

  /** The segment formula is the ceiling of the logarithm. */
  lemma SegmentUnique(index: nat, s: nat)
    requires s >= 1 && Pow2(s - 1) < index <= Pow2(s)
    ensures TableSegment(index) == if index == 1 then 1 else s
  {
    if index >= 2 {
      SegmentRange(index);
      var t := TableSegment(index);
      if t < s {
        Pow2Monotone(t, s - 1);
      } else if s < t {
        Pow2Monotone(s, t - 1);
      }
    }
  }

  /** The global index held by a slot of a segment. */
  function IndexAt(segment: nat, slot: nat): nat {
    if segment == 0 then 0
    else if segment == 1 then slot + 1
    else SegmentSize(segment) + slot + 1
  }

  /** Every global index has a slot inside its segment, and that slot holds it. */
  lemma SlotOfIndex(index: nat)
    ensures 0 <= SlotIndex(index) < SegmentSize(TableSegment(index))
    ensures IndexAt(TableSegment(index), SlotIndex(index)) == index
  {
    if index >= 2 {
      SegmentRange(index);
    }
  }

  /** Every slot of a segment is the slot of the index it holds. */
  lemma IndexOfSlot(segment: nat, slot: nat)
    requires slot < SegmentSize(segment)
    ensures TableSegment(IndexAt(segment, slot)) == segment
    ensures SlotIndex(IndexAt(segment, slot)) == slot
    ensures IndexAt(segment, slot) <= GlobalSize(segment)
  {
    if segment >= 1 {
      var index := IndexAt(segment, slot);
      assert segment >= 2 ==> Pow2(segment) == 2 * Pow2(segment - 1);
      if index >= 2 {
        SegmentUnique(index, segment);
      }
    }
  }

  /** Indexes up to 2^s lie in the segments up to s. */
  lemma SegmentBound(index: nat, s: nat)
    ensures index <= GlobalSize(s) && (s == 0 ==> index == 0) ==> TableSegment(index) <= s
    ensures s >= 1 && TableSegment(index) <= s ==> index <= GlobalSize(s)
  {
    if index >= 2 {
      SegmentRange(index);
      var t := TableSegment(index);
      if s < t {
        Pow2Monotone(s, t - 1);
      } else {
        Pow2Monotone(t, s);
      }
    } else {
      Pow2Monotone(0, s);
    }
  }

  function SlotsUpTo(s: nat): nat {
    SegmentSize(s) + if s == 0 then 0 else SlotsUpTo(s - 1)
  }

  /** Segments 0 to s have exactly one slot for each index from 0 to 2^s. */
  lemma {:induction false} SlotCount(s: nat)
    ensures SlotsUpTo(s) == if s == 0 then 1 else GlobalSize(s) + 1
  {
    if s >= 1 {
      SlotCount(s - 1);
    }
  }

  lemma GlobalIndexBound(hash: nat, s: nat)
    ensures GlobalIndex(hash, s) < GlobalSize(s)
    ensures GlobalIndex(hash, s) == LowBits(hash, s)
    ensures TableSegment(GlobalIndex(hash, s)) <= s
  {
    LowBitsMod(hash, s);
    SegmentBound(GlobalIndex(hash, s), s);
  }

  // ---------------------------------------------------------------- parents

  lemma ParentBound(index: nat)
    requires index >= 1
    ensures ParentIndex(index) < Pow2(Log2(index)) <= index
    ensures index == ParentIndex(index) + Pow2(Log2(index))
  {
    assert index == 1 ==> Log2(index) == 0;
  }

  lemma {:induction false} LowBitsBelow(low: nat, m: nat)
    requires low < Pow2(m)
    ensures LowBits(low + Pow2(m), m) == low
  {
    ShiftPow2(0, m);
    ConcatBits(low, 1, m);
  }

  /** The parent keeps the bits below the highest. */
  lemma ParentLowBits(index: nat)
    requires index >= 1
    ensures ParentIndex(index) == LowBits(index, Log2(index))
  {
    ParentBound(index);
    LowBitsBelow(ParentIndex(index), Log2(index));
  }

  lemma {:induction false} PopCountAdd(low: nat, m: nat)
    requires low < Pow2(m)
    ensures PopCount(low + Pow2(m)) == PopCount(low) + 1
  {
    if m > 0 {
      PopCountAdd(low / 2, m - 1);
      assert (low + Pow2(m)) / 2 == low / 2 + Pow2(m - 1) && (low + Pow2(m)) % 2 == low % 2;
    }
  }

  /** The bucket reached from index by k steps to the parent. */
  function Ancestor(index: nat, k: nat): nat {
    if k == 0 then index else Ancestor(ParentIndex(index), k - 1)
  }

  /** The climb reaches bucket 0 after one step for each set bit, and not before. */
  lemma {:induction false} ClimbLength(index: nat, k: nat)
    ensures Ancestor(index, k) == 0 <==> k >= PopCount(index)
    decreases k
  {
    if index >= 1 {
      ParentBound(index);
      PopCountAdd(ParentIndex(index), Log2(index));
      if k >= 1 {
        ClimbLength(ParentIndex(index), k - 1);
      }
    } else if k >= 1 {
      ClimbLength(0, k - 1);
    }
  }

  lemma {:induction false} PopCountBound(index: nat, s: nat)
    requires index < Pow2(s)
    ensures PopCount(index) <= s
  {
    if index > 0 {
      PopCountBound(index / 2, s - 1);
    }
  }

  /** From any bucket of a table with last segment s, bucket 0 is at most s steps away. */
  lemma ClimbBound(hash: nat, s: nat)
    ensures Ancestor(GlobalIndex(hash, s), s) == 0
  {
    GlobalIndexBound(hash, s);
    PopCountBound(GlobalIndex(hash, s), s);
    ClimbLength(GlobalIndex(hash, s), s);
  }
}
