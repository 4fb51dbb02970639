/** The growing array of segments with its bucket pointers, and the load factor
    (LF_HashTable.hpp). A bucket is modelled as the node its bucket_head_ holds. */
module TableBuckets {
  import opened Bits
  import opened Segments
  import opened OrderedList

  datatype Segment = NoSegment | Segment(buckets: seq<Node?>)

  function Bucket(index: map<nat, Node>, b: nat): Node? {
    if b in index then index[b] else null
  }

  /** An allocated segment has one slot for each of its global indexes, holding the dummy of
      that bucket if it is initialised. */
  ghost predicate SegmentOk(seg: Segment, s: nat, level: nat, index: map<nat, Node>) {
    if s <= level
    then && seg.Segment? && |seg.buckets| == SegmentSize(s)
         && forall k :: 0 <= k < |seg.buckets| ==> seg.buckets[k] == Bucket(index, IndexAt(s, k))
    else seg.NoSegment?
  }

  /** Exactly the segments up to level are allocated. */
  ghost predicate SegmentsOk(segs: seq<Segment>, level: nat, index: map<nat, Node>) {
    && |segs| == 64 && level <= 30
    && (forall b :: b in index ==> b < GlobalSize(level))
    && forall s :: 0 <= s < 64 ==> SegmentOk(segs[s], s, level, index)
  }

  predicate NoSegments(segs: seq<Segment>) {
    |segs| == 64 && forall s :: 0 <= s < 64 ==> segs[s].NoSegment?
  }

  lemma SegmentsStart(segs: seq<Segment>, node: Node)
    requires NoSegments(segs)
    ensures SegmentsOk(segs[0 := Segment([node])], 0, map[0 := node])
  {
  }

  /** Every bucket below the table size lies in an allocated segment and inside its bounds. */
  lemma BucketAt(segs: seq<Segment>, level: nat, index: map<nat, Node>, b: nat)
    requires SegmentsOk(segs, level, index) && b < GlobalSize(level)
    ensures TableSegment(b) <= level && segs[TableSegment(b)].Segment?
    ensures 0 <= SlotIndex(b) < |segs[TableSegment(b)].buckets|
    ensures segs[TableSegment(b)].buckets[SlotIndex(b)] == Bucket(index, b)
  {
    hide Pow2, TableSegment, SlotIndex, IndexAt, SegmentSize;
    BucketSegment(b, level);
    SlotOfIndex(b);
    assert SegmentOk(segs[TableSegment(b)], TableSegment(b), level, index);
  }

  lemma SmallestBucket(segs: seq<Segment>, index: map<nat, Node>)
    requires SegmentsOk(segs, 0, index) && 0 in index
    ensures segs != [] && segs[0].Segment? && segs[0].buckets != [] && segs[0].buckets[0] == index[0]
  {
    BucketAt(segs, 0, index, 0);
  }

  lemma BucketSegment(b: nat, level: nat)
    requires b < GlobalSize(level)
    ensures TableSegment(b) <= level
  {
    hide TableSegment;
    SegmentBound(b, level);
  }

  /** The segments after node is stored in the slot of bucket b. */
  function Stored(segs: seq<Segment>, b: nat, node: Node?): seq<Segment>
    requires TableSegment(b) < |segs| && segs[TableSegment(b)].Segment?
    requires 0 <= SlotIndex(b) < |segs[TableSegment(b)].buckets|
  {
    var s := TableSegment(b);
    segs[s := Segment(segs[s].buckets[SlotIndex(b) := node])]
  }

  /** No other bucket shares the slot. */
  lemma StoreOk(segs: seq<Segment>, level: nat, index: map<nat, Node>, b: nat, node: Node)
    requires SegmentsOk(segs, level, index) && b < GlobalSize(level)
    ensures TableSegment(b) < |segs| && segs[TableSegment(b)].Segment?
    ensures 0 <= SlotIndex(b) < |segs[TableSegment(b)].buckets|
    ensures SegmentsOk(Stored(segs, b, node), level, index[b := node])
  {
    BucketAt(segs, level, index, b);
    hide Pow2, TableSegment, SlotIndex, IndexAt, SegmentSize;
    var now, index' := Stored(segs, b, node), index[b := node];
    SlotOfIndex(b);
    forall s | 0 <= s < 64
      ensures SegmentOk(now[s], s, level, index')
    {
      assert SegmentOk(segs[s], s, level, index);
      if s <= level {
        forall k | 0 <= k < |now[s].buckets|
          ensures now[s].buckets[k] == Bucket(index', IndexAt(s, k))
        {
          IndexOfSlot(s, k);
        }
      }
    }
  }

  function Inflated(segs: seq<Segment>, s: nat): seq<Segment>
    requires s < |segs|
  {
    segs[s := Segment(seq(SegmentSize(s), _ => null))]
  }

  /** A new segment holds no initialised bucket, and no bucket moves. */
  lemma InflateOk(segs: seq<Segment>, level: nat, index: map<nat, Node>)
    requires SegmentsOk(segs, level, index) && level < 30
    ensures SegmentsOk(Inflated(segs, level + 1), level + 1, index)
  {
    hide TableSegment, SlotIndex, IndexAt, SegmentSize;
    var now := Inflated(segs, level + 1);
    assert GlobalSize(level) <= GlobalSize(level + 1);
    hide Pow2;
    forall s | 0 <= s < 64
      ensures SegmentOk(now[s], s, level + 1, index)
    {
      assert SegmentOk(segs[s], s, level, index);
      if s == level + 1 {
        forall k | 0 <= k < |now[s].buckets|
          ensures IndexAt(s, k) !in index
        {
          IndexOfSlot(s, k);
          if IndexAt(s, k) in index {
            BucketSegment(IndexAt(s, k), level);
          }
        }
      }
    }
  }

  /** Initialised buckets stay initialised, with the same dummies. */
  ghost predicate Grown(was: map<nat, Node>, now: map<nat, Node>) {
    forall b :: b in was ==> b in now && now[b] == was[b]
  }

  lemma GrownStep(was: map<nat, Node>, now: map<nat, Node>, b: nat, n: Node)
    requires Grown(was, now) && (b in now ==> now[b] == n)
    ensures Grown(was, now[b := n])
  {
  }

  lemma GrownSame(index: map<nat, Node>)
    ensures Grown(index, index)
  {
  }

  /** A climb from bucket to parent bucket that stops at the first initialised one. */
  ghost predicate Climbed(vec: seq<nat>, index: map<nat, Node>) {
    && |vec| >= 1
    && forall j :: 0 <= j < |vec| - 1 ==> vec[j] !in index && vec[j + 1] == ParentIndex(vec[j])
  }

  lemma {:induction false} ClimbIsAncestor(vec: seq<nat>, index: map<nat, Node>, j: nat)
    requires Climbed(vec, index) && j < |vec|
    ensures vec[j] == Ancestor(vec[0], j)
  {
    if j > 0 {
      ClimbIsAncestor(vec[1..], index, j - 1);
    }
  }

  lemma ClimbAlone(vec: seq<nat>, index: map<nat, Node>)
    requires Climbed(vec, index)
    ensures |vec| >= 1 && (vec[0] in index ==> |vec| == 1)
  {
  }

  /** The bucket b and its parents, n steps up. */
  ghost function Ancestors(b: nat, n: nat): set<nat> {
    set j | 0 <= j <= n :: Ancestor(b, j)
  }

  ghost predicate Closed(buckets: set<nat>) {
    0 in buckets && forall b :: b in buckets && b >= 1 ==> ParentIndex(b) in buckets
  }

  lemma RootAncestors(buckets: set<nat>)
    requires Closed(buckets)
    ensures buckets == buckets + Ancestors(0, 0)
  {
    assert Ancestor(0, 0) == 0;
  }

  lemma {:induction false} ClosedUp(buckets: set<nat>, b: nat, j: nat)
    requires Closed(buckets) && b in buckets
    ensures Ancestor(b, j) in buckets
  {
    if j > 0 {
      assert b == 0 ==> ParentIndex(b) == 0;
      ClosedUp(buckets, ParentIndex(b), j - 1);
    }
  }

  ghost function Members(vec: seq<nat>): set<nat> {
    set b | b in vec
  }

  lemma MembersNext(vec: seq<nat>, i: nat)
    requires i < |vec|
    ensures Members(vec[i..]) == {vec[i]} + Members(vec[i + 1..])
    ensures Members(vec[|vec|..]) == {}
  {
    assert vec[i..] == [vec[i]] + vec[i + 1..];
  }

  function LastOf(vec: seq<nat>, i: nat): nat
    requires i <= |vec| && vec != []
  {
    vec[if i == |vec| then i - 1 else i]
  }

  /** On the way back down a climb: everything from position i on is initialised. */
  ghost predicate OnPath(vec: seq<nat>, was: map<nat, Node>, now: map<nat, Node>, i: nat, bucket: Node) {
    && Climbed(vec, was) && i <= |vec| && vec[|vec| - 1] in was && Grown(was, now)
    && now.Keys == was.Keys + Members(vec[i..])
    && LastOf(vec, i) in now && bucket == now[LastOf(vec, i)]
    && (i == |vec| || |vec| == 1 ==> now == was)
  }

  lemma PathStart(vec: seq<nat>, index: map<nat, Node>, top: Node)
    requires Climbed(vec, index) && vec[|vec| - 1] in index && top == index[vec[|vec| - 1]]
    ensures OnPath(vec, index, index, |vec|, top)
  {
    hide Climbed;
    ClimbAlone(vec, index);
    MembersNext(vec, |vec| - 1);
  }

  lemma PathHere(vec: seq<nat>, was: map<nat, Node>, now: map<nat, Node>, i: nat, bucket: Node)
    requires OnPath(vec, was, now, i + 1, bucket) && 0 in now
    ensures vec[i] !in now ==> vec[i] >= 1 && ParentIndex(vec[i]) in now && bucket == now[ParentIndex(vec[i])]
  {
    hide ParentIndex, Members;
  }

  lemma PathStep(vec: seq<nat>, was: map<nat, Node>, known: map<nat, Node>, now: map<nat, Node>, i: nat,
                 before: Node, bucket: Node)
    requires i < |vec| && OnPath(vec, was, known, i + 1, before)
    requires now == known[vec[i] := bucket] && (vec[i] in known ==> now == known)
    ensures OnPath(vec, was, now, i, bucket)
  {
    hide Climbed, Members;
    MembersNext(vec, i);
    GrownStep(was, known, vec[i], bucket);
  }

  lemma PathEnd(vec: seq<nat>, was: map<nat, Node>, now: map<nat, Node>, bucket: Node)
    requires OnPath(vec, was, now, 0, bucket)
    ensures vec != [] && vec[0] in now && bucket == now[vec[0]] && Grown(was, now)
    ensures now.Keys == was.Keys + Members(vec) && (|vec| == 1 ==> now == was)
  {
    hide Members;
    ClimbAlone(vec, was);
    assert vec[0..] == vec;
  }

  /** With the climb, every ancestor is initialised; the rest of them was. */
  lemma ClimbIsAncestors(vec: seq<nat>, index: map<nat, Node>, n: nat)
    requires Climbed(vec, index) && vec[|vec| - 1] in index && Closed(index.Keys) && |vec| - 1 <= n
    ensures index.Keys + Members(vec) == index.Keys + Ancestors(vec[0], n)
  {
    var b := vec[0];
    forall j | 0 <= j <= n
      ensures Ancestor(b, j) in index.Keys + Members(vec)
    {
      if j < |vec| {
        ClimbIsAncestor(vec, index, j);
      } else {
        ClimbIsAncestor(vec, index, |vec| - 1);
        AncestorSum(b, |vec| - 1, j - (|vec| - 1));
        ClosedUp(index.Keys, vec[|vec| - 1], j - (|vec| - 1));
      }
    }
    forall x | x in Members(vec)
      ensures x in Ancestors(b, n)
    {
      var j :| 0 <= j < |vec| && vec[j] == x;
      ClimbIsAncestor(vec, index, j);
    }
  }

  lemma {:induction false} AncestorFits(b: nat, j: nat)
    ensures Ancestor(b, j) <= b
  {
    if j > 0 {
      if b >= 1 {
        ParentBound(b);
      }
      AncestorFits(ParentIndex(b), j - 1);
    }
  }

  lemma AncestorsFit(b: nat, n: nat)
    ensures forall x :: x in Ancestors(b, n) ==> x <= b
  {
    forall j | 0 <= j <= n
      ensures Ancestor(b, j) <= b
    {
      AncestorFits(b, j);
    }
  }

  lemma {:induction false} AncestorSum(b: nat, i: nat, j: nat)
    ensures Ancestor(b, i + j) == Ancestor(Ancestor(b, i), j)
  {
    if i > 0 {
      AncestorSum(ParentIndex(b), i - 1, j);
    }
  }

  /** In a table with last segment s the climb takes at most s steps. */
  lemma ClimbSteps(vec: seq<nat>, index: map<nat, Node>, hash: nat, s: nat)
    requires Climbed(vec, index) && vec[0] == GlobalIndex(hash, s) && 0 in index
    ensures |vec| - 1 <= s
  {
    ClimbBound(hash, s);
    if |vec| - 1 > s {
      ClimbIsAncestor(vec, index, s);
      assert false;
    }
  }

  /** One step more stays inside the table. */
  lemma ClimbNext(vec: seq<nat>, index: map<nat, Node>, level: nat)
    requires Climbed(vec, index) && 0 in index
    requires forall j :: 0 <= j < |vec| ==> vec[j] < GlobalSize(level)
    requires vec[|vec| - 1] !in index
    ensures var b := ParentIndex(vec[|vec| - 1]);
            && b < vec[|vec| - 1] && Climbed(vec + [b], index)
            && forall j :: 0 <= j < |vec| + 1 ==> (vec + [b])[j] < GlobalSize(level)
  {
    hide Pow2, ParentIndex;
    ParentBound(vec[|vec| - 1]);
  }

  lemma SmallIndex(segs: seq<Segment>, level: nat, index: map<nat, Node>, b: nat)
    requires SegmentsOk(segs, level, index) && b < GlobalSize(level)
    ensures b < Pow2(63) && level <= 30
  {
    Pow2Monotone(level, 63);
  }

  lemma LevelBound(segs: seq<Segment>, level: nat, index: map<nat, Node>)
    requires SegmentsOk(segs, level, index)
    ensures level <= 30
  {
  }

  // ---------------------------------------------------------------- the load factor

  predicate Overloaded(counter: int, level: nat, loadFactor: nat)
    requires counter >= 0
  {
    counter / GlobalSize(level) > loadFactor
  }

  /** At most loadFactor + 1 keys for each bucket. */
  predicate Loaded(keys: nat, level: nat, loadFactor: nat) {
    keys <= (loadFactor + 1) * GlobalSize(level)
  }

  lemma LoadedLess(keys: nat, fewer: nat, level: nat, loadFactor: nat)
    requires Loaded(keys, level, loadFactor) && fewer <= keys
    ensures Loaded(fewer, level, loadFactor)
  {
  }

  lemma QuotientAbove(c: nat, g: nat, l: nat)
    requires g > 0
    ensures c / g > l <==> c >= (l + 1) * g
  {
    var q, r := c / g, c % g;
    assert c == q * g + r;
    if q > l {
      assert q * g >= (l + 1) * g by { MulMono(l + 1, q, g); }
    } else {
      assert q * g <= l * g by { MulMono(q, l, g); }
      assert (l + 1) * g == l * g + g;
    }
  }

  /** The table grows exactly when keys and buckets are loadFactor + 1 for each bucket. */
  lemma OverloadedMeans(counter: nat, level: nat, loadFactor: nat)
    ensures Overloaded(counter, level, loadFactor) <==> counter >= (loadFactor + 1) * Pow2(level)
  {
    QuotientAbove(counter, GlobalSize(level), loadFactor);
  }

  lemma MulMono(a: nat, b: nat, g: nat)
    requires a <= b
    ensures a * g <= b * g
  {
  }

  /** Growing first keeps the bound with one key more. */
  lemma LoadKept(keys: nat, buckets: nat, level: nat, loadFactor: nat)
    requires Loaded(keys, level, loadFactor) && buckets >= 1
    ensures Loaded(keys + 1, if Overloaded(keys + buckets, level, loadFactor) then level + 1 else level, loadFactor)
    ensures Loaded(keys, level + 1, loadFactor)
  {
    var g := GlobalSize(level);
    assert GlobalSize(level + 1) == 2 * g && g >= 1;
    hide Pow2;
    QuotientAbove(keys + buckets, g, loadFactor);
    var m := (loadFactor + 1) * g;
    assert (loadFactor + 1) * (2 * g) == 2 * m;
    assert m >= 1 by { MulMono(1, loadFactor + 1, g); }
  }

  lemma {:induction false} IndexesBound(keys: set<nat>, n: nat)
    requires forall b :: b in keys ==> b < n
    ensures |keys| <= n
  {
    if n == 0 {
      assert keys == {};
    } else {
      IndexesBound(keys - {n - 1}, n - 1);
    }
  }

  predicate Sized(size: int, level: nat, loadFactor: nat) {
    size <= (loadFactor + 2) * GlobalSize(level)
  }

  /** The size counts the keys and the initialised buckets, so it is at most
      loadFactor + 2 for each bucket. */
  lemma SizeBound(segs: seq<Segment>, level: nat, index: map<nat, Node>, keys: nat, loadFactor: nat)
    requires SegmentsOk(segs, level, index) && Loaded(keys, level, loadFactor)
    ensures Sized(keys + |index|, level, loadFactor)
  {
    IndexesBound(index.Keys, GlobalSize(level));
    assert (loadFactor + 2) * GlobalSize(level) == (loadFactor + 1) * GlobalSize(level) + GlobalSize(level);
  }

  /** The size of the largest table whose size fits an int. */
  const MAX_BUCKETS: nat := 0x4000_0000

  lemma MaxBuckets()
    ensures MAX_BUCKETS == GlobalSize(30)
  {
    assert Pow2(10) == 1024;
    assert Pow2(20) == 1024 * 1024;
    assert Pow2(30) == 1024 * 1024 * 1024;
  }

  /** When segment 31 would be needed there are at least loadFactor keys for each bucket of the
      largest table, and with the initialised buckets one more. */
  lemma FullSize(segs: seq<Segment>, level: nat, index: map<nat, Node>, keys: nat, loadFactor: nat)
    requires SegmentsOk(segs, level, index) && level >= 30 && Overloaded(keys + |index|, level, loadFactor)
    ensures keys >= loadFactor * MAX_BUCKETS && keys + |index| >= (loadFactor + 1) * MAX_BUCKETS
  {
    hide Pow2;
    MaxBuckets();
    var g := GlobalSize(30);
    IndexesBound(index.Keys, g);
    QuotientAbove(keys + |index|, g, loadFactor);
    assert (loadFactor + 1) * g == loadFactor * g + g;
  }
}
