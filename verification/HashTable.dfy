/** The split-ordered hash table (LF_HashTable.hpp), one operation at a time: the methods
    follow the source and are proved against the map of canonical keys to values. */
module HashTables {
  import opened Common
  import opened Bits
  import opened Segments
  import opened SplitOrder
  import opened LiveNodes
  import opened OrderedList
  import opened TableState
  import opened TableBuckets

  ghost predicate Unremoved(chain: seq<Node>, dead: set<Node>)
    reads chain`isRemoved
  {
    forall n :: n in chain && n !in dead ==> !n.isRemoved
  }

  lemma IndexClosed(t: Table)
    requires TableOk(t)
    ensures Closed(t.index.Keys)
  {
    hide Ordered, NodesOk, Covered, Placed;
  }

  class HashTable {
    const list: OrderList
    const loadFactor: nat
    const segArr: array<Segment>
    var currentSegment: nat

    /** The dummies of the initialised buckets, the live regular node of each canonical key,
        and every node the table ever linked. */
    ghost var index: map<nat, Node>
    ghost var nodes: map<nat, Node>
    ghost var repr: set<Node>

    ghost function View(): Table
      reads this, list
    {
      Table(list.chain, list.dead, index, nodes)
    }

    ghost predicate Sound()
      reads this, list, list.chain, list.alloc
    {
      && list.Valid() && TableOk(View())
      && Within(list.chain, repr) && Unremoved(list.chain, list.dead)
    }

    ghost predicate Valid()
      reads this, segArr, list, list.chain, list.alloc
    {
      && Sound()
      && segArr.Length == 64 && SegmentsOk(segArr[..], currentSegment, index)
      && list.counter == |index| + |nodes|
      && Loaded(|nodes|, currentSegment, loadFactor)
    }

    /** The next insert needs segment 31, whose table size no longer fits the int it is computed
        in. */
    predicate Full()
      reads this, list
    {
      currentSegment >= 30 && list.counter >= 0 && Overloaded(list.counter, currentSegment, loadFactor)
    }

    /** The regular nodes in their order. */
    ghost function Order(): seq<Node>
      reads list
    {
      Regulars(Live(list.chain, list.dead))
    }

    lemma InvDistinct()
      requires list.Inv()
      ensures Distinct(list.chain)
    {
    }

    lemma UnremovedAt(n: Node)
      requires n in list.chain && n !in list.dead && Unremoved(list.chain, list.dead)
      ensures !n.isRemoved
    {
    }

    lemma ListFacts()
      requires list.Valid()
      ensures Distinct(list.chain) && |list.chain| >= 2
      ensures list.chain[0] == list.head && list.head !in list.dead && list.chain[1].key == 0
    {
    }

    constructor (loadFactor: nat := 2)
      ensures Valid() && fresh(this) && fresh(list) && fresh(list.alloc) && fresh(segArr) && fresh(repr)
      ensures this.loadFactor == loadFactor && currentSegment == 0
      ensures nodes == map[] && |index| == 1
    {
      hide *;
      list := new OrderList();
      this.loadFactor := loadFactor;
      segArr := new Segment[64](_ => NoSegment);
      currentSegment := 0;
      index, nodes, repr := map[], map[], {};
      new;
      repr := {list.chain[0], list.chain[1]};
      BlankListStart();
      BlankStart();
      var node := Allocate();
    }

    lemma BlankStart()
      requires BlankList() && currentSegment == 0
      requires segArr.Length == 64 && forall s :: 0 <= s < 64 ==> segArr[s] == NoSegment
      ensures Blank()
    {
      hide BlankList;
    }

    ghost predicate BlankList()
      reads this, list, list.chain, list.alloc
    {
      && list.Valid() && |list.chain| == 2 && list.dead == {} && list.counter == 0
      && Unremoved(list.chain, {}) && Within(list.chain, repr)
    }

    ghost predicate Blank()
      reads this, segArr, list, list.chain, list.alloc
    {
      BlankList() && currentSegment == 0 && NoSegments(segArr[..])
    }

    /** The dummy of bucket 0. */
    method FirstDummy() returns (node: Node)
      requires list.Valid() && |list.chain| == 2 && list.dead == {} && list.counter == 0
      modifies list, list.chain`next, list.chain`tag, list.alloc
      ensures list.Valid() && list.chain == old(list.chain) + [node] && list.dead == {} && list.counter == 1
      ensures fresh(node) && node.key == 0 && node.data == MakeNode(true, 0, 0, 0)
      ensures old(Unremoved(list.chain, list.dead)) ==> Unremoved(list.chain, list.dead)
      ensures list.deleted == old(list.deleted)
    {
      hide TableOk, OrderList.Valid, MakeNode, Trimmed, Passed, With, Stops;
      var comp := new Comparator(ByKey(0));
      ghost var was, mid, p := list.chain, [], 0;
      ListFacts();
      MakeNodeKey(true, 0, 0);
      node, mid, p := list.Insert(MakeNode(true, 0, 0, 0), list.head, false, comp, 0);
      StartPlace(was, mid, p);
      WithLast(was, node);
    }

    /** allocate: bucket 0 and its dummy, in an empty list. */
    method Allocate() returns (node: Node)
      requires Blank()
      modifies this, segArr, list, repr`next, repr`tag, list.alloc
      ensures Valid() && currentSegment == 0 && nodes == map[] && |index| == 1
      ensures fresh(node) && repr == old(repr) + {node} && list.deleted == old(list.deleted)
    {
      hide TableOk, OrderList.Valid, MakeNode, With, SegmentsOk, Rank, Live, Unremoved;
      ghost var was := list.chain;
      node := FirstDummy();
      hide Within;
      StartOk(was, node);
      WithinNew(was, node, repr);
      assert list.chain == was + [node];
      ghost var segs := segArr[..];
      SegmentsStart(segs, node);
      segArr[0] := Segment([node]);
      assert segArr[..] == segs[0 := Segment([node])];
      index, nodes, repr := map[0 := node], map[], repr + {node};
    }

    // -------------------------------------------------------------- lookups

    /** list_.find from the dummy of bucket b: its answer is that of a search from bucket 0. */
    method Look(bucket: Node, comp: Comparator, key: nat, ghost b: nat, ghost s: nat)
      returns (found: bool, ghost n: nat, ghost prev: Node, ghost curr: Node?)
      requires Sound() && b == LowBits(key, s) && s <= 63
      requires b in index && bucket == index[b] && comp.order == ToFind(Rank(UpperBit(key)))
      modifies list`chain, repr`next, repr`tag, list.alloc, comp
      ensures Sound()
      ensures Scanned(old(View()), key, n, prev, curr) && found == (curr != null)
      ensures curr != null ==> comp.isDummy == FlagAfter(comp.order, curr, false)
      ensures found && !comp.isDummy <==> Canon(key) in nodes
      ensures Order() == old(Order())
    {
      hide TableOk, OrderList.Valid, LowBits, Rank, UpperBit, Canon, Trimmed, Passed, Hit, Regulars, Live, Stops,
           FlagAfter, Scanned;
      ghost var k := Position(View(), b);
      ListFacts();
      ghost var t := View();
      ghost var p;
      found, p := list.Find(bucket, comp, k);
      LookOk(t, list.chain, repr, b, k, p, key, s, comp.isDummy);
      prev, curr := list.chain[p], if found then list.chain[p + 1] else null;
      if found {
        HitStops(list.chain, list.dead, p, Rank(UpperBit(key)), comp.isDummy);
      }
      n := LookIsScan(t, list.chain, k, p, key, s);
    }

    // -------------------------------------------------------------- buckets

    /** The new dummy of bucket b goes behind the dummy of its parent. */
    method InsertDummy(parent: Node, b: nat) returns (node: Node)
      requires Sound() && 1 <= b < Pow2(63) && b !in index
      requires ParentIndex(b) in index && parent == index[ParentIndex(b)]
      modifies this`index, this`repr, list, repr`next, repr`tag, list.alloc
      ensures Sound() && fresh(node)
      ensures index == old(index)[b := node] && repr == old(repr) + {node}
      ensures list.counter == old(list.counter) + 1 && Order() == old(Order())
    {
      hide TableOk, OrderList.Valid, MakeNode, ParentIndex, Rank, Pow2, Trimmed, Passed, With, Stops, Regulars, Live;
      ghost var t := View();
      ghost var k := Position(t, ParentIndex(b));
      ListFacts();
      var comp := new Comparator(ToInsert(Rank(b)));
      ghost var mid, p;
      MakeNodeKey(true, b, 0);
      node, mid, p := list.Insert(MakeNode(true, b, 0, b), parent, true, comp, k);
      DummyInserted(t, mid, repr, k, p, b, node);
      index, repr := index[b := node], repr + {node};
    }

    /** The bucket pointer of a global index: get_table, get_index, load. */
    method TakeBucket(b: nat) returns (bucket: Node?)
      requires segArr.Length == 64 && SegmentsOk(segArr[..], currentSegment, index)
      requires b < GlobalSize(currentSegment)
      ensures bucket == Bucket(index, b)
    {
      BucketAt(segArr[..], currentSegment, index, b);
      hide SegmentsOk, TableSegment, SlotIndex, Bucket;
      var s, slot := TableSegment(b), SlotIndex(b);
      bucket := segArr[s].buckets[slot];
    }

    /** insert_parent_bucket: the bucket of index b, initialised from its parent if need be. */
    method InsertParentBucket(b: nat, parentBucket: Node) returns (bucket: Node)
      requires Valid() && b < GlobalSize(currentSegment)
      requires b !in index ==> b >= 1 && ParentIndex(b) in index && parentBucket == index[ParentIndex(b)]
      modifies this`index, this`repr, segArr, list, repr`next, repr`tag, list.alloc
      ensures Valid() && b in index && bucket == index[b]
      ensures index == old(index)[b := bucket] && (b in old(index) ==> index == old(index))
      ensures old(repr) <= repr && fresh(repr - old(repr)) && Order() == old(Order())
    {
      hide TableOk, OrderList.Valid, ParentIndex, Pow2, Regulars, Live, SegmentsOk, TableSegment, SlotIndex,
           Unremoved, Within, Loaded;
      ghost var segs := segArr[..];
      BucketAt(segs, currentSegment, index, b);
      SmallIndex(segs, currentSegment, index, b);
      var s, slot := TableSegment(b), SlotIndex(b);
      var oldBucket := segArr[s].buckets[slot];
      if oldBucket != null {
        return oldBucket;
      }
      segArr[s] := Segment(segArr[s].buckets[slot := parentBucket]);
      var node := InsertDummy(parentBucket, b);
      StoreOk(segs, currentSegment, old(index), b, node);
      segArr[s] := Segment(segArr[s].buckets[slot := node]);
      assert segs[s].buckets[slot := parentBucket][slot := node] == segs[s].buckets[slot := node];
      assert segArr[..] == segs[s := Segment(segs[s].buckets[slot := node])];
      bucket := segArr[s].buckets[slot];
    }

    /** The climb of get_parent_bucket to the first initialised bucket. */
    method Climb(hash: nat, segment: nat) returns (vec: seq<nat>, bucket: Node)
      requires segArr.Length == 64 && SegmentsOk(segArr[..], currentSegment, index) && 0 in index
      requires segment == currentSegment
      ensures Climbed(vec, index) && vec[0] == GlobalIndex(hash, segment)
      ensures forall j :: 0 <= j < |vec| ==> vec[j] < GlobalSize(currentSegment)
      ensures vec[|vec| - 1] in index && bucket == index[vec[|vec| - 1]]
      ensures |vec| - 1 <= segment
    {
      hide SegmentsOk, ParentIndex, Pow2;
      var parent := GlobalIndex(hash, segment);
      GlobalIndexBound(hash, segment);
      hide GlobalIndex;
      var found := TakeBucket(parent);
      vec := [parent];
      while found == null
        invariant Climbed(vec, index) && vec[0] == GlobalIndex(hash, segment)
        invariant forall j :: 0 <= j < |vec| ==> vec[j] < GlobalSize(currentSegment)
        invariant parent == vec[|vec| - 1] && found == Bucket(index, parent)
        decreases parent
      {
        ClimbNext(vec, index, currentSegment);
        parent := ParentIndex(parent);
        found := TakeBucket(parent);
        vec := vec + [parent];
      }
      ClimbSteps(vec, index, hash, segment);
      bucket := found;
    }

    /** The way back: every bucket of the path is initialised, from the top. */
    method InitPath(vec: seq<nat>, top: Node) returns (bucket: Node)
      requires Valid() && Climbed(vec, index) && forall j :: 0 <= j < |vec| ==> vec[j] < GlobalSize(currentSegment)
      requires vec[|vec| - 1] in index && top == index[vec[|vec| - 1]]
      modifies this`index, this`repr, segArr, list, repr`next, repr`tag, list.alloc
      ensures Valid() && vec[0] in index && bucket == index[vec[0]]
      ensures nodes == old(nodes) && currentSegment == old(currentSegment)
      ensures Grown(old(index), index) && index.Keys == old(index).Keys + Members(vec)
      ensures |vec| == 1 ==> index == old(index)
      ensures old(repr) <= repr && fresh(repr - old(repr)) && Order() == old(Order())
    {
      hide *;
      RootOk();
      bucket := top;
      var i := |vec|;
      PathStart(vec, index, top);
      while i != 0
        invariant 0 <= i <= |vec| && Valid()
        invariant OnPath(vec, old(index), index, i, bucket)
        invariant old(repr) <= repr && fresh(repr - old(repr)) && Order() == old(Order())
      {
        i := i - 1;
        ghost var known, before := index, bucket;
        RootOk();
        PathHere(vec, old(index), index, i, bucket);
        bucket := InsertParentBucket(vec[i], bucket);
        PathStep(vec, old(index), known, index, i, before, bucket);
      }
      PathEnd(vec, old(index), index, bucket);
    }

    lemma RootOk()
      requires Valid()
      ensures 0 in index && Closed(index.Keys) && segArr.Length == 64
      ensures SegmentsOk(segArr[..], currentSegment, index) && Grown(index, index)
    {
      hide TableOk, OrderList.Valid, SegmentsOk, Unremoved, Within, Loaded, Closed;
      RootBucket(View());
      IndexClosed(View());
      GrownSame(index);
    }

    /** get_parent_bucket: the bucket of the hash, and on the way every missing ancestor of it,
        initialised from the top. */
    method GetParentBucket(hash: nat, segment: nat) returns (bucket: Node)
      requires Valid() && segment == currentSegment
      modifies this`index, this`repr, segArr, list, repr`next, repr`tag, list.alloc
      ensures Valid()
      ensures GlobalIndex(hash, segment) in index && bucket == index[GlobalIndex(hash, segment)]
      ensures nodes == old(nodes) && currentSegment == old(currentSegment)
      ensures Grown(old(index), index)
      ensures index.Keys == old(index).Keys + Ancestors(GlobalIndex(hash, segment), segment)
      ensures GlobalIndex(hash, segment) in old(index) ==> index == old(index)
      ensures old(repr) <= repr && fresh(repr - old(repr)) && Order() == old(Order())
    {
      hide *;
      RootOk();
      if segment == 0 {
        ZeroIndex(hash);
        RootAncestors(index.Keys);
        SmallestBucket(segArr[..], index);
        return segArr[0].buckets[0];
      }
      var vec;
      vec, bucket := Climb(hash, segment);
      ClimbAlone(vec, index);
      ClimbIsAncestors(vec, index, segment);
      bucket := InitPath(vec, bucket);
    }

    // -------------------------------------------------------------- growing

    /** inflate_table: a new segment when the load factor is exceeded. Nothing else changes. */
    method InflateTable() returns (inflated: bool)
      requires Valid() && !Full()
      modifies this`currentSegment, segArr
      ensures Valid()
      ensures inflated <==> old(|index| + |nodes|) >= (loadFactor + 1) * Pow2(old(currentSegment))
      ensures currentSegment == old(currentSegment) + if inflated then 1 else 0
      ensures Loaded(|nodes| + 1, currentSegment, loadFactor)
    {
      hide TableOk, OrderList.Valid, Unremoved, Within, Loaded, SegmentsOk, SegmentSize, Overloaded;
      RootBucket(View());
      LoadKept(|nodes|, |index|, currentSegment, loadFactor);
      var oldIndex := currentSegment;
      var counter := list.Size();
      OverloadedMeans(counter, oldIndex, loadFactor);
      if !Overloaded(counter, oldIndex, loadFactor) {
        return false;
      }
      ghost var segs := segArr[..];
      InflateOk(segs, oldIndex, index);
      var newIndex := oldIndex + 1;
      var newTable := Segment(seq(SegmentSize(newIndex), _ => null));
      segArr[newIndex] := newTable;
      assert segArr[..] == Inflated(segs, newIndex);
      currentSegment := newIndex;
      inflated := true;
    }

    /** size: the keys and the initialised buckets, bounded by the table size. */
    method Size() returns (n: int)
      requires Valid()
      ensures n == |nodes| + |index| && Sized(n, currentSegment, loadFactor)
      ensures Loaded(|nodes|, currentSegment, loadFactor)
    {
      ValidParts();
      hide *;
      SizeBound(segArr[..], currentSegment, index, |nodes|, loadFactor);
      n := list.Size();
    }

    // -------------------------------------------------------------- the map

    lemma BucketHere(key: nat)
      requires Valid() && GlobalIndex(key, currentSegment) in index
      ensures Sound() && GlobalIndex(key, currentSegment) == LowBits(key, currentSegment) && currentSegment <= 30
      ensures segArr.Length == 64 && SegmentsOk(segArr[..], currentSegment, index)
      ensures list.counter == |index| + |nodes| && Loaded(|nodes|, currentSegment, loadFactor)
    {
      hide TableOk, OrderList.Valid, Pow2, LowBits, SegmentsOk, Unremoved, Within, Loaded, GlobalIndex;
      GlobalIndexBound(key, currentSegment);
      LevelBound(segArr[..], currentSegment, index);
    }

    lemma ValidAgain()
      requires Sound() && segArr.Length == 64 && SegmentsOk(segArr[..], currentSegment, index)
      requires list.counter == |index| + |nodes| && Loaded(|nodes|, currentSegment, loadFactor)
      ensures Valid()
    {
      hide Sound, SegmentsOk, Loaded;
    }

    method Find(key: nat) returns (found: bool)
      requires Valid()
      modifies this`index, this`repr, segArr, list, repr`next, repr`tag, list.alloc
      ensures Valid()
      ensures found <==> Canon(key) in nodes
      ensures nodes == old(nodes) && currentSegment == old(currentSegment)
      ensures GlobalIndex(key, currentSegment) in index && Grown(old(index), index)
      ensures index.Keys == old(index).Keys + Ancestors(GlobalIndex(key, currentSegment), currentSegment)
      ensures old(repr) <= repr && fresh(repr - old(repr)) && Order() == old(Order())
    {
      hide *;
      var comp := new Comparator(ToFind(Rank(UpperBit(key))));
      var segment := currentSegment;
      var bucket := GetParentBucket(key, segment);
      BucketHere(key);
      ghost var segs := segArr[..];
      ghost var n, prev, curr;
      found, n, prev, curr := Look(bucket, comp, key, GlobalIndex(key, segment), segment);
      assert segArr[..] == segs;
      ValidAgain();
      if comp.isDummy {
        found := false;
      }
    }

    /** list_.contain from the dummy of bucket b. */
    method LookCopy(bucket: Node, comp: Comparator, key: nat, ghost b: nat, ghost s: nat)
      returns (r: Option<HashNode>, ghost n: nat, ghost prev: Node, ghost curr: Node?)
      requires Sound() && b == LowBits(key, s) && s <= 63
      requires b in index && bucket == index[b] && comp.order == ToFind(Rank(UpperBit(key)))
      modifies list`chain, repr`next, repr`tag, list.alloc, comp
      ensures Sound()
      ensures Scanned(old(View()), key, n, prev, curr) && r == (if curr == null then None else Some(curr.data))
      ensures curr != null ==> comp.isDummy == FlagAfter(comp.order, curr, false)
      ensures r.Some? && !comp.isDummy <==> Canon(key) in nodes
      ensures Canon(key) in nodes ==> r.Some? && r.value == nodes[Canon(key)].data
      ensures Order() == old(Order())
    {
      hide TableOk, OrderList.Valid, LowBits, Rank, UpperBit, Canon, Trimmed, Passed, Hit, Regulars, Live, Stops,
           FlagAfter, Scanned;
      ghost var k := Position(View(), b);
      ListFacts();
      ghost var t := View();
      ghost var p;
      r, p := list.Contain(bucket, comp, k);
      LookOk(t, list.chain, repr, b, k, p, key, s, comp.isDummy);
      prev, curr := list.chain[p], if r.Some? then list.chain[p + 1] else null;
      if r.Some? {
        HitStops(list.chain, list.dead, p, Rank(UpperBit(key)), comp.isDummy);
      }
      n := LookIsScan(t, list.chain, k, p, key, s);
    }

    method Contain(key: nat) returns (r: Option<nat>)
      requires Valid()
      modifies this`index, this`repr, segArr, list, repr`next, repr`tag, list.alloc
      ensures Valid()
      ensures r == if Canon(key) in nodes then Some(nodes[Canon(key)].data.value) else None
      ensures nodes == old(nodes) && currentSegment == old(currentSegment)
      ensures Grown(old(index), index)
      ensures index.Keys == old(index).Keys + Ancestors(GlobalIndex(key, currentSegment), currentSegment)
      ensures old(repr) <= repr && fresh(repr - old(repr)) && Order() == old(Order())
    {
      hide *;
      var comp := new Comparator(ToFind(Rank(UpperBit(key))));
      var segment := currentSegment;
      var bucket := GetParentBucket(key, segment);
      BucketHere(key);
      ghost var segs := segArr[..];
      var found;
      ghost var n, prev, curr;
      found, n, prev, curr := LookCopy(bucket, comp, key, GlobalIndex(key, segment), segment);
      assert segArr[..] == segs;
      ValidAgain();
      if found.Some? && !comp.isDummy {
        return Some(found.value.value);
      }
      return None;
    }

    /** Bucket::insert: a regular node for a key that is absent. */
    method BucketInsert(bucket: Node, key: nat, value: nat, ghost s: nat) returns (done: bool)
      requires Sound() && key < Pow2(64) && s <= 63 && Canon(key) !in nodes
      requires LowBits(key, s) in index && bucket == index[LowBits(key, s)]
      modifies this`nodes, this`repr, list, repr`next, repr`tag, list.alloc
      ensures Sound() && done
      ensures Canon(key) in nodes && nodes == old(nodes)[Canon(key) := nodes[Canon(key)]]
      ensures nodes[Canon(key)].data.value == value
      ensures list.counter == old(list.counter) + 1
      ensures old(repr) <= repr && fresh(repr - old(repr))
    {
      hide TableOk, OrderList.Valid, MakeNode, LowBits, Canon, Rank, Pow2, Trimmed, Passed, With, Stops, Regulars, Live;
      ghost var t := View();
      ghost var k := Position(t, LowBits(key, s));
      ListFacts();
      var comp := new Comparator(ToInsert(Rank(key)));
      ghost var mid, p;
      MakeNodeKey(false, key, value);
      var node;
      node, mid, p := list.Insert(MakeNode(false, key, value, key), bucket, true, comp, k);
      RegularInserted(t, mid, repr, k, p, key, value, s, node);
      nodes, repr := nodes[Canon(key) := node], repr + {node};
      done := true;
    }

    /** The second half of insert, for an absent key. */
    method AddAbsent(key: nat, value: nat) returns (done: bool)
      requires Valid() && key < Pow2(64) && Canon(key) !in nodes
      requires Loaded(|nodes| + 1, currentSegment, loadFactor) && GlobalIndex(key, currentSegment) in index
      modifies this`index, this`nodes, this`repr, segArr, list, repr`next, repr`tag, list.alloc
      ensures Valid() && done
      ensures Model(nodes) == old(Model(nodes))[Canon(key) := value]
      ensures index == old(index)
      ensures old(repr) <= repr && fresh(repr - old(repr))
    {
      hide TableOk, OrderList.Valid, Pow2, LowBits, Regulars, Live, SegmentsOk, Unremoved, Within, Loaded, Canon,
           GlobalIndex, Rank, UpperBit, Model, Grown;
      ghost var was := nodes;
      var segment := currentSegment;
      GlobalIndexBound(key, segment);
      var bucket := GetParentBucket(key, segment);
      SmallIndex(segArr[..], segment, index, GlobalIndex(key, segment));
      done := BucketInsert(bucket, key, value, segment);
      InsertSize(was, Canon(key), nodes[Canon(key)]);
    }

    /** What insert does once the table has grown if it must. */
    method InsertGrown(key: nat, value: nat) returns (done: bool)
      requires Valid() && key < Pow2(64) && Loaded(|nodes| + 1, currentSegment, loadFactor)
      modifies this`index, this`nodes, this`repr, segArr, list, repr`next, repr`tag, list.alloc
      ensures Valid()
      ensures done <==> Canon(key) !in old(nodes)
      ensures Model(nodes) == if done then old(Model(nodes))[Canon(key) := value] else old(Model(nodes))
      ensures Grown(old(index), index)
      ensures index.Keys == old(index).Keys + Ancestors(GlobalIndex(key, currentSegment), currentSegment)
      ensures old(repr) <= repr && fresh(repr - old(repr))
    {
      hide *;
      var found := Find(key);
      if found {
        return false;
      }
      done := AddAbsent(key, value);
    }

    /** insert: false for a key that is present. */
    method Insert(key: nat, value: nat) returns (done: bool)
      requires Valid() && key < Pow2(64) && !Full()
      modifies this, segArr, list, repr`next, repr`tag, list.alloc
      ensures Valid()
      ensures done <==> Canon(key) !in old(nodes)
      ensures Model(nodes) == if done then old(Model(nodes))[Canon(key) := value] else old(Model(nodes))
      ensures Grown(old(index), index)
      ensures index.Keys == old(index).Keys + Ancestors(GlobalIndex(key, currentSegment), currentSegment)
      ensures currentSegment == old(currentSegment)
                              + if old(|index| + |nodes|) >= (loadFactor + 1) * Pow2(old(currentSegment)) then 1 else 0
      ensures old(repr) <= repr && fresh(repr - old(repr))
    {
      hide *;
      var inflated := InflateTable();
      done := InsertGrown(key, value);
    }

    /** list_.find_node from the dummy of the key's bucket. */
    method FindNode(bucket: Node, comp: Comparator, key: nat, ghost s: nat)
      returns (prev: Node, node: Node?, h: nat, ghost n: nat, ghost p: nat)
      requires Sound() && s <= 63 && LowBits(key, s) in index && bucket == index[LowBits(key, s)]
      requires comp.order == ToFind(Rank(UpperBit(key)))
      modifies list`chain, repr`next, repr`tag, list.alloc, comp
      ensures list.Inv() && TableOk(View()) && Within(list.chain, repr) && Unremoved(list.chain, list.dead)
      ensures node == null ==> list.Valid()
      ensures node != null ==> Holds(list.alloc.view, h, node)
      ensures node != null ==> At(list.chain, list.dead, repr, p, prev, node)
      ensures Scanned(old(View()), key, n, prev, node)
      ensures node != null && !comp.isDummy <==> Canon(key) in nodes
      ensures Canon(key) in nodes ==> node == nodes[Canon(key)]
    {
      hide TableOk, OrderList.Inv, LowBits, Rank, UpperBit, Canon, Trimmed, Passed, Hit, Regulars, Live, Holds, Stops,
           Scanned;
      ghost var t := View();
      ghost var k := Position(t, LowBits(key, s));
      ListFacts();
      prev, node, h, p := list.SearchNode(bucket, comp, k);
      LookOk(t, list.chain, repr, LowBits(key, s), k, p, key, s, comp.isDummy);
      PassedRange(list.chain, list.dead, k, p, comp.order);
      n := LookIsScan(t, list.chain, k, p, key, s);
    }

    /** The end of Bucket::remove: the flag, the mark, and the hazard pointer's end. */
    method RemoveFound(prev: Node, node: Node, h: nat, ghost p: nat) returns (done: bool)
      requires list.Inv() && Holds(list.alloc.view, h, node)
      requires 1 <= p && p + 1 < |list.chain| && list.chain[p] == prev && list.chain[p + 1] == node
      requires prev !in list.dead && node !in list.dead
      modifies node`isRemoved, prev`tag, list`dead, list`tail, list`counter, list.alloc
      ensures done == !old(node.isRemoved) && list.Valid()
      ensures list.dead == if done then old(list.dead) + {node} else old(list.dead)
      ensures old(Unremoved(list.chain, list.dead)) ==> Unremoved(list.chain, list.dead)
      ensures list.counter == old(list.counter) - if done then 1 else 0
    {
      hide OrderList.Inv, Holds;
      if node.isRemoved {
        list.LetGo(h, node);
        return false;
      }
      node.isRemoved := true;
      done := list.Remove(prev, p);
      list.LetGo(h, node);
    }

    /** The node found is removed. */
    method RemoveAt(prev: Node, node: Node, h: nat, c: nat, ghost p: nat) returns (done: bool)
      requires list.Inv() && TableOk(View()) && Within(list.chain, repr) && Unremoved(list.chain, list.dead)
      requires Holds(list.alloc.view, h, node) && At(list.chain, list.dead, repr, p, prev, node)
      requires c in nodes && node == nodes[c]
      modifies this`nodes, list`dead, list`tail, list`counter, node`isRemoved, prev`tag, list.alloc
      ensures Sound() && done
      ensures nodes == old(nodes) - {c} && |nodes| == |old(nodes)| - 1
      ensures list.counter == old(list.counter) - 1
    {
      hide TableOk, OrderList.Inv, OrderList.Valid, Holds, Unremoved;
      InvDistinct();
      ghost var t := View();
      NodeRemoved(t, p + 1, c);
      UnremovedAt(node);
      done := RemoveFound(prev, node, h, p);
      nodes := nodes - {c};
    }

    /** Bucket::remove. */
    method BucketRemove(bucket: Node, key: nat, ghost s: nat) returns (done: bool)
      requires Sound() && s <= 63 && LowBits(key, s) in index && bucket == index[LowBits(key, s)]
      modifies this`nodes, list, repr`next, repr`tag, repr`isRemoved, list.alloc
      ensures Sound()
      ensures done <==> Canon(key) in old(nodes)
      ensures nodes == if done then old(nodes) - {Canon(key)} else old(nodes)
      ensures list.counter == old(list.counter) - if done then 1 else 0
      ensures |nodes| == |old(nodes)| - if done then 1 else 0
    {
      hide TableOk, OrderList.Inv, OrderList.Valid, LowBits, Rank, UpperBit, Canon, Regulars, Live, Holds,
           Within, Unremoved;
      var comp := new Comparator(ToFind(Rank(UpperBit(key))));
      var prev, node, h;
      ghost var n, p;
      prev, node, h, n, p := FindNode(bucket, comp, key, s);
      if comp.isDummy || node == null {
        if node != null {
          list.LetGo(h, node);
        }
        return false;
      }
      done := RemoveAt(prev, node, h, Canon(key), p);
    }

    method Remove(key: nat) returns (done: bool)
      requires Valid()
      modifies this`index, this`nodes, this`repr, segArr, list, repr`next, repr`tag, repr`isRemoved, list.alloc
      ensures Valid()
      ensures done <==> Canon(key) in old(nodes)
      ensures Model(nodes) == if done then old(Model(nodes)) - {Canon(key)} else old(Model(nodes))
      ensures Grown(old(index), index) && currentSegment == old(currentSegment)
      ensures index.Keys == old(index).Keys + Ancestors(GlobalIndex(key, currentSegment), currentSegment)
      ensures old(repr) <= repr && fresh(repr - old(repr))
    {
      hide TableOk, OrderList.Valid, Pow2, LowBits, Regulars, Live, SegmentsOk, Unremoved, Within, Loaded, Canon,
           GlobalIndex, Model, Grown;
      ghost var was := nodes;
      var segment := currentSegment;
      GlobalIndexBound(key, segment);
      var bucket := GetParentBucket(key, segment);
      SmallIndex(segArr[..], segment, index, GlobalIndex(key, segment));
      done := BucketRemove(bucket, key, segment);
      LoadedLess(|was|, |nodes|, segment, loadFactor);
      if done {
        RemoveSize(was, Canon(key));
      }
    }

    method ClearList()
      requires list.Valid()
      modifies this`repr, list, list.alloc
      ensures BlankList()
      ensures list.deleted == old(list.deleted) + old(list.chain)
      ensures old(repr) <= repr && fresh(repr - old(repr))
    {
      hide *;
      list.Clear();
      repr := repr + {list.chain[0], list.chain[1]};
      BlankListStart();
    }

    lemma BlankListStart()
      requires list.Valid() && |list.chain| == 2 && list.dead == {} && list.counter == 0
      requires !list.chain[0].isRemoved && !list.chain[1].isRemoved
      requires {list.chain[0], list.chain[1]} <= repr
      ensures BlankList()
    {
    }

    /** The loop of clear over the segments. The Bucket objects it deletes have no counterpart,
        since a bucket is modelled as its pointer. */
    method DropSegments()
      requires segArr.Length == 64 && BlankList()
      modifies segArr, this`currentSegment
      ensures Blank() && list.deleted == old(list.deleted) && repr == old(repr)
    {
      hide OrderList.Valid, Unremoved, Within;
      for i := 0 to segArr.Length
        invariant forall s :: 0 <= s < i ==> segArr[s].NoSegment?
        invariant BlankList() && list.deleted == old(list.deleted) && repr == old(repr)
      {
        segArr[i] := NoSegment;
      }
      currentSegment := 0;
    }

    lemma ValidParts()
      requires Valid()
      ensures Sound() && list.Valid() && segArr.Length == 64
      ensures SegmentsOk(segArr[..], currentSegment, index)
      ensures list.counter == |index| + |nodes| && Loaded(|nodes|, currentSegment, loadFactor)
    {
      hide TableOk, SegmentsOk, OrderList.Valid, Unremoved, Within;
    }

    method Empty()
      requires Valid()
      modifies this`repr, this`currentSegment, segArr, list, list.alloc
      ensures Blank()
      ensures list.deleted == old(list.deleted) + old(list.chain)
      ensures old(repr) <= repr && fresh(repr - old(repr))
    {
      ValidParts();
      hide *;
      ClearList();
      DropSegments();
    }

    /** clear: the list, then every segment, then a new bucket 0. */
    method Clear()
      requires Valid()
      modifies this, segArr, list, repr`next, repr`tag, list.alloc
      ensures Valid() && nodes == map[] && |index| == 1 && currentSegment == 0
      ensures list.deleted == old(list.deleted) + old(list.chain)
      ensures old(repr) <= repr && fresh(repr - old(repr))
    {
      hide *;
      Empty();
      var node := Allocate();
    }
  }
}
