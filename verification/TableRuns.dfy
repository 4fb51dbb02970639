/** Whole runs of the hash table against the mathematical map it stands for. */
module TableRuns {
  import opened Common
  import opened Bits
  import opened Segments
  import opened SplitOrder
  import opened TableState
  import opened TableBuckets
  import opened HashTables
  import opened OrderedList

  datatype Op = Insert(key: nat, value: nat) | Remove(key: nat) | Find(key: nat) | Contain(key: nat) | Clear

  datatype Result = Bool(b: bool) | Value(v: Option<nat>) | Done

  // ---------------------------------------------------------------- the mathematical map

  function Step(m: map<nat, nat>, op: Op): map<nat, nat> {
    match op
    case Insert(k, v) => if k in m then m else m[k := v]
    case Remove(k) => m - {k}
    case Find(_) => m
    case Contain(_) => m
    case Clear => map[]
  }

  function Answer(m: map<nat, nat>, op: Op): Result {
    match op
    case Insert(k, _) => Bool(k !in m)
    case Remove(k) => Bool(k in m)
    case Find(k) => Bool(k in m)
    case Contain(k) => Value(if k in m then Some(m[k]) else None)
    case Clear => Done
  }

  function Answers(m: map<nat, nat>, ops: seq<Op>): seq<Result>
    decreases |ops|
  {
    if ops == [] then [] else [Answer(m, ops[0])] + Answers(Step(m, ops[0]), ops[1..])
  }

  function Final(m: map<nat, nat>, ops: seq<Op>): map<nat, nat>
    decreases |ops|
  {
    if ops == [] then m else Final(Step(m, ops[0]), ops[1..])
  }

  /** The operation as the table sees it, without bit 63 of the key. */
  function CanonOp(op: Op): Op {
    match op
    case Insert(k, v) => Insert(Canon(k), v)
    case Remove(k) => Remove(Canon(k))
    case Find(k) => Find(Canon(k))
    case Contain(k) => Contain(Canon(k))
    case Clear => Clear
  }

  function CanonOps(ops: seq<Op>): (r: seq<Op>)
    ensures |r| == |ops|
  {
    if ops == [] then [] else [CanonOp(ops[0])] + CanonOps(ops[1..])
  }

  // ---------------------------------------------------------------- which keys are safe

  predicate KeyIn(op: Op, keys: set<nat>) {
    op.Clear? || op.key in keys
  }

  predicate Over(ops: seq<Op>, keys: set<nat>) {
    forall op :: op in ops ==> KeyIn(op, keys)
  }

  /** No two of the keys differ in bit 63 alone. */
  ghost predicate Apart(keys: set<nat>) {
    forall a, b :: a in keys && b in keys && Canon(a) == Canon(b) ==> a == b
  }

  ghost predicate Mirrors(m: map<nat, nat>, c: map<nat, nat>, keys: set<nat>) {
    && (forall k :: k in m ==> k in keys)
    && (forall k :: k in keys ==> (k in m <==> Canon(k) in c))
    && (forall k :: k in m && Canon(k) in c ==> m[k] == c[Canon(k)])
  }

  lemma MirrorsStep(m: map<nat, nat>, c: map<nat, nat>, keys: set<nat>, op: Op)
    requires Apart(keys) && Mirrors(m, c, keys) && KeyIn(op, keys)
    ensures Mirrors(Step(m, op), Step(c, CanonOp(op)), keys)
    ensures Answer(m, op) == Answer(c, CanonOp(op))
  {
    hide Canon;
  }

  lemma {:induction false} ApartFaithful(m: map<nat, nat>, c: map<nat, nat>, keys: set<nat>, ops: seq<Op>)
    requires Apart(keys) && Mirrors(m, c, keys) && Over(ops, keys)
    ensures Answers(m, ops) == Answers(c, CanonOps(ops))
    decreases |ops|
  {
    hide Mirrors, Apart, Step, Answer, CanonOp, KeyIn;
    if ops != [] {
      assert ops[0] in ops && forall op :: op in ops[1..] ==> op in ops;
      MirrorsStep(m, c, keys, ops[0]);
      ApartFaithful(Step(m, ops[0]), Step(c, CanonOp(ops[0])), keys, ops[1..]);
    }
  }

  /** A run that shows the difference for two keys with one canonical key. */
  function Probe(a: nat, b: nat): seq<Op> {
    [Insert(a, 0), Find(b)]
  }

  lemma CollisionObserved(a: nat, b: nat)
    requires a != b && Canon(a) == Canon(b)
    ensures Answers(map[], Probe(a, b)) == [Bool(true), Bool(false)]
    ensures Answers(map[], CanonOps(Probe(a, b))) == [Bool(true), Bool(true)]
  {
    hide Canon;
    var ops := Probe(a, b);
    var c := map[][Canon(a) := 0];
    assert ops[1..] == [Find(b)] && ops[1..][1..] == [];
    assert CanonOps([Find(b)]) == [Find(Canon(b))];
    assert CanonOps(ops) == [Insert(Canon(a), 0), Find(Canon(b))];
    assert CanonOps(ops)[1..] == [Find(Canon(b))] && CanonOps(ops)[1..][1..] == [];
    assert Answers(map[a := 0], [Find(b)]) == [Bool(false)];
    assert Answers(c, [Find(Canon(b))]) == [Bool(true)];
  }

  /** Two words have one canonical key exactly when they are equal but for bit 63; 0 and 2^63
      are two such. */
  lemma CollidingKeys(a: nat, b: nat)
    requires a < Pow2(64) && b < Pow2(64)
    ensures Canon(a) == Canon(b) <==> a == b || a == b + Pow2(63) || b == a + Pow2(63)
    ensures Canon(0) == Canon(Pow2(63)) && Pow2(63) != 0
  {
    hide Pow2, LowBits;
    TopBitOrNot(a, 63);
    TopBitOrNot(b, 63);
    TopBitOrNot(0, 63);
    LowBitsBelowTop(0, 63, 63);
  }

  ghost predicate Faithful(keys: set<nat>) {
    forall ops :: Over(ops, keys) ==> Answers(map[], CanonOps(ops)) == Answers(map[], ops)
  }

  /** The table answers every sequence of operations over a set of keys as the mathematical map
      does exactly when no two of the keys differ in bit 63 alone. */
  lemma FaithfulIff(keys: set<nat>)
    ensures Faithful(keys) <==> Apart(keys)
  {
    hide Canon, CanonOps, Answers, Step, Answer;
    if Apart(keys) {
      forall ops | Over(ops, keys)
        ensures Answers(map[], CanonOps(ops)) == Answers(map[], ops)
      {
        ApartFaithful(map[], map[], keys, ops);
      }
    } else {
      var a, b :| a in keys && b in keys && Canon(a) == Canon(b) && a != b;
      CollisionObserved(a, b);
      assert Over(Probe(a, b), keys);
    }
  }

  /** Keys below 2^63 are safe. */
  lemma SmallKeysApart(keys: set<nat>)
    requires forall k :: k in keys ==> k < Pow2(63)
    ensures Apart(keys)
  {
    forall k | k in keys
      ensures Canon(k) == k
    {
      ShortBits(k, 63);
    }
    hide Canon, Pow2;
  }

  // ---------------------------------------------------------------- runs of the table

  predicate WordKey(op: Op) {
    op.Clear? || op.key < Pow2(64)
  }

  lemma ModelFacts(nodes: map<nat, Node>)
    ensures |Model(nodes)| == |nodes|
    ensures forall c :: c in nodes <==> c in Model(nodes)
    ensures forall c :: c in nodes ==> Model(nodes)[c] == nodes[c].data.value
  {
    assert Model(nodes).Keys == nodes.Keys;
  }

  // ---------------------------------------------------------------- growth and lazy buckets

  /** A table without its nodes: the map it stands for, its last segment, and the buckets it has
      initialised. */
  datatype Shape = Shape(keys: map<nat, nat>, level: nat, buckets: set<nat>)

  const FRESH: Shape := Shape(map[], 0, {0})

  /** Keys and buckets have reached loadFactor + 1 for each bucket of the table. */
  predicate Crowded(s: Shape, loadFactor: nat) {
    |s.keys| + |s.buckets| >= (loadFactor + 1) * Pow2(s.level)
  }

  /** The next insert needs segment 31. */
  predicate NoRoom(s: Shape, loadFactor: nat) {
    s.level >= 30 && Crowded(s, loadFactor)
  }

  /** An operation initialises the bucket of its key and the ancestors of that bucket. */
  ghost function Touched(buckets: set<nat>, key: nat, level: nat): set<nat> {
    buckets + Ancestors(LowBits(key, level), level)
  }

  ghost function Evolve(s: Shape, op: Op, loadFactor: nat): Shape {
    match op
    case Insert(k, _) =>
      var level := s.level + if Crowded(s, loadFactor) then 1 else 0;
      Shape(Step(s.keys, op), level, Touched(s.buckets, k, level))
    case Clear => FRESH
    case _ => Shape(Step(s.keys, op), s.level, Touched(s.buckets, op.key, s.level))
  }

  ghost function Evolved(s: Shape, ops: seq<Op>, loadFactor: nat): Shape
    decreases |ops|
  {
    if ops == [] then s else Evolved(Evolve(s, ops[0], loadFactor), ops[1..], loadFactor)
  }

  /** How many of the operations come before an insert for which there is no room. */
  ghost function Served(s: Shape, ops: seq<Op>, loadFactor: nat): (n: nat)
    ensures n <= |ops|
    decreases |ops|
  {
    if ops == [] || (ops[0].Insert? && NoRoom(s, loadFactor)) then 0
    else 1 + Served(Evolve(s, ops[0], loadFactor), ops[1..], loadFactor)
  }

  lemma {:induction false} EvolvedKeys(s: Shape, ops: seq<Op>, loadFactor: nat)
    ensures Evolved(s, ops, loadFactor).keys == Final(s.keys, ops)
    decreases |ops|
  {
    hide Step, Touched, Crowded;
    if ops != [] {
      EvolvedKeys(Evolve(s, ops[0], loadFactor), ops[1..], loadFactor);
      EvolveKeys(s, ops[0], loadFactor);
    }
  }

  lemma EvolveKeys(s: Shape, op: Op, loadFactor: nat)
    ensures Evolve(s, op, loadFactor).keys == Step(s.keys, op)
  {
  }

  lemma {:induction false} EvolvedMore(s: Shape, ops: seq<Op>, loadFactor: nat)
    requires ops != []
    ensures Evolved(s, ops, loadFactor)
         == Evolve(Evolved(s, ops[..|ops| - 1], loadFactor), ops[|ops| - 1], loadFactor)
    decreases |ops|
  {
    hide Evolve;
    if |ops| > 1 {
      EvolvedMore(Evolve(s, ops[0], loadFactor), ops[1..], loadFactor);
      assert ops[1..][..|ops| - 2] == ops[..|ops| - 1][1..];
    }
  }

  /** A table never grows early: one with last segment s >= 1 has had an insert that found
      loadFactor + 1 keys and buckets for each bucket of the table with last segment s - 1. */
  lemma {:induction false} GrewByLoad(ops: seq<Op>, loadFactor: nat) returns (n: nat)
    requires Evolved(FRESH, ops, loadFactor).level >= 1
    ensures n < |ops| && ops[n].Insert?
    ensures var s := Evolved(FRESH, ops[..n], loadFactor);
            && s.level + 1 == Evolved(FRESH, ops, loadFactor).level
            && |s.keys| + |s.buckets| >= (loadFactor + 1) * Pow2(s.level)
    decreases |ops|
  {
    hide Touched, Step;
    EvolvedMore(FRESH, ops, loadFactor);
    var last := |ops| - 1;
    if Evolved(FRESH, ops[..last], loadFactor).level == Evolved(FRESH, ops, loadFactor).level {
      n := GrewByLoad(ops[..last], loadFactor);
      assert ops[..last][..n] == ops[..n];
    } else {
      n := last;
    }
  }

  /** There are at most 2^level buckets. */
  lemma {:induction false} BucketsFit(ops: seq<Op>, loadFactor: nat)
    ensures var s := Evolved(FRESH, ops, loadFactor); forall b :: b in s.buckets ==> b < Pow2(s.level)
    decreases |ops|
  {
    if ops != [] {
      EvolvedMore(FRESH, ops, loadFactor);
      var last := |ops| - 1;
      BucketsFit(ops[..last], loadFactor);
      EvolveFits(Evolved(FRESH, ops[..last], loadFactor), ops[last], loadFactor);
    }
  }

  lemma EvolveFits(s: Shape, op: Op, loadFactor: nat)
    requires forall b :: b in s.buckets ==> b < Pow2(s.level)
    ensures var t := Evolve(s, op, loadFactor); forall b :: b in t.buckets ==> b < Pow2(t.level)
  {
    hide Step, Crowded, Ancestors, LowBits;
    if !op.Clear? {
      var t := Evolve(s, op, loadFactor);
      Pow2Monotone(s.level, t.level);
      AncestorsFit(LowBits(op.key, t.level), t.level);
    }
  }

  /** A table that has no room holds at least loadFactor keys for each of its 2^30 buckets. */
  lemma NoRoomMeans(s: Shape, loadFactor: nat)
    requires NoRoom(s, loadFactor) && forall b :: b in s.buckets ==> b < Pow2(s.level)
    ensures |s.keys| >= loadFactor * MAX_BUCKETS
  {
    hide Pow2;
    var g := Pow2(s.level);
    IndexesBound(s.buckets, g);
    assert (loadFactor + 1) * g == loadFactor * g + g;
    MaxBuckets();
    Pow2Monotone(30, s.level);
    MulMonoRight(loadFactor, MAX_BUCKETS, g);
  }

  lemma MulMonoRight(a: nat, b: nat, c: nat)
    requires b <= c
    ensures a * b <= a * c
  {
  }

  ghost function ShapeOf(t: HashTable): Shape
    reads t, t.list
  {
    Shape(Model(t.nodes), t.currentSegment, t.index.Keys)
  }

  /** The table's own test for room is that of its shape. */
  lemma FullMeans(t: HashTable)
    requires t.Valid()
    ensures t.Full() <==> NoRoom(ShapeOf(t), t.loadFactor)
    ensures t.Full() ==> |t.nodes| >= t.loadFactor * MAX_BUCKETS
  {
    hide HashTable.Sound, SegmentsOk, Pow2;
    t.ValidParts();
    ModelFacts(t.nodes);
    hide HashTable.Valid, Overloaded, Loaded;
    OverloadedMeans(t.list.counter, t.currentSegment, t.loadFactor);
    assert |t.index| == |t.index.Keys|;
    if t.Full() {
      FullSize(t.segArr[..], t.currentSegment, t.index, |t.nodes|, t.loadFactor);
    }
  }

  lemma InsertMeans(m: map<nat, nat>, k: nat, v: nat, done: bool)
    requires done <==> Canon(k) !in m
    ensures Step(m, CanonOp(Insert(k, v))) == if done then m[Canon(k) := v] else m
    ensures Answer(m, CanonOp(Insert(k, v))) == Bool(done)
  {
    hide Canon;
  }

  lemma RemoveMeans(m: map<nat, nat>, k: nat, done: bool)
    requires done <==> Canon(k) in m
    ensures Step(m, CanonOp(Remove(k))) == if done then m - {Canon(k)} else m
    ensures Answer(m, CanonOp(Remove(k))) == Bool(done)
  {
    hide Canon;
  }

  lemma QueriesMean(m: map<nat, nat>, k: nat)
    ensures Step(m, CanonOp(Find(k))) == m && Answer(m, CanonOp(Find(k))) == Bool(Canon(k) in m)
    ensures Step(m, CanonOp(Contain(k))) == m
    ensures Answer(m, CanonOp(Contain(k)))
         == Value(if Canon(k) in m then Some(m[Canon(k)]) else None)
  {
    hide Canon;
  }

  lemma ClearMeans(m: map<nat, nat>)
    ensures Step(m, CanonOp(Clear)) == map[] && Answer(m, CanonOp(Clear)) == Done
    ensures Model(map[]) == map[]
  {
  }

  lemma CanonTouches(s: Shape, key: nat, level: nat)
    requires level <= 63
    ensures Touched(s.buckets, Canon(key), level) == s.buckets + Ancestors(GlobalIndex(key, level), level)
  {
    hide Ancestors, Pow2, LowBits;
    GlobalIndexBound(key, level);
    LowBitsTwice(key, level, 63);
  }

  /** What the operations of the class do to the shape. */
  lemma ShapeStep(s: Shape, t: Shape, op: Op, loadFactor: nat)
    requires t.keys == Step(s.keys, CanonOp(op)) && s.level <= 30 && t.level <= 30
    requires op.Clear? ==> t.level == 0 && t.buckets == {0}
    requires op.Insert? ==> t.level == s.level + if Crowded(s, loadFactor) then 1 else 0
    requires !op.Clear? && !op.Insert? ==> t.level == s.level
    requires !op.Clear? ==> t.buckets == s.buckets + Ancestors(GlobalIndex(op.key, t.level), t.level)
    ensures t == Evolve(s, CanonOp(op), loadFactor)
  {
    hide Canon, Ancestors, Touched, Crowded, GlobalIndex, LowBits;
    if !op.Clear? {
      CanonTouches(s, op.key, t.level);
    }
  }

  lemma FreshShape(t: HashTable)
    requires t.Valid() && t.nodes == map[] && t.currentSegment == 0 && |t.index| == 1
    ensures ShapeOf(t) == FRESH && FRESH.keys == map[] && FRESH.level == 0 && FRESH.buckets == {0}
  {
    t.RootOk();
    OneRoot(t.index.Keys);
    ClearMeans(map[]);
  }

  lemma OneRoot(buckets: set<nat>)
    requires 0 in buckets && |buckets| == 1
    ensures buckets == {0}
  {
    assert |buckets - {0}| == 0;
  }

  /** One operation on the table is one step of the map of canonical keys; it grows the table
      when it is crowded, and initialises the bucket of its key with what is missing above it. */
  method Perform(t: HashTable, op: Op) returns (r: Result)
    requires t.Valid() && WordKey(op) && (op.Insert? ==> !t.Full())
    modifies t, t.segArr, t.list, t.repr`next, t.repr`tag, t.repr`isRemoved, t.list.alloc
    ensures t.Valid() && old(t.repr) <= t.repr && fresh(t.repr - old(t.repr))
    ensures Model(t.nodes) == Step(old(Model(t.nodes)), CanonOp(op))
    ensures r == Answer(old(Model(t.nodes)), CanonOp(op))
    ensures ShapeOf(t) == Evolve(old(ShapeOf(t)), CanonOp(op), t.loadFactor)
  {
    hide HashTable.Valid, HashTable.Full, Model, Canon, Pow2, Grown, Overloaded, Step, Answer, CanonOp,
         Ancestors, GlobalIndex, Evolve;
    ModelFacts(t.nodes);
    ghost var m, was := Model(t.nodes), ShapeOf(t);
    LevelHere(t);
    assert |t.index| == |t.index.Keys|;
    match op {
      case Insert(k, v) =>
        var done := t.Insert(k, v);
        InsertMeans(m, k, v, done);
        r := Bool(done);
      case Remove(k) =>
        var done := t.Remove(k);
        RemoveMeans(m, k, done);
        r := Bool(done);
      case Find(k) =>
        QueriesMean(m, k);
        var found := t.Find(k);
        r := Bool(found);
      case Contain(k) =>
        QueriesMean(m, k);
        var value := t.Contain(k);
        r := Value(value);
      case Clear =>
        ClearMeans(m);
        t.Clear();
        FreshShape(t);
        r := Done;
    }
    LevelHere(t);
    ShapeStep(was, ShapeOf(t), op, t.loadFactor);
  }

  lemma LevelHere(t: HashTable)
    requires t.Valid()
    ensures t.currentSegment <= 30
  {
    t.ValidParts();
    hide HashTable.Valid;
    LevelBound(t.segArr[..], t.currentSegment, t.index);
  }

  // ---------------------------------------------------------------- runs up to a full table

  /** The map has room at every insert. */
  predicate Roomy(m: map<nat, nat>, ops: seq<Op>, room: nat)
    decreases |ops|
  {
    ops == [] || ((ops[0].Insert? ==> |m| < room) && Roomy(Step(m, ops[0]), ops[1..], room))
  }

  lemma {:induction false} RoomyAt(m: map<nat, nat>, ops: seq<Op>, room: nat, n: nat)
    requires Roomy(m, ops, room) && n < |ops| && ops[n].Insert?
    ensures |Final(m, ops[..n])| < room
    decreases |ops|
  {
    hide Step;
    if n > 0 {
      RoomyAt(Step(m, ops[0]), ops[1..], room, n - 1);
      assert ops[..n][0] == ops[0] && ops[..n][1..] == ops[1..][..n - 1];
    }
  }

  lemma {:induction false} ServedStops(s: Shape, ops: seq<Op>, loadFactor: nat)
    ensures var n := Served(s, ops, loadFactor);
            n < |ops| ==> ops[n].Insert? && NoRoom(Evolved(s, ops[..n], loadFactor), loadFactor)
    decreases |ops|
  {
    hide Evolve, NoRoom;
    var n := Served(s, ops, loadFactor);
    if n > 0 {
      ServedStops(Evolve(s, ops[0], loadFactor), ops[1..], loadFactor);
      assert ops[..n][0] == ops[0] && ops[..n][1..] == ops[1..][..n - 1];
    }
  }

  /** With fewer than loadFactor keys for each of 2^30 buckets at each insert, the whole
      sequence is served. */
  lemma RoomyServed(ops: seq<Op>, loadFactor: nat)
    requires Roomy(map[], ops, loadFactor * MAX_BUCKETS)
    ensures Served(FRESH, ops, loadFactor) == |ops|
  {
    hide Served, Evolved, Roomy, NoRoom, Final;
    var n := Served(FRESH, ops, loadFactor);
    ServedStops(FRESH, ops, loadFactor);
    if n < |ops| {
      RoomyAt(map[], ops, loadFactor * MAX_BUCKETS, n);
      EvolvedKeys(FRESH, ops[..n], loadFactor);
      BucketsFit(ops[..n], loadFactor);
      NoRoomMeans(Evolved(FRESH, ops[..n], loadFactor), loadFactor);
      assert false;
    }
  }

  lemma CanonKind(op: Op)
    ensures CanonOp(op).Insert? == op.Insert?
  {
  }

  lemma NoOps(s: Shape, loadFactor: nat)
    ensures Answers(s.keys, CanonOps([])) == [] && Evolved(s, CanonOps([]), loadFactor) == s
    ensures CanonOps([]) == []
  {
  }

  lemma CanonFirst(ops: seq<Op>)
    requires ops != []
    ensures CanonOps(ops) != [] && CanonOps(ops)[0] == CanonOp(ops[0]) && CanonOps(ops)[1..] == CanonOps(ops[1..])
    ensures CanonOps(ops)[0].Insert? == ops[0].Insert?
  {
    CanonKind(ops[0]);
  }

  /** What the table and the map do on the first n operations. */
  lemma PrefixStep(s: Shape, ops: seq<Op>, n: nat, loadFactor: nat)
    requires n < |ops|
    ensures var next := Evolve(s, CanonOp(ops[0]), loadFactor);
            && Answers(s.keys, CanonOps(ops[..n + 1]))
            == [Answer(s.keys, CanonOp(ops[0]))] + Answers(next.keys, CanonOps(ops[1..][..n]))
            && Evolved(s, CanonOps(ops[..n + 1]), loadFactor) == Evolved(next, CanonOps(ops[1..][..n]), loadFactor)
  {
    hide Step, Answer, CanonOp, CanonOps, Evolve;
    assert ops[..n + 1][0] == ops[0] && ops[..n + 1][1..] == ops[1..][..n];
    CanonFirst(ops[..n + 1]);
    EvolveKeys(s, CanonOp(ops[0]), loadFactor);
  }

  lemma ServedFirst(s: Shape, ops: seq<Op>, loadFactor: nat)
    requires ops != []
    ensures Served(s, CanonOps(ops), loadFactor)
         == if ops[0].Insert? && NoRoom(s, loadFactor) then 0
            else 1 + Served(Evolve(s, CanonOp(ops[0]), loadFactor), CanonOps(ops[1..]), loadFactor)
  {
    hide Evolve, CanonOp, CanonOps, NoRoom;
    CanonFirst(ops);
  }

  lemma ServedNone(s: Shape, loadFactor: nat)
    ensures Served(s, CanonOps([]), loadFactor) == 0
  {
  }

  /** Every run of the table, with growth and lazy buckets wherever they happen, answers as the
      map of canonical keys and ends with the keys, the level and the buckets that the
      operations alone determine. It stops only at an insert for which there is no room. */
  method Replay(t: HashTable, ops: seq<Op>) returns (results: seq<Result>)
    requires t.Valid() && (forall op :: op in ops ==> WordKey(op))
    modifies t, t.segArr, t.list, t.repr`next, t.repr`tag, t.repr`isRemoved, t.list.alloc
    ensures t.Valid() && old(t.repr) <= t.repr && fresh(t.repr - old(t.repr))
    ensures |results| == Served(old(ShapeOf(t)), CanonOps(ops), t.loadFactor) && |results| <= |ops|
    ensures results == Answers(old(Model(t.nodes)), CanonOps(ops[..|results|]))
    ensures ShapeOf(t) == Evolved(old(ShapeOf(t)), CanonOps(ops[..|results|]), t.loadFactor)
    decreases |ops|
  {
    hide *;
    ghost var s := ShapeOf(t);
    ShapeKeys(t);
    NoOps(s, t.loadFactor);
    ServedNone(s, t.loadFactor);
    assert ops[..0] == [];
    if ops == [] {
      return [];
    }
    ServedFirst(s, ops, t.loadFactor);
    FullMeans(t);
    if ops[0].Insert? && t.Full() {
      return [];
    }
    assert ops[0] in ops && forall op :: op in ops[1..] ==> op in ops;
    var r := Perform(t, ops[0]);
    ShapeKeys(t);
    var rest := Replay(t, ops[1..]);
    results := [r] + rest;
    PrefixStep(s, ops, |rest|, t.loadFactor);
  }

  lemma ShapeKeys(t: HashTable)
    ensures ShapeOf(t).keys == Model(t.nodes)
  {
  }

  lemma FaithfulRun(ops: seq<Op>, keys: set<nat>, n: nat)
    requires Apart(keys) && Over(ops, keys) && n <= |ops|
    ensures Answers(map[], CanonOps(ops[..n])) == Answers(map[], ops[..n])
  {
    ApartFaithful(map[], map[], keys, ops[..n]);
  }

  /** A new table answers every sequence of operations as the mathematical map does, unless
      two of the keys differ in bit 63 alone. It answers the whole sequence if the map has
      room at every insert, and stops nowhere but at an insert for which there is none. */
  method RunNew(loadFactor: nat, ops: seq<Op>, ghost keys: set<nat>) returns (results: seq<Result>)
    requires (forall op :: op in ops ==> WordKey(op)) && Over(ops, keys)
    ensures |results| == Served(FRESH, CanonOps(ops), loadFactor) <= |ops|
    ensures results == Answers(map[], CanonOps(ops[..|results|]))
    ensures Apart(keys) ==> results == Answers(map[], ops[..|results|])
    ensures Roomy(map[], CanonOps(ops), loadFactor * MAX_BUCKETS) ==> |results| == |ops|
  {
    hide *;
    var t := new HashTable(loadFactor);
    FreshShape(t);
    ShapeKeys(t);
    results := Replay(t, ops);
    if Roomy(map[], CanonOps(ops), loadFactor * MAX_BUCKETS) {
      RoomyServed(CanonOps(ops), loadFactor);
    }
    if Apart(keys) {
      FaithfulRun(ops, keys, |results|);
    }
  }

  lemma ProbeServed(loadFactor: nat, a: nat, b: nat)
    ensures Served(FRESH, CanonOps(Probe(a, b)), loadFactor) == 2
  {
    hide Evolve, Canon;
    CanonFirst(Probe(a, b));
    CanonFirst(Probe(a, b)[1..]);
    assert Probe(a, b)[1..][1..] == [];
    ServedNone(FRESH, loadFactor);
  }

  /** On the table itself: of two keys that differ in bit 63 alone, inserting one makes the
      other present. */
  method ProbeNew(loadFactor: nat, a: nat, b: nat) returns (results: seq<Result>)
    requires a < Pow2(64) && b < Pow2(64) && a != b && Canon(a) == Canon(b)
    ensures results == [Bool(true), Bool(true)]
    ensures results != Answers(map[], Probe(a, b))
  {
    hide Canon, Pow2, CanonOps, Answers, Served;
    results := RunNew(loadFactor, Probe(a, b), {a, b});
    ProbeServed(loadFactor, a, b);
    CollisionObserved(a, b);
    assert Probe(a, b)[..2] == Probe(a, b);
  }
}
