/** The hash table over the ordered list (LF_HashTable.hpp), as values: which dummies and
    regular nodes it knows, how they agree with the chain, and what each step does to that. */
module TableState {
  import opened Common
  import opened Bits
  import opened Segments
  import opened SplitOrder
  import opened LiveNodes
  import opened OrderedList

  /** chain and dead are the list's; index holds the dummy of each initialised bucket, and
      nodes the live regular node of each key that is present. */
  datatype Table = Table(chain: seq<Node>, dead: set<Node>, index: map<nat, Node>, nodes: map<nat, Node>)

  /** A node's key decides its place in the order. */
  ghost predicate NodeOk(n: Node) {
    && n.data == MakeNode(n.data.isDummy, n.key, n.data.value, n.key)
    && n.key < Pow2(if n.data.isDummy then 63 else 64)
  }

  /** n is in the chain behind the ghosts. */
  ghost predicate Placed(chain: seq<Node>, n: Node) {
    exists k :: 2 <= k < |chain| && chain[k] == n
  }

  ghost predicate Ordered(chain: seq<Node>, dead: set<Node>) {
    && |chain| >= 3 && Sorted(chain)
    && (forall n :: n in chain && Placed(chain, n) ==> NodeOk(n))
    && (forall n :: n in dead ==> !n.data.isDummy)
  }

  /** Initialised buckets point to live dummies with their own index, and the parent of an
      initialised bucket is initialised. */
  ghost predicate IndexOk(chain: seq<Node>, dead: set<Node>, index: map<nat, Node>) {
    && 0 in index && |chain| >= 3 && chain[2] == index[0]
    && (forall b :: b in index ==> Placed(chain, index[b]) && index[b] !in dead && DummyOf(index[b], b))
    && (forall b :: b in index && b >= 1 ==> ParentIndex(b) in index)
  }

  predicate DummyOf(n: Node, b: nat) {
    n.data.isDummy && n.key == b
  }

  ghost predicate NodesOk(chain: seq<Node>, dead: set<Node>, nodes: map<nat, Node>) {
    forall c :: c in nodes ==> Placed(chain, nodes[c]) && nodes[c] !in dead && RegularOf(nodes[c], c)
  }

  predicate RegularOf(n: Node, c: nat) {
    !n.data.isDummy && Canon(n.key) == c
  }

  /** The live nodes are those dummies and those regular nodes. */
  ghost predicate Covered(chain: seq<Node>, dead: set<Node>, index: map<nat, Node>, nodes: map<nat, Node>) {
    forall n :: n in chain && Placed(chain, n) && n !in dead ==> Known(index, nodes, n)
  }

  ghost predicate Known(index: map<nat, Node>, nodes: map<nat, Node>, n: Node) {
    if n.data.isDummy then n.key in index && index[n.key] == n
    else Canon(n.key) in nodes && nodes[Canon(n.key)] == n
  }

  ghost predicate TableOk(t: Table) {
    && Ordered(t.chain, t.dead)
    && IndexOk(t.chain, t.dead, t.index)
    && NodesOk(t.chain, t.dead, t.nodes)
    && Covered(t.chain, t.dead, t.index, t.nodes)
  }

  /** The map the table stands for. */
  ghost function Model(nodes: map<nat, Node>): map<nat, nat> {
    map c | c in nodes :: nodes[c].data.value
  }

  // ---------------------------------------------------------------- searching

  lemma TrimPlaced(was: seq<Node>, now: seq<Node>, dead: set<Node>, k: nat, n: Node)
    requires Trimmed(was, now, dead, k) && k >= 2 && Distinct(was)
    ensures Placed(now, n) ==> Placed(was, n)
    ensures n !in dead && Placed(was, n) ==> Placed(now, n)
  {
    assert now[0] == now[..k + 1][0] == was[..k + 1][0] == was[0];
    assert now[1] == now[..k + 1][1] == was[..k + 1][1] == was[1];
    if Placed(now, n) {
      var i :| 2 <= i < |now| && now[i] == n;
      assert now[i] != now[0] && now[i] != now[1] && now[i] in was;
      var j :| 0 <= j < |was| && was[j] == n;
    }
    if n !in dead && Placed(was, n) {
      var i :| 2 <= i < |was| && was[i] == n;
      assert was[i] != was[0] && was[i] != was[1] && was[i] in now;
      var j :| 0 <= j < |now| && now[j] == n;
    }
  }

  /** Unlinking dead nodes changes nothing the table knows. */
  lemma TrimOk(t: Table, now: seq<Node>, k: nat)
    requires TableOk(t) && Distinct(t.chain) && Trimmed(t.chain, now, t.dead, k) && k >= 2
    ensures TableOk(t.(chain := now))
  {
    hide NodeOk, Known, Placed, DummyOf, RegularOf;
    forall n: Node | Placed(now, n) || Placed(t.chain, n)
      ensures Placed(now, n) ==> Placed(t.chain, n)
      ensures n !in t.dead && Placed(t.chain, n) ==> Placed(now, n)
    {
      TrimPlaced(t.chain, now, t.dead, k, n);
    }
    assert now[2] == now[..k + 1][2] == t.chain[..k + 1][2] == t.chain[2];
  }

  /** Dummies have even and regular nodes odd reversed hashes. */
  lemma NodeRank(n: Node)
    requires NodeOk(n)
    ensures n.data.hash == n.key
    ensures n.data.isDummy ==> n.data.rhash == Rank(n.key) && n.data.rhash % 2 == 0
    ensures !n.data.isDummy ==> n.data.rhash == Rank(UpperBit(n.key)) && n.data.rhash % 2 == 1
  {
    hide Pow2, Rank, UpperBit, LowBits;
    if n.data.isDummy {
      DummyRankUnique(n.key, n.key);
    } else {
      RegularRank(n.key);
    }
  }

  /** The place of the dummy of bucket b is taken only by that dummy. */
  lemma DummyPlace(n: Node, b: nat)
    requires NodeOk(n) && b < Pow2(63)
    ensures n.data.rhash == Rank(b) <==> DummyOf(n, b)
  {
    hide Pow2, Rank, UpperBit, LowBits;
    NodeRank(n);
    DummyRankUnique(b, b);
    if n.data.isDummy {
      DummyRankUnique(n.key, b);
    }
  }

  /** The place of a regular node is taken only by nodes of the same canonical key. */
  lemma RegularPlace(n: Node, key: nat)
    requires NodeOk(n)
    ensures n.data.rhash == Rank(UpperBit(key)) <==> RegularOf(n, Canon(key))
  {
    hide Pow2, Rank, UpperBit, LowBits, Canon;
    NodeRank(n);
    RegularRank(key);
    RegularRankUnique(n.key, key);
  }

  /** Behind the start k and up to p every node is below the rank r the search looks for. */
  lemma RanksBelow(chain: seq<Node>, dead: set<Node>, k: nat, p: nat, order: Order, r: nat)
    requires Sorted(chain) && 2 <= k && Passed(chain, dead, k, p, order)
    requires order == ToFind(r) && chain[k].data.rhash < r
    ensures forall i :: 2 <= i <= p ==> chain[i].data.rhash < r
  {
  }

  /** find and contain: the search stops at a node that is no dummy exactly when the key is
      present, and then at its node. */
  lemma FindOk(t: Table, k: nat, p: nat, key: nat, flag: bool)
    requires TableOk(t) && 2 <= k && Passed(t.chain, t.dead, k, p, ToFind(Rank(UpperBit(key))))
    requires t.chain[k].data.rhash < Rank(UpperBit(key))
    requires p + 1 < |t.chain| ==> Hit(t.chain, t.dead, p, ToFind(Rank(UpperBit(key))), flag)
    ensures p + 1 < |t.chain| && !flag <==> Canon(key) in t.nodes
    ensures Canon(key) in t.nodes ==> p + 1 < |t.chain| && t.chain[p + 1] == t.nodes[Canon(key)]
  {
    hide NodeOk, Rank, UpperBit, Canon, Passed;
    var r, c := Rank(UpperBit(key)), Canon(key);
    PassedRange(t.chain, t.dead, k, p, ToFind(r));
    if p + 1 < |t.chain| {
      assert Placed(t.chain, t.chain[p + 1]);
      RegularPlace(t.chain[p + 1], key);
    }
    if c in t.nodes {
      RanksBelow(t.chain, t.dead, k, p, ToFind(r), r);
      RegularPlace(t.nodes[c], key);
      var j :| 2 <= j < |t.chain| && t.chain[j] == t.nodes[c];
      assert p < j;
    }
  }

  // ---------------------------------------------------------------- inserting

  lemma SortedWith(chain: seq<Node>, p: nat, node: Node)
    requires Sorted(chain) && 2 <= p < |chain| && chain[p].data.rhash < node.data.rhash
    requires p + 1 < |chain| ==> node.data.rhash < chain[p + 1].data.rhash
    ensures Sorted(With(chain, p, node))
  {
    var w := With(chain, p, node);
    forall i, j | 2 <= i < j < |w|
      ensures w[i].data.rhash < w[j].data.rhash
    {
      assert w[i] == if i <= p then chain[i] else if i == p + 1 then node else chain[i - 1];
      assert w[j] == if j <= p then chain[j] else if j == p + 1 then node else chain[j - 1];
    }
  }

  lemma PlacedWith(chain: seq<Node>, p: nat, node: Node, n: Node)
    requires 2 <= p < |chain|
    ensures Placed(With(chain, p, node), n) <==> n == node || Placed(chain, n)
  {
    var w := With(chain, p, node);
    assert w[p + 1] == node;
    if Placed(chain, n) {
      var i :| 2 <= i < |chain| && chain[i] == n;
      assert w[if i <= p then i else i + 1] == n;
    }
    if Placed(w, n) {
      var i :| 2 <= i < |w| && w[i] == n;
      assert i != p + 1 ==> chain[if i <= p then i else i - 1] == n;
    }
  }

  lemma PlacedIn(chain: seq<Node>, n: Node)
    ensures Placed(chain, n) ==> n in chain
  {
  }

  lemma AllPlacedWith(chain: seq<Node>, p: nat, node: Node)
    requires 2 <= p < |chain|
    ensures var w := With(chain, p, node);
            && Placed(w, node)
            && (forall n :: n in w && Placed(w, n) ==> n == node || (n in chain && Placed(chain, n)))
            && (forall n :: n in chain && Placed(chain, n) ==> Placed(w, n))
  {
    var w := With(chain, p, node);
    hide With, Placed;
    PlacedWith(chain, p, node, node);
    forall n: Node | n in w && Placed(w, n)
      ensures n == node || (n in chain && Placed(chain, n))
    {
      PlacedWith(chain, p, node, n);
      PlacedIn(chain, n);
    }
    forall n: Node | n in chain && Placed(chain, n)
      ensures Placed(w, n)
    {
      PlacedWith(chain, p, node, n);
    }
  }

  /** The new node is between its neighbours. */
  ghost predicate Fits(chain: seq<Node>, p: nat, node: Node) {
    && 2 <= p < |chain| && chain[p].data.rhash < node.data.rhash
    && (p + 1 < |chain| ==> node.data.rhash < chain[p + 1].data.rhash)
  }

  lemma OrderedWith(chain: seq<Node>, dead: set<Node>, p: nat, node: Node)
    requires Ordered(chain, dead) && NodeOk(node) && Fits(chain, p, node)
    ensures Ordered(With(chain, p, node), dead)
  {
    SortedWith(chain, p, node);
    AllPlacedWith(chain, p, node);
    hide NodeOk, Placed, Sorted;
  }

  lemma IndexWith(chain: seq<Node>, dead: set<Node>, index: map<nat, Node>, p: nat, node: Node)
    requires IndexOk(chain, dead, index) && 2 <= p < |chain|
    ensures IndexOk(With(chain, p, node), dead, index)
  {
    AllPlacedWith(chain, p, node);
    assert With(chain, p, node)[2] == chain[2];
    forall b | b in index
      ensures index[b] in chain
    {
      PlacedIn(chain, index[b]);
    }
    hide Placed, DummyOf, With;
  }

  lemma NodesWith(chain: seq<Node>, dead: set<Node>, nodes: map<nat, Node>, p: nat, node: Node)
    requires NodesOk(chain, dead, nodes) && 2 <= p < |chain|
    ensures NodesOk(With(chain, p, node), dead, nodes)
  {
    AllPlacedWith(chain, p, node);
    forall c | c in nodes
      ensures nodes[c] in chain
    {
      PlacedIn(chain, nodes[c]);
    }
    hide Placed, RegularOf, With;
  }

  /** A new dummy in its place, for a bucket whose parent is initialised. */
  lemma InsertDummyOk(t: Table, p: nat, node: Node, b: nat)
    requires TableOk(t) && Fits(t.chain, p, node)
    requires NodeOk(node) && node !in t.dead && DummyOf(node, b)
    requires b !in t.index && ParentIndex(b) in t.index
    ensures TableOk(t.(chain := With(t.chain, p, node), index := t.index[b := node]))
  {
    hide NodeOk, Sorted, Passed;
    OrderedWith(t.chain, t.dead, p, node);
    IndexWith(t.chain, t.dead, t.index, p, node);
    NodesWith(t.chain, t.dead, t.nodes, p, node);
    AllPlacedWith(t.chain, p, node);
    hide Ordered, NodesOk, Placed, With, ParentIndex, Canon;
  }

  /** A new regular node in its place, for an absent key. */
  lemma InsertRegularOk(t: Table, p: nat, node: Node, c: nat)
    requires TableOk(t) && Fits(t.chain, p, node)
    requires NodeOk(node) && node !in t.dead && RegularOf(node, c) && c !in t.nodes
    ensures TableOk(t.(chain := With(t.chain, p, node), nodes := t.nodes[c := node]))
  {
    hide NodeOk, Sorted, Passed;
    OrderedWith(t.chain, t.dead, p, node);
    IndexWith(t.chain, t.dead, t.index, p, node);
    NodesWith(t.chain, t.dead, t.nodes, p, node);
    AllPlacedWith(t.chain, p, node);
    hide Ordered, IndexOk, Placed, With, Canon;
  }

  /** Where a bucket's search for a dummy's place ends: right behind the nodes of smaller rank. */
  lemma DummyFits(t: Table, k: nat, p: nat, b: nat, node: Node)
    requires TableOk(t) && 2 <= k && Passed(t.chain, t.dead, k, p, ToInsert(Rank(b)))
    requires p + 1 < |t.chain| ==> Stops(ToInsert(Rank(b)), t.chain[p + 1])
    requires 1 <= b < Pow2(63) && b !in t.index
    requires ParentIndex(b) in t.index && t.chain[k] == t.index[ParentIndex(b)]
    requires NodeOk(node) && DummyOf(node, b)
    ensures Fits(t.chain, p, node)
  {
    hide NodeOk, Rank, Pow2, Canon, ParentIndex;
    PassedRange(t.chain, t.dead, k, p, ToInsert(Rank(b)));
    DummyPlace(node, b);
    ParentFirst(b);
    assert Placed(t.chain, t.chain[k]) && Placed(t.chain, t.chain[p]);
    NodeRank(t.chain[k]);
    if p > k {
      DummyPlace(t.chain[p], b);
    }
  }

  /** The same for a regular node, although its search uses the plain hash. */
  lemma RegularFits(t: Table, k: nat, p: nat, key: nat, s: nat, node: Node)
    requires TableOk(t) && 2 <= k && Passed(t.chain, t.dead, k, p, ToInsert(Rank(key)))
    requires p + 1 < |t.chain| ==> t.chain[p + 1] !in t.dead && Stops(ToInsert(Rank(key)), t.chain[p + 1])
    requires key < Pow2(64) && s <= 63 && Canon(key) !in t.nodes
    requires LowBits(key, s) in t.index && t.chain[k] == t.index[LowBits(key, s)]
    requires NodeOk(node) && RegularOf(node, Canon(key))
    ensures Fits(t.chain, p, node)
  {
    hide NodeOk, Rank, Pow2, Canon, LowBits, UpperBit;
    PassedRange(t.chain, t.dead, k, p, ToInsert(Rank(key)));
    BucketFirst(key, s);
    RegularRank(key);
    PlainRank(key);
    RegularPlace(node, key);
    assert Placed(t.chain, t.chain[k]) && Placed(t.chain, t.chain[p]);
    NodeRank(t.chain[k]);
    if p > k {
      RegularPlace(t.chain[p], key);
    }
    if p + 1 < |t.chain| {
      assert Placed(t.chain, t.chain[p + 1]);
      RegularPlace(t.chain[p + 1], key);
    }
  }

  // ---------------------------------------------------------------- removing

  lemma RemoveOk(t: Table, p: nat, c: nat)
    requires TableOk(t) && Distinct(t.chain)
    requires c in t.nodes && p < |t.chain| && t.chain[p] == t.nodes[c]
    ensures TableOk(t.(dead := t.dead + {t.chain[p]}, nodes := t.nodes - {c}))
  {
    hide NodeOk, Placed, Sorted, Canon, ParentIndex;
  }

  lemma RemoveSize(nodes: map<nat, Node>, c: nat)
    requires c in nodes
    ensures |nodes - {c}| == |nodes| - 1
    ensures Model(nodes - {c}) == Model(nodes) - {c}
  {
    assert nodes == (nodes - {c})[c := nodes[c]];
  }

  lemma InsertSize(nodes: map<nat, Node>, c: nat, node: Node)
    requires c !in nodes
    ensures |nodes[c := node]| == |nodes| + 1
    ensures Model(nodes[c := node]) == Model(nodes)[c := node.data.value]
  {
  }

  // ---------------------------------------------------------------- locality

  /** Every node a lookup inspects before the stopping one is in the bucket it started from. */
  lemma SearchStaysInBucket(t: Table, k: nat, p: nat, key: nat, s: nat, i: nat)
    requires TableOk(t) && 2 <= k && Passed(t.chain, t.dead, k, p, ToFind(Rank(UpperBit(key))))
    requires s <= 63 && LowBits(key, s) in t.index && t.chain[k] == t.index[LowBits(key, s)]
    requires k <= i <= p
    ensures LowBits(t.chain[i].data.hash, s) == LowBits(key, s)
  {
    hide Rank, Pow2, Canon, LowBits, UpperBit;
    var n, dummy := t.chain[i], t.chain[k];
    assert Placed(t.chain, n) && Placed(t.chain, dummy);
    NodeRank(n);
    NodeRank(dummy);
    BucketFirst(key, s);
    Pow2Monotone(63, 64);
    BucketLocality(key, n.key, s, !n.data.isDummy);
  }

  /** A bucket is only a shortcut: the search from its dummy ends where the search from the
      dummy of bucket 0 ends. */
  lemma ShortcutIsScan(t: Table, k: nat, key: nat, s: nat, n: nat, prev: Node, curr: Node?)
    requires TableOk(t) && s <= 63 && 2 <= k < |t.chain|
    requires LowBits(key, s) in t.index && t.chain[k] == t.index[LowBits(key, s)]
    requires FirstStop(Live(t.chain[k + 1..], t.dead), n, ToFind(Rank(UpperBit(key))), prev, t.chain[k], curr)
    ensures FirstStop(Live(t.chain[3..], t.dead), |Live(t.chain[3..k + 1], t.dead)| + n,
                      ToFind(Rank(UpperBit(key))), prev, t.chain[2], curr)
  {
    hide TableOk, FirstStop, Stops, Rank, Pow2, LowBits, UpperBit, Live;
    TableLength(t);
    var a, b := t.chain[3..k + 1], t.chain[k + 1..];
    SplitAt(t.chain, 3, k + 1);
    LiveConcat(a, b, t.dead);
    BeforeBucket(t, k, key, s);
    FirstStopBehind(Live(a, t.dead), Live(b, t.dead), n, ToFind(Rank(UpperBit(key))), prev, t.chain[k],
                    curr, t.chain[2]);
  }

  lemma SplitAt<T>(q: seq<T>, i: nat, j: nat)
    requires i <= j <= |q|
    ensures q[i..] == q[i..j] + q[j..]
  {
  }

  lemma TableLength(t: Table)
    requires TableOk(t)
    ensures |t.chain| >= 3
  {
  }

  lemma BeforeBucket(t: Table, k: nat, key: nat, s: nat)
    requires TableOk(t) && s <= 63 && 2 <= k < |t.chain|
    requires LowBits(key, s) in t.index && t.chain[k] == t.index[LowBits(key, s)]
    ensures var l := Live(t.chain[3..k + 1], t.dead);
            && t.chain[k] == (if l == [] then t.chain[2] else l[|l| - 1])
            && forall i :: 0 <= i < |l| ==> !Stops(ToFind(Rank(UpperBit(key))), l[i])
  {
    hide Rank, Pow2, Canon, LowBits, UpperBit, Live, Known, NodeOk;
    var a := t.chain[3..k + 1];
    var l := Live(a, t.dead);
    assert Placed(t.chain, t.chain[k]);
    NodeRank(t.chain[k]);
    BucketFirst(key, s);
    forall i | 0 <= i < |l|
      ensures !Stops(ToFind(Rank(UpperBit(key))), l[i])
    {
      LiveMember(a, t.dead, l[i]);
      var j :| 0 <= j < |a| && a[j] == l[i];
      assert t.chain[3 + j] == l[i];
    }
    LiveNone<Node>(t.dead);
    if k > 2 {
      LiveAround(a, t.dead, k - 3);
      assert a[k - 2..] == [];
    }
  }

  lemma FirstStopBehind(l: seq<Node>, rest: seq<Node>, n: nat, order: Order, prev: Node, start: Node,
                        curr: Node?, first: Node)
    requires FirstStop(rest, n, order, prev, start, curr)
    requires forall i :: 0 <= i < |l| ==> !Stops(order, l[i])
    requires start == if l == [] then first else l[|l| - 1]
    ensures FirstStop(l + rest, |l| + n, order, prev, first, curr)
  {
    hide Stops;
    forall i | 0 <= i < |l| + n
      ensures !Stops(order, (l + rest)[i])
    {
      assert (l + rest)[i] == if i < |l| then l[i] else rest[i - |l|];
    }
  }

  // ---------------------------------------------------------------- regular nodes

  /** The regular nodes among the live ones, in order. */
  ghost function Regulars(live: seq<Node>): seq<Node> {
    if live == [] then []
    else (if live[0].data.isDummy then [] else [live[0]]) + Regulars(live[1..])
  }

  lemma RegularsStep(first: Node, rest: seq<Node>)
    ensures Regulars([first] + rest) == (if first.data.isDummy then [] else [first]) + Regulars(rest)
    ensures Regulars([]) == []
  {
    assert ([first] + rest)[1..] == rest;
  }

  lemma {:induction false} RegularsConcat(a: seq<Node>, b: seq<Node>)
    ensures Regulars(a + b) == Regulars(a) + Regulars(b)
  {
    if a == [] {
      assert a + b == b;
    } else {
      RegularsConcat(a[1..], b);
      RegularsStep(a[0], a[1..] + b);
      RegularsStep(a[0], a[1..]);
      hide Regulars;
      assert a + b == [a[0]] + (a[1..] + b) && a == [a[0]] + a[1..];
    }
  }

  /** A new dummy leaves the sequence of regular nodes as it is. */
  lemma DummyKeepsRegulars(chain: seq<Node>, dead: set<Node>, p: nat, node: Node)
    requires p < |chain| && chain[p] !in dead && node !in dead && node.data.isDummy
    ensures Regulars(Live(With(chain, p, node), dead)) == Regulars(Live(chain, dead))
  {
    hide Live, With, Regulars;
    InsertLive(chain, dead, p, node);
    LiveAround(chain, dead, p);
    var a, b := Live(chain[..p], dead) + [chain[p]], Live(chain[p + 1..], dead);
    assert Live(With(chain, p, node), dead) == a + ([node] + b);
    RegularsConcat(a, [node] + b);
    RegularsStep(node, b);
    RegularsConcat(a, b);
  }

  // ---------------------------------------------------------------- for the class

  ghost predicate Within(chain: seq<Node>, repr: set<Node>) {
    forall n :: n in chain ==> n in repr
  }

  /** The position of the dummy of an initialised bucket. */
  lemma Position(t: Table, b: nat) returns (k: nat)
    requires TableOk(t) && b in t.index
    ensures 2 <= k < |t.chain| && t.chain[k] == t.index[b] && t.chain[k] !in t.dead
    ensures t.chain[k].data.rhash == Rank(b)
  {
    hide NodeOk;
    k :| 2 <= k < |t.chain| && t.chain[k] == t.index[b];
    assert Placed(t.chain, t.chain[k]);
    NodeRank(t.chain[k]);
  }

  /** What a lookup of key in bucket b leaves behind and means. */
  lemma LookOk(t: Table, now: seq<Node>, repr: set<Node>, b: nat, k: nat, p: nat, key: nat, s: nat, flag: bool)
    requires TableOk(t) && Distinct(t.chain) && Within(t.chain, repr)
    requires b in t.index && b == LowBits(key, s) && s <= 63
    requires 2 <= k < |t.chain| && t.chain[k] == t.index[b] && t.chain[k].data.rhash == Rank(b)
    requires Trimmed(t.chain, now, t.dead, k) && Passed(now, t.dead, k, p, ToFind(Rank(UpperBit(key))))
    requires p + 1 < |now| ==> Hit(now, t.dead, p, ToFind(Rank(UpperBit(key))), flag)
    ensures TableOk(t.(chain := now)) && Within(now, repr)
    ensures p + 1 < |now| && !flag <==> Canon(key) in t.nodes
    ensures Canon(key) in t.nodes ==> p + 1 < |now| && now[p + 1] == t.nodes[Canon(key)]
    ensures Regulars(Live(now, t.dead)) == Regulars(Live(t.chain, t.dead))
    ensures forall n :: n in now ==> n in t.chain
  {
    TrimOk(t, now, k);
    BucketFirst(key, s);
    TrimRest(t.chain, now, t.dead, k);
    hide TableOk, Passed, Hit, Canon, UpperBit, Rank, LowBits, Live, Regulars;
    FindOk(t.(chain := now), k, p, key, flag);
  }

  /** The answer of a lookup told on the live nodes of the whole table: what a search that starts
      at the dummy of bucket 0 ends with. */
  ghost predicate Scanned(t: Table, key: nat, n: nat, prev: Node, curr: Node?) {
    && |t.chain| >= 3
    && FirstStop(Live(t.chain[3..], t.dead), n, ToFind(Rank(UpperBit(key))), prev, t.chain[2], curr)
  }

  lemma LookIsScan(t: Table, now: seq<Node>, k: nat, p: nat, key: nat, s: nat) returns (n: nat)
    requires TableOk(t) && s <= 63 && 2 <= k < |t.chain|
    requires LowBits(key, s) in t.index && t.chain[k] == t.index[LowBits(key, s)]
    requires Trimmed(t.chain, now, t.dead, k) && Passed(now, t.dead, k, p, ToFind(Rank(UpperBit(key))))
    requires p + 1 < |now| ==> now[p + 1] !in t.dead && Stops(ToFind(Rank(UpperBit(key))), now[p + 1])
    ensures p < |now| && Scanned(t, key, n, now[p], if p + 1 < |now| then now[p + 1] else null)
  {
    hide TableOk, Trimmed, Passed, Stops, LowBits, UpperBit, Rank, Live, FirstStop;
    var order := ToFind(Rank(UpperBit(key)));
    PassedRange(now, t.dead, k, p, order);
    SearchMeaning(t.chain, now, t.dead, k, p, order);
    ShortcutIsScan(t, k, key, s, p - k, now[p], if p + 1 < |now| then now[p + 1] else null);
    n := |Live(t.chain[3..k + 1], t.dead)| + (p - k);
  }

  lemma HitStops(chain: seq<Node>, dead: set<Node>, p: nat, r: nat, flag: bool)
    requires Hit(chain, dead, p, ToFind(r), flag)
    ensures p + 1 < |chain| && chain[p + 1] !in dead && Stops(ToFind(r), chain[p + 1])
    ensures flag == FlagAfter(ToFind(r), chain[p + 1], false)
  {
  }

  lemma TrimRest(was: seq<Node>, now: seq<Node>, dead: set<Node>, k: nat)
    requires Trimmed(was, now, dead, k) && k < |was|
    ensures now[k] == was[k] && Live(now, dead) == Live(was, dead)
    ensures forall n :: n in now ==> n in was
  {
    assert now[k] == now[..k + 1][k] == was[..k + 1][k];
  }

  /** In an empty list the dummy of bucket 0 goes behind the two ghosts. */
  lemma StartPlace(was: seq<Node>, mid: seq<Node>, p: nat)
    requires |was| == 2 && Distinct(was) && was[1].key == 0 && Trimmed(was, mid, {}, 0) && Passed(mid, {}, 0,
        p, ByKey(0))
    requires p + 1 < |mid| ==> Stops(ByKey(0), mid[p + 1])
    ensures p == 1 && mid == was
  {
    assert mid[0] == mid[..1][0] == was[..1][0] == was[0];
    assert was[1] in was && was[1] in mid;
    assert |mid| == 2 ==> mid[1] == was[1];
  }

  lemma StartOk(was: seq<Node>, node: Node)
    requires |was| == 2 && node.key == 0 && node.data == MakeNode(true, 0, 0, 0)
    ensures TableOk(Table(was + [node], {}, map[0 := node], map[]))
  {
    var w := was + [node];
    assert Placed(w, node) by {
      assert w[2] == node;
    }
    assert NodeOk(node) by {
      hide Rank;
    }
  }

  lemma MakeNodeKey(isDummy: bool, key: nat, value: nat)
    ensures MakeNode(isDummy, key, value, key).key == key
    ensures MakeNode(isDummy, key, value, key).value == value
    ensures MakeNode(isDummy, key, value, key).isDummy == isDummy
  {
  }

  lemma WithLast(was: seq<Node>, node: Node)
    requires |was| == 2
    ensures With(was, 1, node) == was + [node]
  {
  }

  lemma WithinNew(was: seq<Node>, node: Node, repr: set<Node>)
    requires Within(was, repr)
    ensures Within(was + [node], repr + {node})
  {
  }

  /** What inserting the dummy of bucket b behind its parent's leaves behind. */
  lemma DummyInserted(t: Table, mid: seq<Node>, repr: set<Node>, k: nat, p: nat, b: nat, node: Node)
    requires TableOk(t) && Distinct(t.chain) && Within(t.chain, repr)
    requires 1 <= b < Pow2(63) && b !in t.index && ParentIndex(b) in t.index
    requires 2 <= k < |t.chain| && t.chain[k] == t.index[ParentIndex(b)]
    requires Trimmed(t.chain, mid, t.dead, k) && Passed(mid, t.dead, k, p, ToInsert(Rank(b))) && p < |mid|
    requires p + 1 < |mid| ==> Stops(ToInsert(Rank(b)), mid[p + 1])
    requires node !in t.dead && node.key == b && node.data == MakeNode(true, b, 0, b)
    ensures TableOk(t.(chain := With(mid, p, node), index := t.index[b := node]))
    ensures Within(With(mid, p, node), repr + {node})
    ensures Regulars(Live(With(mid, p, node), t.dead)) == Regulars(Live(t.chain, t.dead))
    ensures forall n :: n in With(mid, p, node) ==> n in t.chain || n == node
  {
    TrimOk(t, mid, k);
    TrimRest(t.chain, mid, t.dead, k);
    LiveEnd(mid, t.dead, k, p, ToInsert(Rank(b)));
    NewNodeOk(node, b);
    hide TableOk, Passed, Stops, ParentIndex, Rank, Live, Regulars, Pow2, NodeOk, DummyOf, MakeNode, Trimmed;
    var u := t.(chain := mid);
    DummyFits(u, k, p, b, node);
    InsertDummyOk(u, p, node, b);
    WithinWith(t.chain, mid, repr, p, node);
    DummyKeepsRegulars(mid, t.dead, p, node);
  }

  lemma LiveEnd(chain: seq<Node>, dead: set<Node>, k: nat, p: nat, order: Order)
    requires Passed(chain, dead, k, p, order) && chain[k] !in dead
    ensures chain[p] !in dead
  {
  }

  lemma NewNodeOk(node: Node, b: nat)
    requires b < Pow2(63) && node.key == b && node.data == MakeNode(true, b, 0, b)
    ensures NodeOk(node) && DummyOf(node, b) && node.data.isDummy
  {
  }

  lemma WithinWith(was: seq<Node>, mid: seq<Node>, repr: set<Node>, p: nat, node: Node)
    requires Within(was, repr) && p < |mid| && forall n :: n in mid ==> n in was
    ensures Within(With(mid, p, node), repr + {node})
    ensures forall n :: n in With(mid, p, node) ==> n in was || n == node
  {
  }

  lemma RootBucket(t: Table)
    requires TableOk(t)
    ensures 0 in t.index
  {
  }

  lemma ZeroIndex(hash: nat)
    ensures GlobalIndex(hash, 0) == 0
  {
  }

  /** What inserting a regular node for an absent key leaves behind. */
  lemma RegularInserted(t: Table, mid: seq<Node>, repr: set<Node>, k: nat, p: nat, key: nat, value: nat, s: nat,
                        node: Node)
    requires TableOk(t) && Distinct(t.chain) && Within(t.chain, repr)
    requires key < Pow2(64) && s <= 63 && Canon(key) !in t.nodes
    requires LowBits(key, s) in t.index
    requires 2 <= k < |t.chain| && t.chain[k] == t.index[LowBits(key, s)]
    requires Trimmed(t.chain, mid, t.dead, k) && Passed(mid, t.dead, k, p, ToInsert(Rank(key))) && p < |mid|
    requires p + 1 < |mid| ==> mid[p + 1] !in t.dead && Stops(ToInsert(Rank(key)), mid[p + 1])
    requires node !in t.dead && node.key == key && node.data == MakeNode(false, key, value, key)
    ensures TableOk(t.(chain := With(mid, p, node), nodes := t.nodes[Canon(key) := node]))
    ensures Within(With(mid, p, node), repr + {node})
    ensures forall n :: n in With(mid, p, node) ==> n in t.chain || n == node
  {
    TrimOk(t, mid, k);
    TrimRest(t.chain, mid, t.dead, k);
    NewRegularOk(node, key, value);
    hide TableOk, Passed, Stops, LowBits, Canon, Rank, Live, Regulars, Pow2, NodeOk, RegularOf, MakeNode, Trimmed;
    var u := t.(chain := mid);
    RegularFits(u, k, p, key, s, node);
    InsertRegularOk(u, p, node, Canon(key));
    WithinWith(t.chain, mid, repr, p, node);
  }

  lemma NewRegularOk(node: Node, key: nat, value: nat)
    requires key < Pow2(64) && node.key == key && node.data == MakeNode(false, key, value, key)
    ensures NodeOk(node) && RegularOf(node, Canon(key)) && node.data.value == value
  {
  }

  /** What removing the live node at position p leaves behind. */
  lemma NodeRemoved(t: Table, p: nat, c: nat)
    requires TableOk(t) && Distinct(t.chain)
    requires c in t.nodes && p < |t.chain| && t.chain[p] == t.nodes[c]
    ensures TableOk(t.(dead := t.dead + {t.chain[p]}, nodes := t.nodes - {c}))
    ensures |t.nodes - {c}| == |t.nodes| - 1
  {
    RemoveOk(t, p, c);
    RemoveSize(t.nodes, c);
  }

  /** prev and node are live neighbours at positions p and p + 1. */
  ghost predicate At(chain: seq<Node>, dead: set<Node>, repr: set<Node>, p: nat, prev: Node, node: Node) {
    && 2 <= p && p + 1 < |chain| && chain[p] == prev && chain[p + 1] == node
    && prev !in dead && node !in dead && prev in repr && node in repr
  }
}
