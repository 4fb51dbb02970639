/** The ordered list with marked edges (LF_List.hpp), as the hash table instantiates it.
    A mark on the edge out of a node says that the node the edge leads to is removed. */
module OrderedList {
  import opened Common
  import Bits
  import opened SplitOrder
  import opened LiveNodes
  import HazardState
  import HazardRuns
  import Hazard

  class Node {
    /** The first of the pair: the plain hash. */
    const key: nat
    const data: HashNode
    var next: Node?
    var tag: bool
    var isRemoved: bool

    constructor (key: nat, data: HashNode)
      ensures this.key == key && this.data == data
      ensures next == null && !tag && !isRemoved
    {
      this.key, this.data := key, data;
      next, tag, isRemoved := null, false, false;
    }
  }

  // ---------------------------------------------------------------- search orders

  /** bit_comporator on the plain hashes, find_comporator, and insert_comporator. */
  datatype Order = ByKey(key: nat) | ToFind(rhash: nat) | ToInsert(rhash: nat)

  predicate Stops(order: Order, n: Node) {
    match order
    case ByKey(key) => Rank(key) < Rank(n.key)
    case ToFind(r) => r <= n.data.rhash
    case ToInsert(r) => r < n.data.rhash
  }

  predicate FlagAfter(order: Order, n: Node, was: bool) {
    match order
    case ByKey(_) => was
    case ToFind(r) => n.data.isDummy || r < n.data.rhash
    case ToInsert(_) => n.data.isDummy
  }

  class Comparator {
    const order: Order
    var isDummy: bool

    constructor (order: Order)
      ensures this.order == order && !isDummy
    {
      this.order, isDummy := order, false;
    }

    method Call(n: Node) returns (found: bool)
      modifies this
      ensures found == Stops(order, n) && isDummy == FlagAfter(order, n, old(isDummy))
      ensures order.ByKey? || isDummy == FlagAfter(order, n, false)
    {
      match order {
        case ByKey(key) =>
          found := Rank(key) < Rank(n.key);
        case ToFind(r) =>
          isDummy := n.data.isDummy;
          if r < n.data.rhash {
            isDummy := true;
            return true;
          }
          found := r == n.data.rhash;
        case ToInsert(r) =>
          found := r < n.data.rhash;
          isDummy := n.data.isDummy;
      }
    }
  }

  // ---------------------------------------------------------------- the shape of the list

  /** Edges follow the chain, and an edge is marked exactly when it leads to a dead node. */
  ghost predicate Linked(chain: seq<Node>, dead: set<Node>)
    reads chain`next, chain`tag
  {
    && (forall i :: 0 <= i < |chain| - 1 ==>
          chain[i].next == chain[i + 1] && chain[i].tag == (chain[i + 1] in dead))
    && (|chain| >= 1 ==> chain[|chain| - 1].next == null && !chain[|chain| - 1].tag)
  }

  /** Two live ghosts first; the tail is the last live node; and the counter counts the live
      nodes after the ghosts. */
  ghost predicate Shape(chain: seq<Node>, dead: set<Node>, head: Node, tail: Node, counter: int) {
    && |chain| >= 2 && Distinct(chain)
    && chain[0] == head && chain[0] !in dead && chain[1] !in dead
    && chain[1].key == 0 && chain[1].data == GHOST
    && LastIs(chain, dead, tail)
    && counter == |Live(chain, dead)| - 2
  }

  /** A dead node is retired once it is unlinked, exactly once, and never before; and no node
      goes both through retirement and through the list's own deleter, or twice through
      either. */
  ghost predicate RetiredOnce(chain: seq<Node>, dead: set<Node>, retirements: multiset<Node>, deleted: seq<Node>) {
    && (forall n :: n in chain ==> n !in retirements && n !in deleted)
    && (forall n :: n in dead && n !in chain ==> n in retirements)
    && (forall n :: n in retirements ==> retirements[n] == 1 && n !in deleted)
    && Distinct(deleted)
  }

  /** Reversed hashes increase along the chain behind the ghosts, dead nodes included. */
  ghost predicate Sorted(chain: seq<Node>) {
    forall i, j :: 2 <= i < j < |chain| ==> chain[i].data.rhash < chain[j].data.rhash
  }

  /** now is was without some dead nodes behind position k. */
  ghost predicate Trimmed(was: seq<Node>, now: seq<Node>, dead: set<Node>, k: nat) {
    && k < |now| <= |was| && now[..k + 1] == was[..k + 1]
    && Distinct(now)
    && (forall n :: n in now ==> n in was)
    && (forall n :: n in was && n !in dead ==> n in now)
    && Live(now, dead) == Live(was, dead)
    && (Sorted(was) ==> Sorted(now))
  }

  lemma TrimStartShape(chain: seq<Node>, dead: set<Node>, k: nat, head: Node, tail: Node, counter: int)
    requires k < |chain| && Shape(chain, dead, head, tail, counter)
    ensures Trimmed(chain, chain, dead, k)
  {
  }

  lemma TrimStep(was: seq<Node>, now: seq<Node>, dead: set<Node>, k: nat, p: nat)
    requires Trimmed(was, now, dead, k) && k < p < |now| && p >= 2 && now[p] in dead
    ensures Trimmed(was, Without(now, p), dead, k)
  {
    WithoutFacts(now, p);
    UnlinkDead(now, dead, p);
    assert Without(now, p)[..k + 1] == now[..k + 1];
  }

  lemma ShapeDistinct(chain: seq<Node>, dead: set<Node>, head: Node, tail: Node, counter: int)
    requires Shape(chain, dead, head, tail, counter)
    ensures Distinct(chain)
  {
  }

  lemma ShapeHead(chain: seq<Node>, dead: set<Node>, head: Node, tail: Node, counter: int)
    requires Shape(chain, dead, head, tail, counter)
    ensures |chain| >= 2 && chain[0] == head
  {
  }

  lemma ShapeSize(chain: seq<Node>, dead: set<Node>, head: Node, tail: Node, counter: int)
    requires Shape(chain, dead, head, tail, counter)
    ensures head != tail && counter >= 0
  {
    AfterLast(chain, dead, 0, tail);
    LiveAround(chain, dead, 1);
    LiveFront(chain, dead, 1);
    LiveAround(chain, dead, 0);
    LiveAround(chain[1..], dead, 0);
  }

  lemma ShapeStep(chain: seq<Node>, dead: set<Node>, head: Node, tail: Node, counter: int, p: nat)
    requires Shape(chain, dead, head, tail, counter) && p < |chain| && chain[p] in dead
    ensures p >= 2 && Shape(Without(chain, p), dead, head, tail, counter)
  {
    WithoutFacts(chain, p);
    UnlinkDead(chain, dead, p);
  }

  lemma RetireStep(chain: seq<Node>, dead: set<Node>, retirements: multiset<Node>, deleted: seq<Node>, p: nat)
    requires p < |chain| && Distinct(chain) && RetiredOnce(chain, dead, retirements, deleted)
    ensures RetiredOnce(Without(chain, p), dead, retirements + multiset{chain[p]}, deleted)
  {
    WithoutFacts(chain, p);
    assert chain[p] in chain;
  }

  /** No node of the chain has been deleted or waits for deletion. */
  lemma ChainNotFreed(chain: seq<Node>, dead: set<Node>, view: HazardState.State<Node>, deleted: seq<Node>, n: Node)
    requires RetiredOnce(chain, dead, view.retirements, deleted) && HazardState.Valid(view)
    requires n in chain
    ensures n !in view.freed && n !in view.pending && n !in deleted
  {
    HazardState.WaitingWasRetired(view, n);
  }

  /** TrimStep for the dead node behind a live one. */
  lemma TrimBehind(was: seq<Node>, now: seq<Node>, dead: set<Node>, p: nat, head: Node, tail: Node, counter: int)
    requires Trimmed(was, now, dead, p) && Shape(now, dead, head, tail, counter)
    requires p + 1 < |now| && now[p + 1] in dead
    ensures Trimmed(was, Without(now, p + 1), dead, p)
    ensures Without(now, p + 1)[p] == now[p]
  {
    TrimStep(was, now, dead, p, p + 1);
  }

  lemma TrimTrans(first: seq<Node>, second: seq<Node>, third: seq<Node>, dead: set<Node>, k: nat, p: nat)
    requires Trimmed(first, second, dead, k) && Trimmed(second, third, dead, p) && k <= p
    ensures Trimmed(first, third, dead, k)
  {
    assert third[..k + 1] == third[..p + 1][..k + 1] == second[..p + 1][..k + 1];
  }

  /** The nodes strictly after k up to p are live and do not stop the search. */
  ghost predicate Passed(chain: seq<Node>, dead: set<Node>, k: nat, p: nat, order: Order) {
    && k <= p < |chain|
    && forall i :: k < i <= p ==> chain[i] !in dead && !Stops(order, chain[i])
  }

  lemma PassedTrim(was: seq<Node>, now: seq<Node>, dead: set<Node>, k: nat, p: nat, order: Order)
    requires Passed(was, dead, k, p, order) && Trimmed(was, now, dead, p)
    ensures Passed(now, dead, k, p, order) && p < |now| <= |was| && now[p] == was[p]
  {
    assert forall i :: 0 <= i <= p ==> now[i] == now[..p + 1][i] == was[..p + 1][i] == was[i];
  }

  /** What a search keeps when dead nodes behind its position go. */
  lemma SearchStep(first: seq<Node>, was: seq<Node>, now: seq<Node>, dead: set<Node>, k: nat, p: nat, order: Order)
    requires Trimmed(first, was, dead, k) && Passed(was, dead, k, p, order) && Trimmed(was, now, dead, p)
    ensures Trimmed(first, now, dead, k) && Passed(now, dead, k, p, order)
    ensures |now| <= |was|
  {
    hide Trimmed, Passed;
    PassedRange(was, dead, k, p, order);
    TrimTrans(first, was, now, dead, k, p);
    PassedTrim(was, now, dead, k, p, order);
  }

  lemma PassedRange(chain: seq<Node>, dead: set<Node>, k: nat, p: nat, order: Order)
    requires Passed(chain, dead, k, p, order)
    ensures k <= p < |chain|
  {
  }

  lemma LinkedAt(chain: seq<Node>, dead: set<Node>, p: nat)
    requires Linked(chain, dead) && p < |chain|
    ensures chain[p].next == if p + 1 < |chain| then chain[p + 1] else null
    ensures chain[p].tag == (p + 1 < |chain| && chain[p + 1] in dead)
  {
  }

  lemma PassedStart(chain: seq<Node>, dead: set<Node>, k: nat, order: Order)
    requires k < |chain|
    ensures Passed(chain, dead, k, k, order)
  {
  }

  lemma PassedNext(chain: seq<Node>, dead: set<Node>, k: nat, p: nat, order: Order)
    requires Passed(chain, dead, k, p, order)
    requires p + 1 < |chain| && chain[p + 1] !in dead && !Stops(order, chain[p + 1])
    ensures Passed(chain, dead, k, p + 1, order)
  {
  }

  lemma TrimMember(was: seq<Node>, now: seq<Node>, dead: set<Node>, k: nat, n: Node)
    requires Trimmed(was, now, dead, k) && n in now
    ensures n in was
  {
  }

  /** The node behind p stops the search, and the comparator's flag is about it. */
  ghost predicate Hit(chain: seq<Node>, dead: set<Node>, p: nat, order: Order, flag: bool) {
    && p + 1 < |chain| && chain[p + 1] !in dead && Stops(order, chain[p + 1])
    && (order.ByKey? || flag == FlagAfter(order, chain[p + 1], false))
  }

  /** The answer of a search told on the live nodes l behind the start alone: it has passed
      those that do not stop it, and either stands at the first that does or has passed all. */
  ghost predicate FirstStop(l: seq<Node>, n: nat, order: Order, prev: Node, start: Node, curr: Node?) {
    && n <= |l| && (forall i :: 0 <= i < n ==> !Stops(order, l[i]))
    && prev == (if n == 0 then start else l[n - 1])
    && (if n < |l| then curr == l[n] && Stops(order, l[n]) else curr == null)
  }

  lemma TrimParts(was: seq<Node>, now: seq<Node>, dead: set<Node>, k: nat)
    requires Trimmed(was, now, dead, k)
    ensures k < |now| <= |was| && now[..k + 1] == was[..k + 1] && Live(now, dead) == Live(was, dead)
  {
  }

  /** So dead nodes, and whether they are still linked, have no influence on a search. */
  lemma SearchMeaning(was: seq<Node>, now: seq<Node>, dead: set<Node>, k: nat, p: nat, order: Order)
    requires Trimmed(was, now, dead, k) && Passed(now, dead, k, p, order)
    requires p + 1 < |now| ==> now[p + 1] !in dead && Stops(order, now[p + 1])
    ensures FirstStop(Live(was[k + 1..], dead), p - k, order, now[p], was[k],
                      if p + 1 < |now| then now[p + 1] else null)
  {
    hide Live, Stops, Trimmed;
    TrimParts(was, now, dead, k);
    LiveRest(was, now, dead, k + 1);
    LivePassed(now, dead, k + 1, p + 1);
    LiveFront(now, dead, p + 1);
    assert now[k] == now[..k + 1][k] == was[..k + 1][k] == was[k];
    var l, passed := Live(now[k + 1..], dead), now[k + 1..p + 1];
    assert p > k ==> now[p] == passed[p - k - 1];
    forall i | 0 <= i < p - k
      ensures !Stops(order, l[i])
    {
      assert l[i] == passed[i] == now[k + 1 + i];
    }
  }

  lemma InsertShape(chain: seq<Node>, dead: set<Node>, head: Node, tail: Node, counter: int,
                    k: nat, p: nat, order: Order, q: nat, node: Node)
    requires Shape(chain, dead, head, tail, counter) && Passed(chain, dead, k, p, order) && !order.ToFind?
    requires p + 1 < |chain| ==> Stops(order, chain[p + 1])
    requires p <= q <= p + 1 && q < |chain| && chain[q] !in dead
    requires node !in chain && node !in dead
    ensures q >= 1
    ensures Shape(With(chain, q, node), dead, head, if tail == chain[q] then node else tail, counter + 1)
  {
    Bits.ReverseZero(64);
    WithFacts(chain, q, node);
    InsertLast(chain, dead, q, node, tail);
  }

  lemma InsertRetired(chain: seq<Node>, dead: set<Node>, retirements: multiset<Node>, deleted: seq<Node>,
                      q: nat, node: Node)
    requires RetiredOnce(chain, dead, retirements, deleted) && Distinct(chain)
    requires q < |chain| && node !in chain && node !in dead && node !in retirements && node !in deleted
    ensures RetiredOnce(With(chain, q, node), dead, retirements, deleted)
  {
    WithFacts(chain, q, node);
  }

  lemma KillShape(chain: seq<Node>, dead: set<Node>, head: Node, tail: Node, counter: int, p: nat)
    requires Shape(chain, dead, head, tail, counter)
    requires 1 <= p && p + 1 < |chain| && chain[p] !in dead && chain[p + 1] !in dead
    ensures Shape(chain, dead + {chain[p + 1]}, head, if tail == chain[p + 1] then chain[p] else tail, counter - 1)
  {
    KillLast(chain, dead, p, tail);
  }

  lemma KillRetired(chain: seq<Node>, dead: set<Node>, retirements: multiset<Node>, deleted: seq<Node>, n: Node)
    requires RetiredOnce(chain, dead, retirements, deleted) && n in chain
    ensures RetiredOnce(chain, dead + {n}, retirements, deleted)
  {
  }

  /** A list of two new ghosts; the nodes of the old chain go to the deleter. */
  lemma StartOver(was: seq<Node>, retirements: multiset<Node>, deleted: seq<Node>, dead: set<Node>,
                  first: Node, second: Node)
    requires RetiredOnce(was, dead, retirements, deleted) && Distinct(was)
    requires first != second && second.key == 0 && second.data == GHOST
    requires {first, second} !! (set n | n in was || n in retirements || n in deleted)
    ensures Shape([first, second], {}, first, second, 0)
    ensures RetiredOnce([first, second], {}, retirements, deleted + was)
  {
    LiveAround([first, second], {}, 0);
    LiveAround([second], {}, 0);
    assert [first, second][1..] == [second];
    assert forall n :: n in deleted + was <==> n in deleted || n in was;
    assert forall i :: 0 <= i < |was| ==> was[i] in was;
  }

  /** No hazard slot is lost: every retirement carried an address. */
  ghost predicate NoLoss(view: HazardState.State<Node>) {
    view.leaked == {} && HazardState.Addressed(view.slots, view.rlist)
  }

  lemma ClearedNoLoss(view: HazardState.State<Node>)
    ensures NoLoss(HazardState.Cleared(view)) && HazardState.Cleared(view).held == {}
    ensures HazardState.Cleared(view).retirements == view.retirements
  {
  }

  function Address(n: Node?): Option<Node> {
    if n == null then None else Some(n)
  }

  /** h is the only slot held, and it holds d. */
  ghost predicate Holds(view: HazardState.State<Node>, h: nat, d: Node?) {
    && HazardState.Valid(view) && NoLoss(view)
    && view.held == {h} && h < |view.slots| && view.slots[h].data == Address(d)
  }

  lemma AcquireHolds(view: HazardState.State<Node>, h: nat, d: Node?)
    requires HazardState.Valid(view) && NoLoss(view) && view.held == {}
    requires HazardState.Offered(view.slots, h)
    ensures var v := HazardState.Acquired(view, h);
            && h < |v.slots| && Holds(HazardState.ProtectedBy(v, h, Address(d)), h, d)
            && v.retirements == view.retirements
  {
    HazardState.AcquireKeeps(view, h);
    HazardState.ProtectKeeps(HazardState.Acquired(view, h), h, Address(d));
  }

  lemma ReclaimHolds(view: HazardState.State<Node>, h: nat, d: Node, limit: nat, t: HazardState.State<Node>)
    requires Holds(view, h, d) && d !in view.pending && HazardState.Reclaimed(view, h, limit, t)
    ensures HazardState.Valid(t) && NoLoss(t) && t.held == {}
    ensures t.retirements == view.retirements + multiset{d}
  {
    hide HazardState.Valid, HazardState.Addressed, HazardState.NullSlots, HazardState.Deleted,
         HazardState.ActiveWithin, HazardState.Actives, HazardState.WithRetired;
    HazardState.RetireKeepsValid(view, h);
    HazardRuns.LeakExactly(view, h, limit, t);
  }

  lemma DropHolds(view: HazardState.State<Node>, h: nat, d: Node?)
    requires Holds(view, h, d)
    ensures var v := HazardState.Dropped(view, h);
            HazardState.Valid(v) && NoLoss(v) && v.held == {} && v.retirements == view.retirements
  {
    HazardState.DropKeeps(view, h);
  }

  /** get_hazard and protect. */
  method Guard(alloc: Hazard.Hazardous<Node>, d: Node?) returns (h: nat)
    requires alloc.Valid() && NoLoss(alloc.view) && alloc.view.held == {}
    modifies alloc
    ensures alloc.Valid() && Holds(alloc.view, h, d) && NoLoss(alloc.view)
    ensures alloc.view.retirements == old(alloc.view).retirements
  {
    h := alloc.MakeHazard();
    AcquireHolds(old(alloc.view), h, d);
    hide HazardState.Valid, NoLoss, HazardState.Offered;
    alloc.Protect(h, Address(d));
  }

  lemma ProtectHolds(view: HazardState.State<Node>, h: nat, was: Node?, d: Node?)
    requires Holds(view, h, was)
    ensures var v := HazardState.ProtectedBy(view, h, Address(d));
            Holds(v, h, d) && v.retirements == view.retirements
  {
    HazardState.ProtectKeeps(view, h, Address(d));
  }

  /** protect on a slot already held. */
  method Shield(alloc: Hazard.Hazardous<Node>, h: nat, ghost was: Node?, d: Node?)
    requires alloc.Valid() && Holds(alloc.view, h, was)
    modifies alloc
    ensures alloc.Valid() && Holds(alloc.view, h, d) && NoLoss(alloc.view)
    ensures alloc.view.retirements == old(alloc.view).retirements
  {
    ProtectHolds(alloc.view, h, was, d);
    hide HazardState.Valid, NoLoss;
    alloc.Protect(h, Address(d));
  }

  /** reclaim_hazard for the node d that slot h holds. */
  method Retire(alloc: Hazard.Hazardous<Node>, h: nat, d: Node)
    requires alloc.Valid() && Holds(alloc.view, h, d) && d !in alloc.view.pending
    modifies alloc
    ensures alloc.Valid() && NoLoss(alloc.view) && alloc.view.held == {}
    ensures alloc.view.retirements == old(alloc.view).retirements + multiset{d}
  {
    hide HazardState.Valid, NoLoss, HazardState.Reclaimed;
    alloc.Reclaim(h);
    ReclaimHolds(old(alloc.view), h, d, alloc.limit, alloc.view);
  }

  method Release(alloc: Hazard.Hazardous<Node>, h: nat, ghost d: Node?)
    requires alloc.Valid() && Holds(alloc.view, h, d)
    modifies alloc
    ensures alloc.Valid() && NoLoss(alloc.view) && alloc.view.held == {}
    ensures alloc.view.retirements == old(alloc.view).retirements
  {
    DropHolds(alloc.view, h, d);
    hide HazardState.Valid, NoLoss;
    alloc.Drop(h);
  }

  class OrderList {
    var head: Node
    var tail: Node
    var counter: int
    const alloc: Hazard.Hazardous<Node>
    /** What the deleter was given directly, in order. */
    var deleted: seq<Node>

    /** The nodes reached from head over next, marked or not, and all nodes ever removed. */
    ghost var chain: seq<Node>
    ghost var dead: set<Node>

    ghost predicate Inv()
      reads this, chain`next, chain`tag, alloc
    {
      && Linked(chain, dead)
      && Shape(chain, dead, head, tail, counter)
      && RetiredOnce(chain, dead, alloc.view.retirements, deleted)
      && alloc.Valid() && NoLoss(alloc.view)
    }

    /** Between operations no hazard slot is held. */
    ghost predicate Valid()
      reads this, chain`next, chain`tag, alloc
    {
      Inv() && alloc.view.held == {}
    }

    constructor ()
      ensures Valid() && fresh(alloc) && fresh(this)
      ensures alloc.limit == 10
      ensures |chain| == 2 && dead == {} && counter == 0
      ensures chain[1].data == GHOST && !chain[0].isRemoved && !chain[1].isRemoved
      ensures fresh(chain[0]) && fresh(chain[1])
    {
      var first := new Node(0, GHOST);
      var second := new Node(0, GHOST);
      first.next := second;
      alloc := new Hazard.Hazardous(10);
      head, tail, counter, deleted := first, second, 0, [];
      chain, dead := [first, second], {};
      new;
      StartOver([], multiset{}, [], {}, first, second);
    }

    /** Unlinks the node after prev, marked or not, whatever the mark on its own edge. */
    method Unlink(prev: Node, curr: Node, ghost p: nat) returns (next: Node?, marked: bool)
      requires Linked(chain, dead) && Distinct(chain)
      requires p + 1 < |chain| && chain[p] == prev && chain[p + 1] == curr
      modifies prev`next, prev`tag, this`chain
      ensures chain == Without(old(chain), p + 1)
      ensures Linked(chain, dead)
      ensures next == prev.next && marked == prev.tag
      ensures if p + 1 < |chain| then next == chain[p + 1] && marked == (chain[p + 1] in dead)
              else next == null && !marked
    {
      ghost var was := chain;
      assert forall i :: 0 <= i < |was| && i != p ==> was[i] != prev;
      next, marked := curr.next, curr.tag;
      prev.next, prev.tag := next, marked;
      chain := Without(chain, p + 1);
    }

    method LinkAfter(prev: Node, node: Node, ghost p: nat)
      requires Linked(chain, dead) && Distinct(chain)
      requires p < |chain| && chain[p] == prev && node !in chain && node !in dead
      modifies prev`next, prev`tag, node`next, node`tag, this`chain
      ensures chain == With(old(chain), p, node)
      ensures Linked(chain, dead)
    {
      ghost var was := chain;
      assert forall i :: 0 <= i < |was| && i != p ==> was[i] != prev;
      assert forall i :: 0 <= i < |was| ==> was[i] != node;
      node.next, node.tag := prev.next, prev.tag;
      prev.next, prev.tag := node, false;
      chain := With(chain, p, node);
    }

    /** The node behind position p. */
    ghost function Behind(p: nat): Node?
      reads this
    {
      if p + 1 < |chain| then chain[p + 1] else null
    }

    /** One turn of the inner loop: the dead node behind prev is unlinked and retired, and a
        new slot guards the next one. */
    method RetireNext(prev: Node, curr: Node, h: nat, ghost p: nat)
      returns (next: Node?, marked: bool, h': nat)
      requires Inv() && Holds(alloc.view, h, curr)
      requires p + 1 < |chain| && chain[p] == prev && chain[p + 1] == curr && curr in dead
      modifies this`chain, prev`next, prev`tag, alloc
      ensures Inv() && Holds(alloc.view, h', next)
      ensures chain == Without(old(chain), p + 1)
      ensures next == Behind(p) && (next != null ==> marked == (next in dead))
      ensures next == null ==> !marked
    {
      hide Shape, RetiredOnce, Holds, NoLoss, HazardState.Valid;
      ShapeDistinct(chain, dead, head, tail, counter);
      ShapeStep(chain, dead, head, tail, counter, p + 1);
      RetireStep(chain, dead, alloc.view.retirements, deleted, p + 1);
      ChainNotFreed(chain, dead, alloc.view, deleted, curr);
      next, marked := Unlink(prev, curr, p);
      Retire(alloc, h, curr);
      h' := Guard(alloc, next);
    }

    /** The inner loop: first, the node behind prev, is protected, and every dead node directly
        behind prev is unlinked and retired. */
    method SkipDead(prev: Node, first: Node, h0: nat, ghost guarded: Node?, ghost p: nat)
      returns (curr: Node?, h: nat)
      requires Inv() && Holds(alloc.view, h0, guarded)
      requires p + 1 < |chain| && chain[p] == prev && chain[p + 1] == first
      modifies this`chain, prev`next, prev`tag, alloc
      ensures Inv() && Holds(alloc.view, h, curr)
      ensures Trimmed(old(chain), chain, dead, p)
      ensures p < |chain| && chain[p] == prev && curr == Behind(p)
      ensures if curr == null then |chain| < |old(chain)| else curr !in dead
    {
      hide Shape, RetiredOnce, Holds, NoLoss, HazardState.Valid, Trimmed, Linked;
      var marked := prev.tag;
      TrimStartShape(chain, dead, p, head, tail, counter);
      LinkedAt(chain, dead, p);
      curr, h := first, h0;
      Shield(alloc, h, guarded, curr);
      while marked
        invariant Inv() && Holds(alloc.view, h, curr)
        invariant Trimmed(old(chain), chain, dead, p)
        invariant p < |chain| && chain[p] == prev && curr == Behind(p)
        invariant if curr == null then !marked && |chain| < |old(chain)| else marked == (curr in dead)
        decreases |chain|
      {
        TrimBehind(old(chain), chain, dead, p, head, tail, counter);
        ghost var was := chain;
        curr, marked, h := RetireNext(prev, curr, h, p);
        assert chain[p] == was[p];
      }
    }

    /** What a search that started behind position k of the chain first knows at position p. */
    ghost predicate Reached(first: seq<Node>, k: nat, p: nat, order: Order, prev: Node)
      reads this
    {
      && Trimmed(first, chain, dead, k) && Passed(chain, dead, k, p, order)
      && p < |chain| && chain[p] == prev && prev !in dead && prev in first
    }

    lemma ReachedFirst(k: nat, order: Order)
      requires Inv() && k < |chain| && chain[k] !in dead
      ensures Reached(chain, k, k, order, chain[k])
    {
      hide Shape, Linked, RetiredOnce, NoLoss, HazardState.Valid, Trimmed, Passed;
      TrimStartShape(chain, dead, k, head, tail, counter);
      PassedStart(chain, dead, k, order);
    }

    lemma ReachedNext(first: seq<Node>, k: nat, p: nat, order: Order, prev: Node, curr: Node)
      requires Reached(first, k, p, order, prev) && Behind(p) == curr
      requires curr !in dead && curr in first && !Stops(order, curr)
      ensures Reached(first, k, p + 1, order, curr)
    {
      hide Trimmed, Passed, Stops;
      PassedNext(chain, dead, k, p, order);
    }

    lemma ReachedLink(first: seq<Node>, k: nat, p: nat, order: Order, prev: Node)
      requires Inv() && Reached(first, k, p, order, prev)
      ensures p < |chain| && chain[p] == prev && prev in first && prev.next == Behind(p)
    {
      hide Shape, RetiredOnce, NoLoss, HazardState.Valid, Linked, Trimmed, Passed;
      LinkedAt(chain, dead, p);
    }

    lemma ReachedTrim(first: seq<Node>, was: seq<Node>, k: nat, p: nat, order: Order, prev: Node)
      requires Trimmed(first, was, dead, k) && Passed(was, dead, k, p, order)
      requires Trimmed(was, chain, dead, p) && p < |chain| && chain[p] == prev && prev !in dead && prev in first
      ensures Reached(first, k, p, order, prev) && |chain| <= |was|
      ensures Behind(p) != null ==> Behind(p) in first
    {
      hide Trimmed, Passed;
      SearchStep(first, was, chain, dead, k, p, order);
      if p + 1 < |chain| {
        TrimMember(first, chain, dead, k, chain[p + 1]);
      }
    }

    lemma ReachedEnd(first: seq<Node>, k: nat, p: nat, order: Order, prev: Node, flag: bool)
      requires Reached(first, k, p, order, prev)
      ensures Trimmed(first, chain, dead, k) && Passed(chain, dead, k, p, order)
      ensures p < |chain| && chain[p] == prev && prev !in dead && prev in first
      ensures var curr := Behind(p);
              curr != null && curr !in dead && Stops(order, curr)
              && (order.ByKey? || flag == FlagAfter(order, curr, false)) ==>
              Hit(chain, dead, p, order, flag)
    {
      hide Trimmed, Passed, Stops, FlagAfter;
    }

    /** search_node from the live node it at position k. Every dead node it passes is unlinked
        and retired; no live node changes. The result is the first live node behind it that
        stops the search, held by slot h, with its live predecessor at position p; or the last
        live node. */
    method SearchNode(it: Node, comp: Comparator, ghost k: nat)
      returns (prev: Node, curr: Node?, h: nat, ghost p: nat)
      requires Valid() && k < |chain| && chain[k] == it && it !in dead
      modifies this`chain, chain`next, chain`tag, alloc, comp
      ensures Inv()
      ensures Trimmed(old(chain), chain, dead, k)
      ensures Passed(chain, dead, k, p, comp.order)
      ensures p < |chain| && chain[p] == prev && prev !in dead && prev in old(chain) && curr == Behind(p)
      ensures curr == null ==> alloc.view.held == {}
      ensures curr != null ==>
                && curr in old(chain) && curr !in dead && Stops(comp.order, curr) && Holds(alloc.view, h, curr)
                && Hit(chain, dead, p, comp.order, comp.isDummy)
    {
      hide Shape, Linked, RetiredOnce, NoLoss, Holds, HazardState.Valid, Trimmed, Passed, Reached, Hit, Stops,
           FlagAfter;
      ReachedFirst(k, comp.order);
      prev, p := it, k;
      h := Guard(alloc, null);
      ghost var guarded: Node? := null;
      while true
        invariant Inv() && Holds(alloc.view, h, guarded)
        invariant Reached(old(chain), k, p, comp.order, prev) && p < |chain|
        decreases |chain| - p
      {
        ReachedLink(old(chain), k, p, comp.order, prev);
        curr := prev.next;
        if curr == null {
          Release(alloc, h, guarded);
          ReachedEnd(old(chain), k, p, comp.order, prev, false);
          return;
        }
        ghost var was := chain;
        ReachedEnd(old(chain), k, p, comp.order, prev, false);
        curr, h := SkipDead(prev, curr, h, guarded, p);
        guarded := curr;
        ReachedTrim(old(chain), was, k, p, comp.order, prev);
        if curr == null {
          continue;
        }
        var found := comp.Call(curr);
        if found {
          ReachedEnd(old(chain), k, p, comp.order, prev, comp.isDummy);
          return;
        }
        ReachedNext(old(chain), k, p, comp.order, prev, curr);
        prev, p := curr, p + 1;
      }
    }

    /** find: whether the search stops anywhere. */
    method Find(it: Node, comp: Comparator, ghost k: nat) returns (found: bool, ghost p: nat)
      requires Valid() && k < |chain| && chain[k] == it && it !in dead
      modifies this`chain, chain`next, chain`tag, alloc, comp
      ensures Valid()
      ensures Trimmed(old(chain), chain, dead, k) && Passed(chain, dead, k, p, comp.order)
      ensures p < |chain| && found == (p + 1 < |chain|)
      ensures found ==> Hit(chain, dead, p, comp.order, comp.isDummy)
    {
      hide Shape, RetiredOnce, Holds, NoLoss, HazardState.Valid, Trimmed, Passed, Linked, Hit, Stops;
      var prev, curr, h;
      prev, curr, h, p := SearchNode(it, comp, k);
      found := curr != null;
      if found {
        Release(alloc, h, curr);
      }
    }

    /** contain: a copy of what the node that stops the search carries. */
    method Contain(it: Node, comp: Comparator, ghost k: nat)
      returns (r: Option<HashNode>, ghost p: nat)
      requires Valid() && k < |chain| && chain[k] == it && it !in dead
      modifies this`chain, chain`next, chain`tag, alloc, comp
      ensures Valid()
      ensures Trimmed(old(chain), chain, dead, k) && Passed(chain, dead, k, p, comp.order)
      ensures p < |chain| && r.Some? == (p + 1 < |chain|)
      ensures r.Some? ==> Hit(chain, dead, p, comp.order, comp.isDummy) && r.value == chain[p + 1].data
    {
      hide Shape, RetiredOnce, Holds, NoLoss, HazardState.Valid, Trimmed, Passed, Linked, Hit, Stops;
      var prev, curr, h;
      prev, curr, h, p := SearchNode(it, comp, k);
      if curr == null {
        return None, p;
      }
      r := Some(curr.data);
      Release(alloc, h, curr);
    }

    /** Links a new node behind the live node at position q. */
    method Splice(place: Node, data: HashNode, order: Order, ghost k: nat, ghost p: nat, ghost q: nat)
      returns (node: Node)
      requires Inv() && Passed(chain, dead, k, p, order) && !order.ToFind?
      requires p + 1 < |chain| ==> Stops(order, chain[p + 1])
      requires p <= q <= p + 1 && q < |chain| && chain[q] == place && place !in dead
      modifies this, place`next, place`tag
      ensures Inv() && fresh(node) && node.key == data.key && node.data == data && !node.isRemoved
      ensures chain == With(old(chain), q, node) && dead == old(dead)
      ensures counter == old(counter) + 1 && head == old(head) && deleted == old(deleted)
      ensures alloc.view == old(alloc.view)
    {
      hide Shape, RetiredOnce, NoLoss, HazardState.Valid, Passed, Linked, With, Stops;
      var oldTail := tail;
      node := new Node(data.key, data);
      ShapeDistinct(chain, dead, head, tail, counter);
      InsertShape(chain, dead, head, tail, counter, k, p, order, q, node);
      InsertRetired(chain, dead, alloc.view.retirements, deleted, q, node);
      LinkAfter(place, node, q);
      if place == oldTail {
        tail := node;
      }
      counter := counter + 1;
    }

    /** insert: a new node, before the node that stops the search or after it. */
    method Insert(data: HashNode, it: Node, before: bool, comp: Comparator, ghost k: nat)
      returns (node: Node, ghost mid: seq<Node>, ghost p: nat)
      requires Valid() && k < |chain| && chain[k] == it && it !in dead && !comp.order.ToFind?
      modifies this, chain`next, chain`tag, alloc, comp
      ensures Valid() && fresh(node) && node.key == data.key && node.data == data && !node.isRemoved
      ensures dead == old(dead) && counter == old(counter) + 1
      ensures head == old(head) && deleted == old(deleted)
      ensures Trimmed(old(chain), mid, dead, k) && Passed(mid, dead, k, p, comp.order)
      ensures p < |mid|
      ensures p + 1 < |mid| ==> mid[p + 1] !in dead && Stops(comp.order, mid[p + 1])
      ensures chain == With(mid, if before || p + 1 == |mid| then p else p + 1, node)
    {
      hide Shape, RetiredOnce, Holds, NoLoss, HazardState.Valid, Trimmed, Passed, Linked, Hit, Stops, With;
      var prev, curr, h;
      prev, curr, h, p := SearchNode(it, comp, k);
      mid := chain;
      var place := if curr == null || before then prev else curr;
      ghost var q := if before || p + 1 == |mid| then p else p + 1;
      node := Splice(place, data, comp.order, k, p, q);
      if curr != null {
        Release(alloc, h, curr);
      }
    }

    method Mark(prev: Node, ghost p: nat)
      requires Linked(chain, dead) && Distinct(chain)
      requires p + 1 < |chain| && chain[p] == prev
      modifies prev`tag, this`dead
      ensures Linked(chain, dead)
      ensures dead == old(dead) + {chain[p + 1]}
    {
      prev.tag := true;
      dead := dead + {chain[p + 1]};
    }

    /** remove(Node* prev): marks the edge out of prev. */
    method Remove(prev: Node, ghost p: nat) returns (done: bool)
      requires Inv() && 1 <= p && p + 1 < |chain| && chain[p] == prev && prev !in dead && chain[p + 1] !in dead
      modifies this`dead, this`tail, this`counter, prev`tag
      ensures Inv() && done
      ensures dead == old(dead) + {chain[p + 1]} && counter == old(counter) - 1
      ensures tail == if old(tail) == chain[p + 1] then prev else old(tail)
    {
      hide Shape, RetiredOnce, NoLoss, HazardState.Valid, Linked;
      ShapeDistinct(chain, dead, head, tail, counter);
      LinkedAt(chain, dead, p);
      KillShape(chain, dead, head, tail, counter, p);
      KillRetired(chain, dead, alloc.view.retirements, deleted, chain[p + 1]);
      var next := prev.next;
      Mark(prev, p);
      if tail == next {
        tail := prev;
      }
      counter := counter - 1;
      done := true;
    }

    /** Gives every node from first on to the deleter, whatever the marks. */
    method DeleteFrom(first: Node?, ghost was: seq<Node>)
      requires Linked(was, dead) && first == if was == [] then null else was[0]
      modifies this`deleted
      ensures deleted == old(deleted) + was
    {
      ghost var i := 0;
      var n := first;
      while n != null
        invariant 0 <= i <= |was|
        invariant n == if i < |was| then was[i] else null
        invariant deleted == old(deleted) + was[..i]
        decreases |was| - i
      {
        LinkedAt(was, dead, i);
        var next := n.next;
        deleted := deleted + [n];
        assert was[..i + 1] == was[..i] + [was[i]];
        n, i := next, i + 1;
      }
      assert was[..|was|] == was;
    }

    method NewGhosts() returns (first: Node, second: Node)
      ensures fresh(first) && fresh(second) && first != second
      ensures second.key == 0 && second.data == GHOST && Linked([first, second], {})
      ensures !first.isRemoved && !second.isRemoved
    {
      first := new Node(0, GHOST);
      second := new Node(0, GHOST);
      first.next := second;
    }

    /** size. */
    method Size() returns (n: int)
      requires Valid()
      ensures n == counter && n >= 0
    {
      hide Shape, Linked, RetiredOnce, HazardState.Valid, NoLoss;
      ShapeSize(chain, dead, head, tail, counter);
      n := if head == tail || counter < 0 then 0 else counter;
    }

    /** The hazard pointer a search returned goes out of scope. */
    method LetGo(h: nat, ghost d: Node?)
      requires Inv() && Holds(alloc.view, h, d)
      modifies alloc
      ensures Valid()
    {
      hide Shape, RetiredOnce, Holds, NoLoss, HazardState.Valid, Linked;
      Release(alloc, h, d);
    }

    /** clear: two new ghosts; every node of the chain, dead or alive, goes to the deleter;
        nodes waiting for deletion are forgotten. */
    method Clear()
      requires Valid()
      modifies this, alloc
      ensures Valid() && |chain| == 2 && fresh(chain[0]) && fresh(chain[1]) && dead == {} && counter == 0
      ensures !chain[0].isRemoved && !chain[1].isRemoved
      ensures deleted == old(deleted) + old(chain)
      ensures alloc.view == HazardState.Cleared(old(alloc.view))
    {
      hide Shape, RetiredOnce, NoLoss, HazardState.Valid, HazardState.Cleared, Linked;
      ShapeDistinct(chain, dead, head, tail, counter);
      ShapeHead(chain, dead, head, tail, counter);
      alloc.Clear();
      ClearedNoLoss(old(alloc.view));
      var newHead, newNext := NewGhosts();
      StartOver(chain, alloc.view.retirements, deleted, dead, newHead, newNext);
      var oldHead := head;
      head, tail := newHead, newNext;
      DeleteFrom(oldHead, chain);
      counter := 0;
      chain, dead := [newHead, newNext], {};
    }
  }
}
