/** The state of hazard slots and deferred reclamation (LF_hazardous.hpp), its invariant, and
    what each operation does to it. A slot's state is the pair of tag bits in its own next
    pointer. */
module HazardState {
  import opened Common

  datatype Slot<+T> = Slot(retired: bool, inactive: bool, data: Option<T>)
  {
    predicate Active() {
      !retired && !inactive
    }
  }

  function Clean<T>(data: Option<T>): Slot<T> {
    Slot(false, false, data)
  }

  /** A slot is in exactly one of four states, and never carries both tags: held by one
      handle, leaked, retired with one record, or inactive. */
  predicate RoleOk<T>(s: Slot<T>, held: bool, leaked: bool, listed: bool) {
    || (held && !leaked && !listed && s.Active())
    || (!held && leaked && !listed && s.Active())
    || (!held && !leaked && listed && s.retired && !s.inactive)
    || (!held && !leaked && !listed && !s.retired && s.inactive)
  }

  ghost predicate SlotsOk<T>(slots: seq<Slot<T>>, held: set<nat>, leaked: set<nat>, rlist: seq<nat>) {
    && (forall i :: 0 <= i < |slots| ==> RoleOk(slots[i], i in held, i in leaked, i in rlist))
    && (forall i :: i in held ==> i < |slots|)
    && (forall i :: i in leaked ==> i < |slots|)
    && (forall i :: i in rlist ==> i < |slots|)
    && (forall j, k :: 0 <= j < k < |rlist| ==> rlist[j] != rlist[k])
  }

  /** Each waiting address is carried by exactly one listed slot. */
  ghost predicate PendingOk<T>(slots: seq<Slot<T>>, rlist: seq<nat>, pending: map<T, nat>)
    requires forall i :: i in rlist ==> i < |slots|
  {
    && (forall d :: d in pending ==> pending[d] in rlist && slots[pending[d]].data == Some(d))
    && (forall i :: i in rlist && slots[i].data.Some? ==>
          slots[i].data.value in pending && pending[slots[i].data.value] == i)
  }

  // ---------------------------------------------------------------- counting

  function CountInactive<T>(slots: seq<Slot<T>>): (n: nat)
    ensures n <= |slots|
  {
    if slots == [] then 0
    else (if slots[0].inactive then 1 else 0) + CountInactive(slots[1..])
  }

  lemma {:induction false} CountUpdate<T>(slots: seq<Slot<T>>, i: nat, s: Slot<T>)
    requires i < |slots|
    ensures CountInactive(slots[i := s])
         == CountInactive(slots) - (if slots[i].inactive then 1 else 0) + (if s.inactive then 1 else 0)
  {
    if i > 0 {
      CountUpdate(slots[1..], i - 1, s);
      assert slots[i := s][1..] == slots[1..][i - 1 := s];
    } else {
      assert slots[i := s][1..] == slots[1..];
    }
  }

  lemma {:induction false} CountAppend<T>(slots: seq<Slot<T>>, s: Slot<T>)
    ensures CountInactive(slots + [s]) == CountInactive(slots) + if s.inactive then 1 else 0
  {
    if slots == [] {
      assert slots + [s] == [s];
    } else {
      CountAppend(slots[1..], s);
      assert (slots + [s])[1..] == slots[1..] + [s];
    }
  }

  lemma {:induction false} CountNone<T>(slots: seq<Slot<T>>)
    requires forall i :: 0 <= i < |slots| ==> !slots[i].inactive
    ensures CountInactive(slots) == 0
  {
    if slots != [] {
      CountNone(slots[1..]);
    }
  }

  // ---------------------------------------------------------------- retirement

  function WithRetired<T(==)>(pending: map<T, nat>, slot: Slot<T>, h: nat): map<T, nat> {
    if slot.data.Some? then pending[slot.data.value := h] else pending
  }

  function Carried<T(==)>(slot: Slot<T>): multiset<T> {
    if slot.data.Some? then multiset{slot.data.value} else multiset{}
  }

  lemma RetireKeeps<T>(slots: seq<Slot<T>>, held: set<nat>, leaked: set<nat>, rlist: seq<nat>,
                       pending: map<T, nat>, h: nat)
    requires SlotsOk(slots, held, leaked, rlist) && PendingOk(slots, rlist, pending)
    requires h in held && (slots[h].data.Some? ==> slots[h].data.value !in pending)
    ensures var after := slots[h := slots[h].(retired := true)];
            && SlotsOk(after, held - {h}, leaked, [h] + rlist)
            && PendingOk(after, [h] + rlist,
                         WithRetired(pending, slots[h], h))

  {
    assert forall i :: i in [h] + rlist <==> i == h || i in rlist;
  }

  // ---------------------------------------------------------------- conservation

  /** Every retired address is waiting, deleted, or forgotten, as often as it was retired. */
  ghost predicate Balance<T>(freed: seq<T>, pending: map<T, nat>, lost: multiset<T>, retirements: multiset<T>) {
    multiset(freed) + multiset(pending.Keys) + lost == retirements
  }

  lemma BalanceRetire<T>(freed: seq<T>, pending: map<T, nat>, lost: multiset<T>, retirements: multiset<T>,
                         slot: Slot<T>, h: nat)
    requires Balance(freed, pending, lost, retirements)
    requires slot.data.Some? ==> slot.data.value !in pending
    ensures Balance(freed, WithRetired(pending, slot, h), lost, retirements + Carried(slot))
  {
    if slot.data.Some? {
      assert pending[slot.data.value := h].Keys == pending.Keys + {slot.data.value};
    }
  }

  lemma BalanceScan<T>(freed: seq<T>, gone: seq<T>, pending: map<T, nat>, left: map<T, nat>,
                       lost: multiset<T>, retirements: multiset<T>)
    requires Balance(freed, pending, lost, retirements)
    requires Accounts(gone, pending, left)
    ensures Balance(freed + gone, left, lost, retirements)
  {
  }

  lemma BalanceForget<T>(freed: seq<T>, pending: map<T, nat>, lost: multiset<T>, retirements: multiset<T>)
    requires Balance(freed, pending, lost, retirements)
    ensures Balance(freed, map[], lost + multiset(pending.Keys), retirements)
  {
  }

  // ---------------------------------------------------------------- deletion

  /** Every listed slot has an address. */
  ghost predicate Addressed<T>(slots: seq<Slot<T>>, rlist: seq<nat>) {
    forall i :: i in rlist ==> i < |slots| && slots[i].data.Some?
  }

  /** The listed slots without an address. */
  ghost function NullSlots<T>(slots: seq<Slot<T>>, rlist: seq<nat>): set<nat> {
    set i | i in rlist && i < |slots| && slots[i].data.None?
  }

  /** No active slot holds d. */
  ghost predicate Unheld<T>(slots: seq<Slot<T>>, d: T) {
    forall i :: 0 <= i < |slots| && slots[i].Active() ==> slots[i].data != Some(d)
  }

  /** The addresses gone waited, wait no longer, and are held by no active slot; what still
      waits is what waited before. */
  ghost predicate Deleted<T>(gone: seq<T>, waited: map<T, nat>, waiting: map<T, nat>, slots: seq<Slot<T>>) {
    && (forall d :: d in waiting ==> d in waited)
    && (forall d :: d in gone ==> d in waited && d !in waiting && Unheld(slots, d))
  }

  /** Each address that waited is gone, once, or still waiting. */
  ghost predicate Accounts<T>(gone: seq<T>, waited: map<T, nat>, waiting: map<T, nat>) {
    multiset(gone) + multiset(waiting.Keys) == multiset(waited.Keys)
  }

  /** Every active slot of now was active before and has not changed. */
  ghost predicate ActiveWithin<T>(was: seq<Slot<T>>, now: seq<Slot<T>>) {
    |was| == |now| && forall i :: 0 <= i < |now| && now[i].Active() ==> now[i] == was[i]
  }

  function Actives<T>(slots: seq<Slot<T>>): set<nat> {
    set i | 0 <= i < |slots| && slots[i].Active()
  }

  // ---------------------------------------------------------------- the whole state

  /** slots is hlist_ up to its sentinel, rlist is rlist_ newest first, freed is what the
      deleter was given, in order. The rest is history: the slots owned by live handles; the
      slots whose retirement carried no address and which no handle owns; the waiting
      addresses with their slots; all addresses ever retired; and the addresses forgotten by
      a clear. */
  datatype State<T> = State(
    slots: seq<Slot<T>>,
    rlist: seq<nat>,
    freed: seq<T>,
    held: set<nat>,
    leaked: set<nat>,
    pending: map<T, nat>,
    retirements: multiset<T>,
    lost: multiset<T>)

  ghost predicate Valid<T>(s: State<T>) {
    && SlotsOk(s.slots, s.held, s.leaked, s.rlist)
    && PendingOk(s.slots, s.rlist, s.pending)
    && Balance(s.freed, s.pending, s.lost, s.retirements)
  }

  function Empty<T>(): State<T> {
    State([], [], [], {}, {}, map[], multiset{}, multiset{})
  }

  lemma EmptyValid<T>()
    ensures Valid<T>(Empty())
  {
  }

  /** Addresses that wait or have been deleted were retired. */
  lemma WaitingWasRetired<T>(s: State<T>, d: T)
    requires Valid(s)
    ensures d in s.pending || d in s.freed ==> d in s.retirements
  {
    assert (multiset(s.freed) + multiset(s.pending.Keys) + s.lost)[d] == s.retirements[d];
  }

  // ---------------------------------------------------------------- acquiring, protecting, dropping

  /** The slots in use, active or retired. */
  function Demand<T>(slots: seq<Slot<T>>): nat {
    |slots| - CountInactive(slots)
  }

  /** make_hazard when it hands out slot h: an inactive one, or a new one at the end. */
  function Acquired<T>(s: State<T>, h: nat): State<T>
    requires h <= |s.slots|
  {
    var slots := if h < |s.slots| then s.slots[h := Clean(None)] else s.slots + [Clean(None)];
    s.(slots := slots, held := s.held + {h})
  }

  /** A slot may be handed out if it is the first inactive one, or new when there is none. */
  predicate Offered<T>(slots: seq<Slot<T>>, h: nat) {
    && h <= |slots|
    && (forall i :: 0 <= i < h ==> !slots[i].inactive)
    && (h < |slots| ==> slots[h].inactive)
  }

  /** The handle gets a slot that nobody holds and that carries nothing; a slot is added only
      when every slot is in use. */
  lemma AcquireKeeps<T>(s: State<T>, h: nat)
    requires Valid(s) && Offered(s.slots, h)
    ensures Valid(Acquired(s, h))
    ensures h !in s.held && h !in s.leaked && h !in s.rlist
    ensures Acquired(s, h).slots[h] == Clean(None)
    ensures |Acquired(s, h).slots| > |s.slots| ==>
              Demand(Acquired(s, h).slots) == |Acquired(s, h).slots|
  {
    AcquireCount(s.slots, h);
  }

  lemma AcquireCount<T>(slots: seq<Slot<T>>, h: nat)
    requires Offered(slots, h)
    ensures h < |slots| ==> Demand(slots[h := Clean(None)]) == Demand(slots) + 1
    ensures h == |slots| ==> Demand(slots + [Clean(None)]) == |slots| + 1
  {
    hide CountInactive;
    if h < |slots| {
      CountUpdate(slots, h, Clean(None));
    } else {
      CountNone(slots);
      CountAppend(slots, Clean(None));
    }
  }

  function ProtectedBy<T>(s: State<T>, h: nat, data: Option<T>): State<T>
    requires h < |s.slots|
  {
    s.(slots := s.slots[h := s.slots[h].(data := data)])
  }

  lemma ProtectKeeps<T>(s: State<T>, h: nat, data: Option<T>)
    requires Valid(s) && h in s.held
    ensures Valid(ProtectedBy(s, h, data))
    ensures ProtectedBy(s, h, data).slots[h] == Clean(data)
  {
  }

  /** The handle's destructor: the slot becomes inactive. */
  function Dropped<T>(s: State<T>, h: nat): State<T>
    requires h < |s.slots|
  {
    s.(slots := s.slots[h := s.slots[h].(inactive := true)], held := s.held - {h})
  }

  lemma DropKeeps<T>(s: State<T>, h: nat)
    requires Valid(s) && h in s.held
    ensures Valid(Dropped(s, h))
  {
  }

  // ---------------------------------------------------------------- retiring and scanning

  /** hazard_pointer::reclaim and the new record on rlist_. */
  function Retired<T(==)>(s: State<T>, h: nat): State<T>
    requires h < |s.slots|
  {
    s.(slots := s.slots[h := s.slots[h].(retired := true)],
       rlist := [h] + s.rlist,
       held := s.held - {h},
       pending := WithRetired(s.pending, s.slots[h], h),
       retirements := s.retirements + Carried(s.slots[h]))
  }

  /** An address may wait only once at a time. */
  lemma RetireKeepsValid<T>(s: State<T>, h: nat)
    requires Valid(s) && h in s.held
    requires h < |s.slots| && s.slots[h].data.Some? ==> s.slots[h].data.value !in s.pending
    ensures Valid(Retired(s, h))
  {
    hide SlotsOk, PendingOk, Balance, WithRetired, Carried;
    HeldInRange(s, h);
    RetireKeeps(s.slots, s.held, s.leaked, s.rlist, s.pending, h);
    BalanceRetire(s.freed, s.pending, s.lost, s.retirements, s.slots[h], h);
  }

  lemma HeldInRange<T>(s: State<T>, h: nat)
    requires Valid(s) && h in s.held
    ensures h < |s.slots|
  {
  }

  /** What a scan does: it deletes only waiting addresses that no active slot holds; whatever
      it leaves waiting is held by an active slot; the number of slots left waiting is at
      most the number of active ones; active slots are not touched; and a slot that was
      retired without an address becomes active with no handle to it. */
  ghost predicate Scanned<T>(s: State<T>, t: State<T>) {
    && Valid(t)
    && t.held == s.held && t.lost == s.lost && t.retirements == s.retirements
    && ActiveWithin(t.slots, s.slots)
    && s.freed <= t.freed && Deleted(t.freed[|s.freed|..], s.pending, t.pending, t.slots)
    && (forall d :: d in t.pending ==> !Unheld(t.slots, d))
    && |t.rlist| <= |Actives(t.slots)|
    && Addressed(t.slots, t.rlist)
    && t.leaked == s.leaked + NullSlots(s.slots, s.rlist)
  }

  /** reclaim with its check of the limit. */
  ghost predicate Reclaimed<T>(s: State<T>, h: nat, limit: nat, t: State<T>)
    requires h < |s.slots|
  {
    if |s.rlist| + 1 >= limit then Scanned(Retired(s, h), t) else t == Retired(s, h)
  }

  /** After every reclaim the slots waiting number fewer than the limit or at most as many as
      the active slots. */
  lemma ReclaimBound<T>(s: State<T>, h: nat, limit: nat, t: State<T>)
    requires h < |s.slots| && Reclaimed(s, h, limit, t)
    ensures |t.rlist| < limit || |t.rlist| <= |Actives(t.slots)|
  {
  }

  /** clear: every slot is forgotten, and with it the addresses still waiting. */
  function Cleared<T(==)>(s: State<T>): State<T> {
    s.(slots := [], rlist := [], held := {}, leaked := {}, pending := map[],
       lost := s.lost + multiset(s.pending.Keys))
  }

  lemma ClearKeeps<T>(s: State<T>)
    requires Valid(s)
    ensures Valid(Cleared(s))
  {
    BalanceForget(s.freed, s.pending, s.lost, s.retirements);
  }
}
