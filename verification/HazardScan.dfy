/** The three phases of a scan (LF_hazardous.hpp): drain the retired list, collect what the
    active slots hold, and delete what nobody holds. */
module HazardScan {
  import opened Common
  import opened HazardState

  /** Slot i carries the waiting address it holds. */
  ghost predicate Carries<T>(slots: seq<Slot<T>>, pending: map<T, nat>, i: nat)
    requires i < |slots|
  {
    slots[i].data.Some? && slots[i].data.value in pending && pending[slots[i].data.value] == i
  }

  /** The slots while a scan has emptied rlist_: retired means carrying a waiting address. */
  ghost predicate Drained<T>(slots: seq<Slot<T>>, held: set<nat>, leaked: set<nat>, pending: map<T, nat>) {
    && (forall i :: 0 <= i < |slots| ==>
          RoleOk(slots[i], i in held, i in leaked, Carries(slots, pending, i)))
    && (forall i :: i in held ==> i < |slots|)
    && (forall i :: i in leaked ==> i < |slots|)
    && (forall d :: d in pending ==> pending[d] < |slots| && slots[pending[d]].data == Some(d))
  }

  /** Drained, with rlist_ filled again by the slots whose address is not in rest. */
  ghost predicate Refilled<T>(slots: seq<Slot<T>>, rlist: seq<nat>, pending: map<T, nat>, rest: map<T, nat>) {
    && (forall i :: i in rlist ==>
          i < |slots| && Carries(slots, pending, i) && slots[i].data.value !in rest)
    && (forall d :: d in pending && d !in rest ==> pending[d] in rlist)
    && (forall j, k :: 0 <= j < k < |rlist| ==> rlist[j] != rlist[k])
    && (forall d :: d in rest ==> d in pending && rest[d] == pending[d])
  }

  lemma RefillStart<T>(slots: seq<Slot<T>>, held: set<nat>, leaked: set<nat>, pending: map<T, nat>)
    requires Drained(slots, held, leaked, pending)
    ensures Refilled(slots, [], pending, pending)
  {
  }

  lemma RefilledAll<T>(slots: seq<Slot<T>>, held: set<nat>, leaked: set<nat>, rlist: seq<nat>,
                       pending: map<T, nat>, rest: map<T, nat>)
    requires Drained(slots, held, leaked, pending) && Refilled(slots, rlist, pending, rest) && rest == map[]
    ensures SlotsOk(slots, held, leaked, rlist) && PendingOk(slots, rlist, pending)
    ensures Addressed(slots, rlist)
  {
    forall i | 0 <= i < |slots|
      ensures Carries(slots, pending, i) <==> i in rlist
    {
    }
  }

  /** pmap leads from exactly the contents of the active slots to slots with them. */
  ghost predicate Covers<T>(slots: seq<Slot<T>>, pmap: map<Option<T>, nat>) {
    && (forall i :: 0 <= i < |slots| && slots[i].Active() ==> slots[i].data in pmap)
    && (forall x :: x in pmap ==> pmap[x] < |slots| && slots[pmap[x]].Active() && slots[pmap[x]].data == x)
  }

  lemma DeleteStart<T>(waiting: map<T, nat>, slots: seq<Slot<T>>)
    ensures Deleted([], waiting, waiting, slots)
    ensures Accounts([], waiting, waiting)
  {
  }

  lemma DeleteStep<T>(gone: seq<T>, waited: map<T, nat>, waiting: map<T, nat>, slots: seq<Slot<T>>, d: T)
    requires Deleted(gone, waited, waiting, slots) && d in waiting
    ensures Unheld(slots, d) ==> Deleted(gone + [d], waited, waiting - {d}, slots)
    ensures Accounts(gone, waited, waiting) ==> Accounts(gone + [d], waited, waiting - {d})
  {
    assert waiting.Keys == (waiting - {d}).Keys + {d};
    assert forall x :: x in gone + [d] <==> x in gone || x == d;
  }

  lemma CoversWithin<T>(was: seq<Slot<T>>, now: seq<Slot<T>>, pmap: map<Option<T>, nat>)
    requires Covers(was, pmap) && ActiveWithin(was, now) && ActiveWithin(now, was)
    ensures Covers(now, pmap)
  {
  }

  lemma ActiveTrans<T>(first: seq<Slot<T>>, second: seq<Slot<T>>, third: seq<Slot<T>>)
    requires ActiveWithin(second, first) && ActiveWithin(third, second)
    ensures ActiveWithin(third, first)
  {
  }

  lemma DeletedWithin<T>(gone: seq<T>, waited: map<T, nat>, waiting: map<T, nat>,
                         was: seq<Slot<T>>, now: seq<Slot<T>>)
    requires Deleted(gone, waited, waiting, was) && ActiveWithin(was, now)
    ensures Deleted(gone, waited, waiting, now)
  {
  }

  /** rlist has been emptied up to todo; done is what has been read. */
  ghost predicate Draining<T>(was: seq<Slot<T>>, now: seq<Slot<T>>, done: seq<nat>, rmap: map<T, nat>) {
    && |was| == |now|
    && (forall i :: 0 <= i < |now| ==> now[i] == if i in NullSlots(was, done) then Clean(None) else was[i])
    && (forall d :: d in rmap ==> rmap[d] in done && rmap[d] < |was| && was[rmap[d]].data == Some(d))
    && (forall i :: i in done && i < |was| && was[i].data.Some? ==> was[i].data.value in rmap)
  }

  lemma DrainStart<T>(slots: seq<Slot<T>>)
    ensures Draining(slots, slots, [], map[])
    ensures NullSlots(slots, []) == {}
  {
  }

  lemma DrainStep<T>(was: seq<Slot<T>>, now: seq<Slot<T>>, done: seq<nat>, rmap: map<T, nat>, node: nat)
    requires Draining(was, now, done, rmap)
    requires node < |was| && node !in done
    ensures now[node] == was[node]
    ensures was[node].data.None? ==>
              && Draining(was, now[node := Clean(None)], done + [node], rmap)
              && NullSlots(was, done + [node]) == NullSlots(was, done) + {node}
    ensures was[node].data.Some? ==>
              && Draining(was, now, done + [node], rmap[was[node].data.value := node])
              && NullSlots(was, done + [node]) == NullSlots(was, done)
  {
    assert forall i :: i in done + [node] <==> i in done || i == node;
  }

  lemma NextUndone<T>(slots: seq<Slot<T>>, held: set<nat>, leaked: set<nat>, list: seq<nat>,
                      done: seq<nat>, rest: seq<nat>)
    requires SlotsOk(slots, held, leaked, list) && done + rest == list && rest != []
    ensures rest[0] < |slots| && rest[0] !in done
  {
    assert list[|done|] == rest[0] && rest[0] in list;
    assert forall j :: 0 <= j < |done| ==> done[j] == list[j];
  }

  lemma DrainEnd<T>(was: seq<Slot<T>>, now: seq<Slot<T>>, held: set<nat>, leaked: set<nat>, rlist: seq<nat>,
                    pending: map<T, nat>, rmap: map<T, nat>)
    requires SlotsOk(was, held, leaked, rlist) && PendingOk(was, rlist, pending)
    requires Draining(was, now, rlist, rmap)
    ensures rmap == pending
    ensures Drained(now, held, leaked + NullSlots(was, rlist), pending)
    ensures ActiveWithin(now, was)
  {
    assert rmap.Keys == pending.Keys;
  }

  /** One step of the refill that deletes an address. */
  lemma FreeStep<T>(slots: seq<Slot<T>>, held: set<nat>, leaked: set<nat>, rlist: seq<nat>,
                    pending: map<T, nat>, rest: map<T, nat>, d: T)
    requires Drained(slots, held, leaked, pending) && Refilled(slots, rlist, pending, rest)
    requires d in rest
    ensures d in pending && rest[d] < |slots| && !slots[rest[d]].Active()
    ensures var after := slots[rest[d] := slots[rest[d]].(retired := false, inactive := true)];
            && Drained(after, held, leaked, pending - {d})
            && Refilled(after, rlist, pending - {d}, rest - {d})
  {
  }

  /** One step of the refill that lists a slot again. */
  lemma KeepStep<T>(slots: seq<Slot<T>>, held: set<nat>, leaked: set<nat>, rlist: seq<nat>,
                    pending: map<T, nat>, rest: map<T, nat>, d: T)
    requires Drained(slots, held, leaked, pending) && Refilled(slots, rlist, pending, rest)
    requires d in rest
    ensures Refilled(slots, [rest[d]] + rlist, pending, rest - {d})
  {
    assert forall i :: i in [rest[d]] + rlist <==> i == rest[d] || i in rlist;
    assert rest[d] !in rlist;
  }

  /** Waiting slots whose addresses are all held by active slots are no more than those. */
  lemma {:induction false} WaitingBound<T>(slots: seq<Slot<T>>, rlist: seq<nat>, pmap: map<Option<T>, nat>,
                                           active: set<nat>)
    requires forall i :: i in rlist ==> i < |slots| && slots[i].data in pmap && pmap[slots[i].data] in active
    requires forall x :: x in pmap ==> pmap[x] < |slots| && slots[pmap[x]].data == x
    requires forall j, k :: 0 <= j < k < |rlist| && rlist[j] < |slots| && rlist[k] < |slots| ==>
               slots[rlist[j]].data != slots[rlist[k]].data
    ensures |rlist| <= |active|
  {
    if rlist != [] {
      assert rlist[0] in rlist;
      var a := pmap[slots[rlist[0]].data];
      forall i | i in rlist[1..]
        ensures i in rlist && slots[i].data in pmap && pmap[slots[i].data] in active - {a}
      {
        var k :| 1 <= k < |rlist| && rlist[k] == i;
        assert slots[rlist[0]].data != slots[rlist[k]].data;
      }
      WaitingBound(slots, rlist[1..], pmap, active - {a});
    }
  }

  /** The same for the waiting slots after a scan. */
  lemma ScanBound<T>(slots: seq<Slot<T>>, held: set<nat>, leaked: set<nat>, rlist: seq<nat>,
                     pending: map<T, nat>, pmap: map<Option<T>, nat>)
    requires Addressed(slots, rlist)
    requires SlotsOk(slots, held, leaked, rlist) && PendingOk(slots, rlist, pending)
    requires forall d :: d in pending ==> Some(d) in pmap
    requires Covers(slots, pmap)
    ensures |rlist| <= |Actives(slots)|
    ensures forall d :: d in pending ==> !Unheld(slots, d)
  {
    forall j, k | 0 <= j < k < |rlist| && rlist[j] < |slots| && rlist[k] < |slots|
      ensures slots[rlist[j]].data != slots[rlist[k]].data
    {
      assert rlist[j] in rlist && rlist[k] in rlist;
    }
    forall i | i in rlist
      ensures i < |slots| && slots[i].data in pmap && pmap[slots[i].data] in Actives(slots)
    {
      assert slots[i].data == Some(slots[i].data.value) && slots[i].data.value in pending;
    }
    WaitingBound(slots, rlist, pmap, Actives(slots));
  }

  // ---------------------------------------------------------------- the three phases of a scan

  /** Empties rlist_ into a map from address to slot. A slot without an address loses its
      tags here, though no handle owns it. */
  method Drain<T(==)>(was: seq<Slot<T>>, list: seq<nat>, ghost held: set<nat>, ghost leaked: set<nat>,
                      ghost pending: map<T, nat>)
    returns (slots: seq<Slot<T>>, rmap: map<T, nat>)
    requires SlotsOk(was, held, leaked, list) && PendingOk(was, list, pending)
    ensures rmap == pending
    ensures Drained(slots, held, leaked + NullSlots(was, list), pending)
    ensures ActiveWithin(slots, was)
  {
    hide Draining, NullSlots, PendingOk, SlotsOk, Drained, ActiveWithin;
    var rlist := list;
    ghost var done: seq<nat> := [];
    slots, rmap := was, map[];
    DrainStart(was);
    while rlist != []
      invariant done + rlist == list && |slots| == |was|
      invariant Draining(was, slots, done, rmap)
      decreases |rlist|
    {
      var node := rlist[0];
      NextUndone(was, held, leaked, list, done, rlist);
      DrainStep(was, slots, done, rmap, node);
      rlist, done := rlist[1..], done + [node];
      var data := slots[node].data;
      if data.None? {
        slots := slots[node := slots[node].(retired := false, inactive := false)];
        continue;
      }
      rmap := rmap[data.value := node];
    }
    assert done == list;
    DrainEnd(was, slots, held, leaked, list, pending, rmap);
  }

  /** The addresses held by active slots, each with a slot that holds it. */
  method CollectActive<T(==)>(slots: seq<Slot<T>>) returns (pmap: map<Option<T>, nat>)
    ensures Covers(slots, pmap)
  {
    pmap := map[];
    for h := 0 to |slots|
      invariant forall i :: 0 <= i < h && slots[i].Active() ==> slots[i].data in pmap
      invariant forall x :: x in pmap ==>
                  pmap[x] < |slots| && slots[pmap[x]].Active() && slots[pmap[x]].data == x
    {
      var marked := slots[h].retired || slots[h].inactive;
      if !marked {
        pmap := pmap[slots[h].data := h];
      }
    }
  }

  /** Deletes every waiting address that no active slot holds, and lists the others again.
      The map is visited in an arbitrary order. */
  method FreeUnprotected<T(==)>(was: seq<Slot<T>>, rmap: map<T, nat>, pmap: map<Option<T>, nat>,
                                ghost held: set<nat>, ghost leaked: set<nat>)
    returns (slots: seq<Slot<T>>, rlist: seq<nat>, gone: seq<T>, ghost left: map<T, nat>)
    requires Drained(was, held, leaked, rmap) && Covers(was, pmap)
    ensures SlotsOk(slots, held, leaked, rlist) && PendingOk(slots, rlist, left)
    ensures Addressed(slots, rlist)
    ensures ActiveWithin(was, slots) && ActiveWithin(slots, was)
    ensures forall d :: d in left ==> Some(d) in pmap
    ensures Deleted(gone, rmap, left, was)
    ensures Accounts(gone, rmap, left)
  {
    hide Drained, Refilled, Deleted, Accounts, SlotsOk, PendingOk;
    slots, rlist, gone, left := was, [], [], rmap;
    var rest := rmap;
    RefillStart(was, held, leaked, rmap);
    DeleteStart(rmap, was);
    while rest != map[]
      invariant Drained(slots, held, leaked, left) && Refilled(slots, rlist, left, rest)
      invariant ActiveWithin(was, slots) && ActiveWithin(slots, was)
      invariant forall d :: d in left ==> d in rest || Some(d) in pmap
      invariant Deleted(gone, rmap, left, was)
      invariant Accounts(gone, rmap, left)
      decreases rest.Keys
    {
      var data :| data in rest;
      var node := rest[data];
      FreeStep(slots, held, leaked, rlist, left, rest, data);
      KeepStep(slots, held, leaked, rlist, left, rest, data);
      rest := rest - {data};
      if Some(data) !in pmap {
        DeleteStep(gone, rmap, left, was, data);
        gone := gone + [data];
        slots := slots[node := slots[node].(retired := false, inactive := true)];
        left := left - {data};
      } else {
        rlist := [node] + rlist;
      }
    }
    RefilledAll(slots, held, leaked, rlist, left, rest);
  }

  /** The whole scan. */
  method Scan<T(==)>(slots: seq<Slot<T>>, rlist: seq<nat>, freed: seq<T>, ghost s: State<T>)
    returns (slots': seq<Slot<T>>, rlist': seq<nat>, freed': seq<T>, ghost t: State<T>)
    requires Valid(s) && s.slots == slots && s.rlist == rlist && s.freed == freed
    ensures Valid(t) && Scanned(s, t) && t.slots == slots' && t.rlist == rlist' && t.freed == freed'
    ensures ActiveWithin(slots', slots) && freed <= freed' && |rlist'| <= |Actives(slots')|
  {
    hide SlotsOk, PendingOk, Drained, Deleted, Accounts, Actives, NullSlots, Balance, Covers, Addressed, Unheld;
    var drained, rmap := Drain(slots, rlist, s.held, s.leaked, s.pending);
    ghost var leaked := s.leaked + NullSlots(slots, rlist);
    var pmap := CollectActive(drained);
    var after, again, gone, left := FreeUnprotected(drained, rmap, pmap, s.held, leaked);
    DeletedWithin(gone, rmap, left, drained, after);
    BalanceScan(freed, gone, s.pending, left, s.lost, s.retirements);
    CoversWithin(drained, after, pmap);
    ScanBound(after, s.held, leaked, again, left, pmap);
    ActiveTrans(slots, drained, after);
    slots', rlist', freed' := after, again, freed + gone;
    assert freed'[|freed|..] == gone;
    t := s.(slots := after, rlist := again, freed := freed', leaked := leaked, pending := left);
  }
}
