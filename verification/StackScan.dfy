/** A scan of the retired nodes by a thread that runs alone: it comes to its end, and deletes
    exactly the waiting addresses that no active slot holds. */
module StackScan {
  import opened Common
  import HazardState
  import opened StackState
  import opened StackInvariant
  import opened StackSteps
  import opened StackLog
  import opened StackRuns
  import opened StackAlone

  /** Slot i waits with address d. */
  predicate Waits(w: seq<Slot>, rlist: seq<nat>, i: nat, d: Addr) {
    i in rlist && i < |w| && w[i].data == Some(d)
  }

  /** Slot i carries one of these addresses. */
  predicate Kept(slots: seq<Slot>, keys: set<Addr>, i: nat) {
    i < |slots| && slots[i].data.Some? && slots[i].data.value in keys
  }

  ghost predicate Waiting(slots: seq<Slot>, rlist: seq<nat>, d: Addr) {
    exists i :: Waits(slots, rlist, i, d)
  }

  /** One of the first j slots is active and holds d. */
  ghost predicate HeldBelow(slots: seq<Slot>, j: nat, d: Addr) {
    exists i :: 0 <= i < j && i < |slots| && slots[i].Active() && slots[i].data == Some(d)
  }

  /** What each listed slot carries, and that no two carry the same. */
  ghost predicate Records(slots: seq<Slot>, rlist: seq<nat>) {
    && Distinct(rlist)
    && (forall i :: i in rlist ==> i < |slots| && slots[i].retired && !slots[i].inactive && slots[i].data.Some?)
    && forall i, k :: i in rlist && k in rlist && slots[i].data == slots[k].data ==> i == k
  }

  lemma RecordsHere<T>(s: State<T>)
    requires Sound(s)
    ensures Records(s.slots, s.rlist) && |s.slots| == |s.role|
    ensures forall i: nat, d: Addr :: Waits(s.slots, s.rlist, i, d) ==> d < |s.status|
  {
    hide CellsOk, StackOk, FreedOk, ThreadsOk, ScansOk;
    forall i | i in s.rlist
      ensures i < |s.slots| && s.slots[i].retired && !s.slots[i].inactive && Carries(s.slots, s.status, i)
    {
      var k :| 0 <= k < |s.rlist| && s.rlist[k] == i;
      assert SlotMatches(s.slots[i], s.role[i]);
    }
  }

  // ---------------------------------------------------------------- the phases

  /** x is w but for what the scan of thread t changes. */
  ghost predicate ScanOf<T>(w: State<T>, x: State<T>, t: Tid) {
    && x == w.(slots := x.slots, role := x.role, rlist := x.rlist, freed := x.freed, status := x.status,
               threads := x.threads)
    && t in w.threads && t in x.threads && x.threads == w.threads[t := w.threads[t].(pc := x.threads[t].pc)]
    && |x.slots| == |x.role| == |w.slots| && |x.status| == |w.status|
  }

  /** rmap has what these records carry, and nothing else. */
  ghost predicate Maps(slots: seq<Slot>, rlist: seq<nat>, rmap: map<Addr, nat>) {
    && |rmap| == |rlist|
    && (forall d :: d in rmap ==> Waits(slots, rlist, rmap[d], d))
    && forall i :: i in rlist ==> Kept(slots, rmap.Keys, i)
  }

  /** k records have been taken off the list. */
  ghost predicate DrainedTo<T>(w: State<T>, x: State<T>, rmap: map<Addr, nat>, k: nat) {
    && k <= |w.rlist| && x.rlist == w.rlist[k..]
    && x.slots == w.slots && x.status == w.status && x.freed == w.freed
    && Maps(w.slots, w.rlist[..k], rmap)
  }

  ghost predicate AllDrained<T>(w: State<T>, rmap: map<Addr, nat>) {
    Maps(w.slots, w.rlist, rmap)
  }

  /** An active slot holds what slot i carries. */
  ghost predicate HeldToo(slots: seq<Slot>, i: nat) {
    i < |slots| && slots[i].data.Some? && HeldBelow(slots, |slots|, slots[i].data.value)
  }

  ghost predicate SeenTo<T>(w: State<T>, pmap: set<Addr>, j: nat) {
    forall d: Addr :: d in pmap <==> HeldBelow(w.slots, j, d)
  }

  ghost predicate Visited<T>(w: State<T>, x: State<T>, rmap: map<Addr, nat>, pmap: set<Addr>, j: nat, end: nat) {
    && x.rlist == [] && x.slots == w.slots && x.status == w.status && x.freed == w.freed
    && AllDrained(w, rmap) && SeenTo(w, pmap, j) && j <= end && end == |w.slots|
  }

  /** Slot i has been given back, its address deleted. */
  ghost predicate GivenBack<T>(w: State<T>, rmap: map<Addr, nat>, pmap: set<Addr>, i: nat)
    requires i < |w.slots|
  {
    i in w.rlist && !Kept(w.slots, rmap.Keys, i) && !Kept(w.slots, pmap, i)
  }

  /** All of rmap's addresses are still to be dealt with; of the others those in pmap are
      listed again and the rest are deleted. */
  ghost predicate FreedBut<T>(w: State<T>, x: State<T>, rmap: map<Addr, nat>, pmap: set<Addr>) {
    && |x.slots| == |w.slots|
    && (forall d :: d in rmap ==> Waits(w.slots, w.rlist, rmap[d], d))
    && (forall i :: 0 <= i < |w.slots| ==>
          x.slots[i] == if GivenBack(w, rmap, pmap, i) then w.slots[i].(retired := false, inactive := true)
                        else w.slots[i])
    && (forall a: Addr :: a in x.freed <==>
          a in w.freed || (Waiting(w.slots, w.rlist, a) && a !in rmap && a !in pmap))
    && (forall i: nat :: i in x.rlist <==>
          i in w.rlist && !Kept(w.slots, rmap.Keys, i) && Kept(w.slots, pmap, i))
  }

  /** Where a scan by thread t, begun in state w, stands in state x. */
  ghost predicate Phase<T>(w: State<T>, x: State<T>, t: Tid) {
    && t in x.threads && ScanOf(w, x, t) && Records(w.slots, w.rlist)
    && (forall i: nat, d: Addr :: Waits(w.slots, w.rlist, i, d) ==> d < |w.status|)
    && match x.threads[t].pc
       case Drain(rmap) => exists k: nat :: DrainedTo(w, x, rmap, k)
       case VisitTag(rmap, pmap, j, end) => Visited(w, x, rmap, pmap, j, end)
       case VisitData(rmap, pmap, j, end) =>
         j < end && j < |w.slots| && w.slots[j].Active() && Visited(w, x, rmap, pmap, j, end)
       case Free(rmap, pmap) => SeenTo(w, pmap, |w.slots|) && FreedBut(w, x, rmap, pmap)
       case _ => false
  }

  /** The steps a scan still takes. */
  function Budget<T>(s: State<T>, pc: Pc<T>): nat {
    match pc
    case Drain(rmap) => 2 * |s.rlist| + |rmap| + 2 * |s.slots| + 3
    case VisitTag(rmap, _, j, end) => (if j <= end then 2 * (end - j) else 0) + |rmap| + 2
    case VisitData(rmap, _, j, end) => (if j < end then 2 * (end - j) else 1) + |rmap| + 1
    case Free(rmap, _) => |rmap| + 1
    case _ => 0
  }

  /** A scan has given back exactly the listed slots whose address no active slot holds, and
      deleted those addresses; the others are listed again. */
  ghost predicate Cleaned(slots: seq<Slot>, rlist: seq<nat>, freed: seq<Addr>,
                          slots': seq<Slot>, rlist': seq<nat>, freed': seq<Addr>) {
    && |slots'| == |slots|
    && (forall i :: 0 <= i < |slots| ==>
          slots'[i] == if i in rlist && !HeldToo(slots, i) then slots[i].(retired := false, inactive := true)
                       else slots[i])
    && (forall a: Addr :: a in freed' <==>
          a in freed || (Waiting(slots, rlist, a) && !HeldBelow(slots, |slots|, a)))
    && (forall i: nat :: i in rlist' <==> i in rlist && HeldToo(slots, i))
  }

  /** The thread has returned from the scan. */
  ghost predicate ScanEnd<T>(w: State<T>, u: State<T>, t: Tid) {
    && t in w.threads
    && u == w.(slots := u.slots, role := u.role, rlist := u.rlist, freed := u.freed, status := u.status,
               busy := false, threads := w.threads[t := Thread(Idle, Quiet)],
               log := w.log + [Ret(t, ResultOf(w.threads[t]))])
    && Cleaned(w.slots, w.rlist, w.freed, u.slots, u.rlist, u.freed)
  }

  // ---------------------------------------------------------------- the steps

  ghost predicate AptPick<T>(s: State<T>, t: Tid, c: Choice<T>) {
    var pc := At(s.threads, t).pc;
    pc.Free? && pc.rmap != map[] ==> c.Pick? && c.addr in pc.rmap
  }

  ghost predicate Onward<T>(w: State<T>, x: State<T>, t: Tid, u: State<T>) {
    && Phase(w, x, t)
    && if Scanning(At(u.threads, t).pc)
       then Phase(w, u, t) && Budget(u, At(u.threads, t).pc) < Budget(x, x.threads[t].pc)
       else ScanEnd(w, u, t) && Budget(x, x.threads[t].pc) >= 1
  }

  lemma PrefixMore(q: seq<nat>, k: nat)
    requires k < |q|
    ensures q[..k + 1] == q[..k] + [q[k]] && q[k..][0] == q[k] && q[k..][1..] == q[k + 1..]
    ensures q[k] in q
    ensures forall i: nat :: i in q[..k + 1] <==> i in q[..k] || i == q[k]
    ensures forall i: nat :: i in q[..k] ==> i in q
  {
  }

  lemma DrainMore<T>(w: State<T>, x: State<T>, rmap: map<Addr, nat>, k: nat)
    requires DrainedTo(w, x, rmap, k) && Records(w.slots, w.rlist) && k < |w.rlist|
    ensures var i := w.rlist[k]; i < |w.slots| && w.slots[i].data.Some?
    ensures var i := w.rlist[k]; var d := w.slots[i].data.value;
            && d !in rmap
            && DrainedTo(w, x.(rlist := w.rlist[k + 1..]), rmap[d := i], k + 1)
  {
    hide Maps, Records;
    PrefixMore(w.rlist, k);
    RecordFresh(w.slots, w.rlist, rmap, k);
    var i := w.rlist[k];
    MapsMore(w.slots, w.rlist[..k], rmap, i, w.slots[i].data.value);
  }

  lemma MapsMore(slots: seq<Slot>, rlist: seq<nat>, rmap: map<Addr, nat>, i: nat, d: Addr)
    requires Maps(slots, rlist, rmap) && i < |slots| && slots[i].data == Some(d) && d !in rmap
    ensures Maps(slots, rlist + [i], rmap[d := i])
  {
  }

  lemma RecordFresh(slots: seq<Slot>, rlist: seq<nat>, rmap: map<Addr, nat>, k: nat)
    requires Records(slots, rlist) && k < |rlist|
    requires Maps(slots, rlist[..k], rmap)
    ensures rlist[k] < |slots| && slots[rlist[k]].data.Some? && slots[rlist[k]].data.value !in rmap
  {
    PrefixMore(rlist, k);
    assert rlist[k] !in rlist[..k];
  }

  lemma DrainAll<T>(w: State<T>, x: State<T>, rmap: map<Addr, nat>, k: nat)
    requires DrainedTo(w, x, rmap, k) && x.rlist == []
    ensures AllDrained(w, rmap)
  {
    assert k == |w.rlist| && w.rlist[..k] == w.rlist;
  }

  lemma ScanMoved<T>(w: State<T>, x: State<T>, t: Tid, u: State<T>, pc: Pc<T>)
    requires ScanOf(w, x, t) && |u.slots| == |u.role| == |x.slots| && |u.status| == |x.status|
    requires u == Moved(x.(slots := u.slots, role := u.role, rlist := u.rlist, freed := u.freed, status := u.status),
                        t, pc)
    ensures ScanOf(w, u, t) && u.threads[t].pc == pc
  {
  }

  lemma DrainEnds<T>(w: State<T>, x: State<T>, t: Tid, rmap: map<Addr, nat>, k: nat)
    requires Phase(w, x, t) && x.threads[t].pc == Drain(rmap) && DrainedTo(w, x, rmap, k) && x.rlist == []
    ensures Onward(w, x, t, StepDrain(x, t, rmap))
  {
    var u := StepDrain(x, t, rmap);
    DrainAll(w, x, rmap, k);
    hide Waits, Records, AllDrained;
    ScanMoved(w, x, t, u, VisitTag(rmap, {}, 0, |x.slots|));
    hide ScanOf;
    assert Visited(w, u, rmap, {}, 0, |x.slots|);
    hide Visited;
  }

  lemma DrainStep<T>(x: State<T>, t: Tid, rmap: map<Addr, nat>, i: nat, d: Addr)
    requires x.rlist != [] && x.rlist[0] == i && i < |x.slots| == |x.role| && x.slots[i].data == Some(d)
    ensures StepDrain(x, t, rmap)
         == Moved(x.(rlist := x.rlist[1..], role := x.role[i := InScan]), t, Drain(rmap[d := i]))
  {
  }

  lemma DrainFirst<T>(w: State<T>, x: State<T>, rmap: map<Addr, nat>, k: nat)
    requires DrainedTo(w, x, rmap, k) && Records(w.slots, w.rlist) && x.rlist != []
    ensures k < |w.rlist| && x.rlist[0] == w.rlist[k] && x.rlist[1..] == w.rlist[k + 1..] && x.slots == w.slots
  {
  }

  lemma DrainTakes<T>(w: State<T>, x: State<T>, t: Tid, rmap: map<Addr, nat>, k: nat)
    requires Phase(w, x, t) && x.threads[t].pc == Drain(rmap) && DrainedTo(w, x, rmap, k) && x.rlist != []
    ensures Onward(w, x, t, StepDrain(x, t, rmap))
  {
    hide Waits, Records, DrainedTo, StepDrain;
    DrainFirst(w, x, rmap, k);
    DrainMore(w, x, rmap, k);
    var i := w.rlist[k];
    var d := w.slots[i].data.value;
    DrainStep(x, t, rmap, i, d);
    var u := StepDrain(x, t, rmap);
    ScanMoved(w, x, t, u, Drain(rmap[d := i]));
    hide ScanOf;
    DrainedSame(w, x.(rlist := w.rlist[k + 1..]), u, rmap[d := i], k + 1);
  }

  lemma DrainOnward<T>(w: State<T>, x: State<T>, t: Tid)
    requires Phase(w, x, t) && x.threads[t].pc.Drain?
    ensures Onward(w, x, t, StepDrain(x, t, x.threads[t].pc.rmap))
  {
    hide Waits, Records, ScanOf, DrainedTo, Onward;
    var rmap := x.threads[t].pc.rmap;
    var k: nat :| DrainedTo(w, x, rmap, k);
    if x.rlist == [] {
      DrainEnds(w, x, t, rmap, k);
    } else {
      DrainTakes(w, x, t, rmap, k);
    }
  }

  lemma DrainedSame<T>(w: State<T>, x: State<T>, u: State<T>, rmap: map<Addr, nat>, k: nat)
    requires DrainedTo(w, x, rmap, k)
    requires u.rlist == x.rlist && u.slots == x.slots && u.status == x.status && u.freed == x.freed
    ensures DrainedTo(w, u, rmap, k)
  {
  }

  lemma SeenNext<T>(w: State<T>, pmap: set<Addr>, j: nat)
    requires SeenTo(w, pmap, j) && j < |w.slots|
    ensures !w.slots[j].Active() ==> SeenTo(w, pmap, j + 1)
    ensures w.slots[j].Active() ==>
              SeenTo(w, pmap + (if w.slots[j].data.Some? then {w.slots[j].data.value} else {}), j + 1)
  {
    forall d: Addr
      ensures HeldBelow(w.slots, j + 1, d)
         <==> HeldBelow(w.slots, j, d) || (w.slots[j].Active() && w.slots[j].data == Some(d))
    {
      if HeldBelow(w.slots, j + 1, d) {
        var i :| 0 <= i < j + 1 && i < |w.slots| && w.slots[i].Active() && w.slots[i].data == Some(d);
      }
    }
    hide HeldBelow;
  }

  lemma VisitSame<T>(w: State<T>, x: State<T>, u: State<T>, rmap: map<Addr, nat>, pmap: set<Addr>, j: nat, end: nat,
                     now: set<Addr>, k: nat)
    requires Visited(w, x, rmap, pmap, j, end) && SeenTo(w, now, k) && k <= end
    requires u.rlist == x.rlist && u.slots == x.slots && u.status == x.status && u.freed == x.freed
    ensures Visited(w, u, rmap, now, k, end)
  {
    hide SeenTo, AllDrained;
  }

  lemma VisitEnds<T>(w: State<T>, x: State<T>, u: State<T>, rmap: map<Addr, nat>, pmap: set<Addr>, end: nat)
    requires Visited(w, x, rmap, pmap, end, end)
    requires u.rlist == x.rlist && u.slots == x.slots && u.status == x.status && u.freed == x.freed
    ensures SeenTo(w, pmap, |w.slots|) && FreedBut(w, u, rmap, pmap)
  {
    hide SeenTo;
  }

  lemma VisitStep<T>(x: State<T>, t: Tid, rmap: map<Addr, nat>, pmap: set<Addr>, j: nat, end: nat)
    requires j <= end == |x.slots|
    ensures StepVisitTag(x, t, rmap, pmap, j, end)
         == Moved(x, t, if j == end then Free(rmap, pmap)
                        else if x.slots[j].Active() then VisitData(rmap, pmap, j, end)
                        else VisitTag(rmap, pmap, j + 1, end))
  {
  }

  lemma VisitTagOnward<T>(w: State<T>, x: State<T>, t: Tid, rmap: map<Addr, nat>, pmap: set<Addr>, j: nat, end: nat)
    requires Phase(w, x, t) && x.threads[t].pc == VisitTag(rmap, pmap, j, end)
    ensures Onward(w, x, t, StepVisitTag(x, t, rmap, pmap, j, end))
  {
    hide Waits, Records, SeenTo, Maps, HeldBelow, FreedBut, StepVisitTag, ScanOf;
    VisitStep(x, t, rmap, pmap, j, end);
    var u := StepVisitTag(x, t, rmap, pmap, j, end);
    VisitSizes(w, x, t);
    ScanMoved(w, x, t, u, u.threads[t].pc);
    if j < end {
      SeenNext(w, pmap, j);
      VisitSame(w, x, u, rmap, pmap, j, end, pmap, if x.slots[j].Active() then j else j + 1);
    } else {
      VisitEnds(w, x, u, rmap, pmap, end);
    }
  }

  lemma VisitSizes<T>(w: State<T>, x: State<T>, t: Tid)
    requires ScanOf(w, x, t)
    ensures |x.slots| == |x.role|
  {
  }

  lemma VisitDataOnward<T>(w: State<T>, x: State<T>, t: Tid, rmap: map<Addr, nat>, pmap: set<Addr>, j: nat, end: nat)
    requires Phase(w, x, t) && x.threads[t].pc == VisitData(rmap, pmap, j, end)
    ensures Onward(w, x, t, StepVisitData(x, t, rmap, pmap, j, end))
  {
    hide Waits, Records, SeenTo, AllDrained, HeldBelow;
    var u := StepVisitData(x, t, rmap, pmap, j, end);
    ScanMoved(w, x, t, u, u.threads[t].pc);
    SeenNext(w, pmap, j);
    var seen := if x.slots[j].data.Some? then {x.slots[j].data.value} else {};
    VisitSame(w, x, u, rmap, pmap, j, end, pmap + seen, j + 1);
    hide ScanOf, Visited;
  }

  // ---------------------------------------------------------------- deleting

  lemma FreedEnd<T>(w: State<T>, x: State<T>, t: Tid, pmap: set<Addr>)
    requires Phase(w, x, t) && x.threads[t].pc == Free(map[], pmap)
    ensures ScanEnd(w, Returned(x.(busy := false), t, ResultOf(At(x.threads, t))), t)
  {
    hide Waits, HeldBelow;
    assert forall i :: 0 <= i < |w.slots| && i in w.rlist ==> (Kept(w.slots, pmap, i) <==> HeldToo(w.slots, i));
    hide Kept, HeldToo;
  }

  /** Without d in rmap only its slot's part changes. */
  lemma KeptLess<T>(w: State<T>, rmap: map<Addr, nat>, d: Addr, k: nat)
    requires Records(w.slots, w.rlist) && d in rmap && Waits(w.slots, w.rlist, rmap[d], d) && k in w.rlist
    ensures k != rmap[d] ==> (Kept(w.slots, (rmap - {d}).Keys, k) <==> Kept(w.slots, rmap.Keys, k))
    ensures !Kept(w.slots, (rmap - {d}).Keys, rmap[d])
  {
  }

  lemma FreedMoreMap<T>(w: State<T>, x: State<T>, rmap: map<Addr, nat>, pmap: set<Addr>, d: Addr, u: State<T>)
    requires FreedBut(w, x, rmap, pmap) && Records(w.slots, w.rlist) && d in rmap && d !in pmap && rmap[d] < |x.slots|
    requires u.slots == x.slots[rmap[d] := x.slots[rmap[d]].(retired := false, inactive := true)]
    requires u.freed == x.freed + [d] && u.rlist == x.rlist
    ensures FreedBut(w, u, rmap - {d}, pmap)
  {
    forall k | k in w.rlist
      ensures k != rmap[d] ==> (Kept(w.slots, (rmap - {d}).Keys, k) <==> Kept(w.slots, rmap.Keys, k))
      ensures !Kept(w.slots, (rmap - {d}).Keys, rmap[d])
    {
      KeptLess(w, rmap, d, k);
    }
    assert Waits(w.slots, w.rlist, rmap[d], d);
    assert !Kept(w.slots, pmap, rmap[d]) && Kept(w.slots, rmap.Keys, rmap[d]);
    assert Waiting(w.slots, w.rlist, d);
    assert forall a: Addr :: a in u.freed <==> a in x.freed || a == d;
    hide Kept, Waiting, Records;
  }

  lemma KeptMoreMap<T>(w: State<T>, x: State<T>, rmap: map<Addr, nat>, pmap: set<Addr>, d: Addr, u: State<T>)
    requires FreedBut(w, x, rmap, pmap) && Records(w.slots, w.rlist) && d in rmap && d in pmap
    requires u.slots == x.slots && u.freed == x.freed && u.rlist == [rmap[d]] + x.rlist
    ensures FreedBut(w, u, rmap - {d}, pmap)
  {
    forall k | k in w.rlist
      ensures k != rmap[d] ==> (Kept(w.slots, (rmap - {d}).Keys, k) <==> Kept(w.slots, rmap.Keys, k))
      ensures !Kept(w.slots, (rmap - {d}).Keys, rmap[d])
    {
      KeptLess(w, rmap, d, k);
    }
    assert Waits(w.slots, w.rlist, rmap[d], d);
    assert Kept(w.slots, pmap, rmap[d]) && Kept(w.slots, rmap.Keys, rmap[d]);
    assert forall i: nat :: i in u.rlist <==> i in x.rlist || i == rmap[d];
    hide Kept, Waiting, Records;
  }

  lemma FreeTakes<T>(x: State<T>, t: Tid, c: Choice<T>, rmap: map<Addr, nat>, pmap: set<Addr>, d: Addr)
    requires c == Pick(d) && d in rmap && d < |x.status| && rmap[d] < |x.slots| == |x.role|
    ensures var u, i := StepFree(x, t, c, rmap, pmap), rmap[d];
            && u == Moved(x.(slots := u.slots, role := u.role, rlist := u.rlist, freed := u.freed, status := u.status),
                          t, Free(rmap - {d}, pmap))
            && |u.slots| == |x.slots| == |u.role| && |u.status| == |x.status|
            && if d in pmap then u.slots == x.slots && u.freed == x.freed && u.rlist == [i] + x.rlist
               else u.slots == x.slots[i := x.slots[i].(retired := false, inactive := true)]
                    && u.freed == x.freed + [d] && u.rlist == x.rlist
  {
  }

  lemma MapLess(rmap: map<Addr, nat>, d: Addr)
    requires d in rmap
    ensures |rmap - {d}| == |rmap| - 1
  {
    assert rmap == (rmap - {d})[d := rmap[d]];
  }

  lemma FreeEnds<T>(w: State<T>, x: State<T>, t: Tid, c: Choice<T>, pmap: set<Addr>)
    requires Phase(w, x, t) && x.threads[t].pc == Free(map[], pmap)
    ensures Onward(w, x, t, StepFree(x, t, c, map[], pmap))
  {
    hide Phase, ScanEnd;
    ScanningHere(w, x, t);
    FreedEnd(w, x, t, pmap);
  }

  lemma FreeDeals<T>(w: State<T>, x: State<T>, t: Tid, rmap: map<Addr, nat>, pmap: set<Addr>, d: Addr)
    requires Phase(w, x, t) && x.threads[t].pc == Free(rmap, pmap) && d in rmap
    ensures Onward(w, x, t, StepFree(x, t, Pick(d), rmap, pmap))
  {
    hide Waits, SeenTo, HeldBelow, StepFree, Records, FreedBut;
    FreeHere(w, x, t, rmap, pmap, d);
    FreeTakes(x, t, Pick(d), rmap, pmap, d);
    var u := StepFree(x, t, Pick(d), rmap, pmap);
    ScanMoved(w, x, t, u, Free(rmap - {d}, pmap));
    hide ScanOf;
    if d in pmap {
      KeptMoreMap(w, x, rmap, pmap, d, u);
    } else {
      FreedMoreMap(w, x, rmap, pmap, d, u);
    }
    MapLess(rmap, d);
  }

  lemma FreeOnward<T>(w: State<T>, x: State<T>, t: Tid, c: Choice<T>, rmap: map<Addr, nat>, pmap: set<Addr>)
    requires Phase(w, x, t) && x.threads[t].pc == Free(rmap, pmap) && AptPick(x, t, c)
    ensures Onward(w, x, t, StepFree(x, t, c, rmap, pmap))
  {
    hide Phase, Onward, StepFree;
    ScanningHere(w, x, t);
    if rmap == map[] {
      FreeEnds(w, x, t, c, pmap);
    } else {
      FreeDeals(w, x, t, rmap, pmap, c.addr);
    }
  }

  lemma FreeHere<T>(w: State<T>, x: State<T>, t: Tid, rmap: map<Addr, nat>, pmap: set<Addr>, d: Addr)
    requires Phase(w, x, t) && x.threads[t].pc == Free(rmap, pmap) && d in rmap
    ensures rmap[d] < |x.slots| == |x.role| && d < |x.status| && FreedBut(w, x, rmap, pmap) && Records(w.slots, w.rlist)
  {
    assert Waits(w.slots, w.rlist, rmap[d], d);
    hide SeenTo;
  }

  // ---------------------------------------------------------------- the whole scan

  lemma ScanOnward<T>(w: State<T>, x: State<T>, t: Tid, c: Choice<T>)
    requires Phase(w, x, t) && AptPick(x, t, c)
    ensures Onward(w, x, t, Next(x, t, c))
  {
    hide ScanOf, Records, DrainedTo, Visited, SeenTo, FreedBut, Waits, AptPick, Onward;
    match x.threads[t].pc {
      case Drain(rmap) => DrainOnward(w, x, t);
      case VisitTag(rmap, pmap, j, end) => VisitTagOnward(w, x, t, rmap, pmap, j, end);
      case VisitData(rmap, pmap, j, end) => VisitDataOnward(w, x, t, rmap, pmap, j, end);
      case Free(rmap, pmap) => FreeOnward(w, x, t, c, rmap, pmap);
    }
  }

  ghost predicate AptPicks<T>(s: State<T>, t: Tid, cs: seq<Choice<T>>) {
    forall n :: 0 <= n < |cs| ==> AptPick(Alone(s, t, cs, n), t, cs[n])
  }

  lemma ScanningHere<T>(w: State<T>, x: State<T>, t: Tid)
    requires Phase(w, x, t)
    ensures t in x.threads && Scanning(x.threads[t].pc)
  {
  }

  /** From any point of a scan on, a thread that runs alone ends it within its budget. */
  lemma {:induction false} ScanGoesOn<T>(w: State<T>, s: State<T>, t: Tid, cs: seq<Choice<T>>, k: nat) returns (n: nat)
    requires k <= |cs| && AptPicks(s, t, cs) && Phase(w, Alone(s, t, cs, k), t)
    requires k + Budget(Alone(s, t, cs, k), At(Alone(s, t, cs, k).threads, t).pc) <= |cs|
    ensures k < n <= k + Budget(Alone(s, t, cs, k), At(Alone(s, t, cs, k).threads, t).pc)
    ensures n <= |cs| && ScanEnd(w, Alone(s, t, cs, n), t)
    decreases Budget(Alone(s, t, cs, k), At(Alone(s, t, cs, k).threads, t).pc)
  {
    hide Phase, Alone, Next, Budget, Scanning, ScanEnd, AptPick;
    var x := Alone(s, t, cs, k);
    ScanningHere(w, x, t);
    BudgetUsed(x, x.threads[t].pc);
    AloneNext(s, t, cs, k);
    ScanOnward(w, x, t, cs[k]);
    var u := Next(x, t, cs[k]);
    if Scanning(At(u.threads, t).pc) {
      n := ScanGoesOn(w, s, t, cs, k + 1);
    } else {
      n := k + 1;
    }
  }

  lemma BudgetUsed<T>(x: State<T>, pc: Pc<T>)
    requires Scanning(pc)
    ensures Budget(x, pc) >= 1
  {
  }

  // ---------------------------------------------------------------- the whole pop

  lemma ScanBegins<T>(w: State<T>, t: Tid)
    requires Sound(w) && t in w.threads && w.threads[t].pc == Drain(map[])
    ensures Phase(w, w, t)
  {
    SizesOk(w);
    RecordsHere(w);
    hide Sound, Records, Waits;
    assert DrainedTo(w, w, map[], 0);
  }

  lemma LimitSteps<T>(z: State<T>, t: Tid, c: Choice<T>, d: Choice<T>)
    requires t in z.threads && z.threads[t].pc == PopLimit
    ensures |z.rlist| < 2 ==> Next(z, t, c) == Returned(z, t, ResultOf(z.threads[t]))
    ensures |z.rlist| >= 2 && z.busy ==> Next(Next(z, t, c), t, d) == Returned(z, t, ResultOf(z.threads[t]))
    ensures |z.rlist| >= 2 && !z.busy ==>
              Next(Next(z, t, c), t, d)
              == z.(busy := true, threads := z.threads[t := z.threads[t].(pc := Drain(map[]))])
  {
  }

  lemma ElevenSteps<T>(s: State<T>, t: Tid, cs: seq<Choice<T>>)
    requires |cs| >= 11
    ensures Alone(s, t, cs, 10) == Next(Alone(s, t, cs, 9), t, cs[9])
    ensures Alone(s, t, cs, 11) == Next(Next(Alone(s, t, cs, 9), t, cs[9]), t, cs[10])
  {
    hide Next, Alone;
    AloneNext(s, t, cs, 9);
    AloneNext(s, t, cs, 10);
  }

  ghost predicate RetireEnd<T>(z: State<T>, t: Tid, u: State<T>) {
    && t in z.threads
    && u == z.(slots := u.slots, role := u.role, rlist := u.rlist, freed := u.freed, status := u.status,
               busy := u.busy, threads := z.threads[t := Thread(Idle, Quiet)],
               log := z.log + [Ret(t, ResultOf(z.threads[t]))])
    && AfterRetiring(z.slots, z.rlist, z.freed, z.busy, u)
  }

  /** With slots and records like these, fewer than two of them or a scan under way, nothing
      changes; otherwise there has been a scan. */
  ghost predicate AfterRetiring<T>(slots: seq<Slot>, rlist: seq<nat>, freed: seq<Addr>, busy: bool, u: State<T>) {
    if |rlist| < 2 || busy
    then u.slots == slots && u.rlist == rlist && u.freed == freed && u.busy == busy
    else !u.busy && Cleaned(slots, rlist, freed, u.slots, u.rlist, u.freed)
  }

  /** How the pop ends that has put its node on the list of retired ones. */
  lemma RetireAlone<T>(s: State<T>, t: Tid, cs: seq<Choice<T>>, z: State<T>) returns (n: nat)
    requires |cs| >= 14 + 2 * |z.rlist| + 2 * |z.slots| && AptPicks(s, t, cs)
    requires Alone(s, t, cs, 9) == z && Inv(z) && t in z.threads && z.threads[t].pc == PopLimit
    ensures n <= 14 + 2 * |z.rlist| + 2 * |z.slots|
    ensures RetireEnd(z, t, Alone(s, t, cs, n))
  {
    hide Inv, Next, Alone, AptPicks, Cleaned, Phase, ScanEnd, RetireEnd, ResultOf, AfterRetiring;
    ElevenSteps(s, t, cs);
    LimitSteps(z, t, cs[9], cs[10]);
    if |z.rlist| < 2 {
      n := 10;
      ReturnEnds(z, t);
    } else if z.busy {
      n := 11;
      ReturnEnds(z, t);
    } else {
      var w := Alone(s, t, cs, 11);
      TwoInv(z, t, cs[9], cs[10]);
      InvSound(w);
      ScanBegins(w, t);
      n := ScanGoesOn(w, s, t, cs, 11);
      ScanEnds(z, t, w, Alone(s, t, cs, n));
    }
  }

  lemma ReturnEnds<T>(z: State<T>, t: Tid)
    requires t in z.threads && (|z.rlist| < 2 || z.busy)
    ensures RetireEnd(z, t, Returned(z, t, ResultOf(z.threads[t])))
  {
  }

  lemma ScanEnds<T>(z: State<T>, t: Tid, w: State<T>, u: State<T>)
    requires t in z.threads && |z.rlist| >= 2 && !z.busy
    requires w == z.(busy := true, threads := z.threads[t := z.threads[t].(pc := Drain(map[]))])
    requires ScanEnd(w, u, t)
    ensures RetireEnd(z, t, u)
  {
    hide Cleaned;
  }

  lemma TwoInv<T>(z: State<T>, t: Tid, c: Choice<T>, d: Choice<T>)
    requires Inv(z)
    ensures Inv(Next(Next(z, t, c), t, d))
  {
    hide Inv, Next;
    NextInv(z, t, c);
    NextInv(Next(z, t, c), t, d);
  }

  lemma InvSound<T>(s: State<T>)
    requires Inv(s)
    ensures Sound(s)
  {
  }

  /** A pop of a stack that is not empty ends, if it runs alone and its choices apply. It answers
      the latest value, which leaves the stack. Its node is retired; if that makes two and no
      scan is under way, all retired nodes that no active slot holds are deleted. */
  lemma PopAlone<T>(s: State<T>, t: Tid, cs: seq<Choice<T>>, st: seq<T>) returns (n: nat)
    requires Inv(s) && At(s.threads, t).pc == Idle && Contains(s, st) && st != []
    requires |cs| >= 18 + 2 * |s.rlist| + 2 * |s.slots|
    requires cs[0] == DoPop && Takes(cs[5], s.slots) && AptPicks(s, t, cs)
    ensures n <= 18 + 2 * |s.rlist| + 2 * |s.slots|
    ensures var u := Alone(s, t, cs, n);
            && Inv(u) && Resting(u, t) && OthersRest(s, t, u)
            && Contains(u, st[1..]) && u.counter == s.counter - 1
            && u.log == s.log + [Call(t, Pop), Lin(t, Pop, Popped(st[0])), Ret(t, Popped(st[0]))]
            && AfterRetiring(Put(s.slots, cs[5].slot, HazardState.Slot(true, false, Some(s.head))),
                       [cs[5].slot] + s.rlist, s.freed, s.busy, u)
  {
    hide *;
    IdleRests(s, t);
    TopHere(s, st);
    TakesHere(s, cs[5]);
    var i, a, next := cs[5].slot, s.head, s.mem[s.head].next.value;
    PopSteps(s, t, a, next, st[0], cs);
    AloneInv(s, t, cs, 9);
    var z := Alone(s, t, cs, 9);
    PopDoneSizes(s, t, a, next, st[0], i);
    n := RetireAlone(s, t, cs, z);
    AloneInv(s, t, cs, n);
    var u := Alone(s, t, cs, n);
    PopEnds(s, t, a, next, st[0], i, u);
    InvSound(u);
    StackIs(u);
    ContainsRest(s, st, u);
  }

  lemma TakesHere<T>(s: State<T>, c: Choice<T>)
    requires Takes(c, s.slots)
    ensures c.TakeSlot? && c.slot <= |s.slots|
  {
  }

  lemma PopDoneSizes<T>(s: State<T>, t: Tid, a: Addr, n: Addr, v: T, i: nat)
    requires i <= |s.slots| == |s.role| && a < |s.status| && s.stk != []
    ensures var z := PopDone(s, t, a, n, v, i, PopLimit);
            |z.rlist| == |s.rlist| + 1 && |z.slots| <= |s.slots| + 1 && t in z.threads && z.threads[t].pc == PopLimit
  {
  }

  lemma PopEnds<T>(s: State<T>, t: Tid, a: Addr, n: Addr, v: T, i: nat, u: State<T>)
    requires i <= |s.slots| == |s.role| && a < |s.status| && s.stk != []
    requires RetireEnd(PopDone(s, t, a, n, v, i, PopLimit), t, u)
    ensures u.stk == s.stk[1..] && u.mem == s.mem && u.counter == s.counter - 1
    ensures u.log == s.log + [Call(t, Pop), Lin(t, Pop, Popped(v)), Ret(t, Popped(v))]
    ensures Resting(u, t) && OthersRest(s, t, u)
    ensures AfterRetiring(Put(s.slots, i, HazardState.Slot(true, false, Some(a))), [i] + s.rlist, s.freed, s.busy, u)
  {
    hide AfterRetiring, Put;
  }

  lemma ContainsRest<T>(s: State<T>, st: seq<T>, u: State<T>)
    requires Contains(s, st) && st != [] && u.mem == s.mem && u.stk == s.stk[1..]
    requires StackOk(u.head, u.stk, u.mem, u.status)
    ensures Contains(u, st[1..])
  {
    hide StackOk, Matches;
    MatchesRest(s, st);
  }

  lemma TopHere<T>(s: State<T>, st: seq<T>)
    requires Inv(s) && Contains(s, st) && st != []
    ensures s.head < |s.mem| == |s.status| && s.mem[s.head].next.Some? && s.stk != [] && |s.slots| == |s.role|
    ensures TopCell(s, s.head, s.mem[s.head].next.value, st[0])
  {
    SizesAre(s);
  }

  lemma MatchesRest<T>(s: State<T>, st: seq<T>)
    requires Contains(s, st) && st != []
    ensures Matches(st[1..], s.stk[1..], s.mem)
  {
    MatchesPop(st, s.stk, s.mem);
  }

  lemma NoneIn(q: seq<nat>)
    ensures q == [] || exists i: nat :: i in q
  {
    if q != [] {
      assert q[0] in q;
    }
  }

  lemma NoneHeld(slots: seq<Slot>, rlist: seq<nat>, freed: seq<Addr>,
                 slots': seq<Slot>, rlist': seq<nat>, freed': seq<Addr>)
    requires Cleaned(slots, rlist, freed, slots', rlist', freed')
    requires forall i :: 0 <= i < |slots| ==> !slots[i].Active()
    ensures rlist' == []
    ensures forall i, d: Addr :: Waits(slots, rlist, i, d) ==> d in freed'
    ensures forall i :: i in rlist && i < |slots| ==> slots'[i].inactive && !slots'[i].retired
  {
    NoneIn(rlist');
    forall i, d: Addr | Waits(slots, rlist, i, d)
      ensures d in freed'
    {
      assert Waiting(slots, rlist, d);
    }
  }

  /** A pop that runs alone while no slot is active leaves fewer than two nodes to be deleted: if
      one waited, it and the popped node are deleted, and both slots are given back. */
  lemma PopAloneCleans<T>(s: State<T>, t: Tid, cs: seq<Choice<T>>, st: seq<T>) returns (n: nat)
    requires Inv(s) && At(s.threads, t).pc == Idle && Contains(s, st) && st != []
    requires |cs| >= 18 + 2 * |s.rlist| + 2 * |s.slots|
    requires cs[0] == DoPop && Takes(cs[5], s.slots) && AptPicks(s, t, cs)
    requires !s.busy && forall i :: 0 <= i < |s.slots| ==> !s.slots[i].Active()
    ensures n <= |cs|
    ensures var u := Alone(s, t, cs, n); Resting(u, t) && |u.rlist| < 2 && !u.busy
    ensures s.rlist != [] ==>
              var u := Alone(s, t, cs, n);
              && u.rlist == [] && s.head in u.freed
              && (forall i, d: Addr :: Waits(s.slots, s.rlist, i, d) ==> d in u.freed)
              && forall i :: i in s.rlist && i < |u.slots| ==> u.slots[i].inactive && !u.slots[i].retired
  {
    hide Inv, Contains, AptPicks, Alone, Cleaned, Waits, Records;
    n := PopAlone(s, t, cs, st);
    RecordsOf(s);
    var u, i := Alone(s, t, cs, n), cs[5].slot;
    var slots := Put(s.slots, i, HazardState.Slot(true, false, Some(s.head)));
    if s.rlist != [] {
      NoneHeld(slots, [i] + s.rlist, s.freed, u.slots, u.rlist, u.freed);
      StillWaits(s.slots, s.rlist, i, s.head);
      CleanedSize(slots, [i] + s.rlist, s.freed, u.slots, u.rlist, u.freed);
    }
  }

  lemma CleanedSize(slots: seq<Slot>, rlist: seq<nat>, freed: seq<Addr>,
                    slots': seq<Slot>, rlist': seq<nat>, freed': seq<Addr>)
    requires Cleaned(slots, rlist, freed, slots', rlist', freed')
    ensures |slots'| == |slots|
  {
  }

  lemma RecordsOf<T>(s: State<T>)
    requires Inv(s)
    ensures Records(s.slots, s.rlist)
  {
    RecordsHere(s);
  }

  /** The new record leaves the others as they were. */
  lemma StillWaits(slots: seq<Slot>, rlist: seq<nat>, i: nat, a: Addr)
    requires Records(slots, rlist) && i <= |slots| && (i < |slots| ==> slots[i].inactive)
    ensures var now := Put(slots, i, HazardState.Slot(true, false, Some(a)));
            && Waits(now, [i] + rlist, i, a)
            && forall k, d: Addr :: Waits(slots, rlist, k, d) ==> Waits(now, [i] + rlist, k, d)
    ensures forall k :: k in rlist ==> k < |slots|
  {
    assert forall k: nat :: k in [i] + rlist <==> k == i || k in rlist;
  }
}
