/** top never reads a node that has been handed to the deleter, and the counter is right up to
    the updates still to come. */
module StackSafety {
  import opened Common
  import opened StackState
  import opened StackInvariant

  // ---------------------------------------------------------------- readers and the scan

  /** While a reader with slot i has validated h, a scan that might delete h will see the slot,
      or has seen it. */
  predicate CoveredBy<T>(pc: Pc<T>, h: Addr, i: nat) {
    match pc
    case VisitTag(rmap, pmap, j, end) => h in rmap ==> i < end && (i < j ==> h in pmap)
    case VisitData(rmap, pmap, j, end) => h in rmap ==> i < end && (i < j ==> h in pmap)
    case Free(rmap, pmap) => h in rmap ==> h in pmap
    case _ => true
  }

  ghost predicate Covered<T>(threads: map<Tid, Thread<T>>) {
    forall t, u :: t in threads && u in threads && threads[t].pc.TopRead? ==>
      CoveredBy(threads[u].pc, threads[t].pc.head, threads[t].pc.slot)
  }

  ghost predicate NoneFreed<T>(threads: map<Tid, Thread<T>>, status: seq<Status>) {
    forall t :: t in threads && threads[t].pc.TopRead? ==>
      threads[t].pc.head < |status| && status[threads[t].pc.head] != Freed
  }

  ghost predicate Safe<T>(s: State<T>) {
    Covered(s.threads) && NoneFreed(s.threads, s.status)
  }

  predicate Harmless<T>(pc: Pc<T>) {
    !pc.TopRead? && !pc.VisitTag? && !pc.VisitData? && !pc.Free?
  }

  /** No address is deleted by this step. */
  ghost predicate NothingFreed(was: seq<Status>, now: seq<Status>) {
    |was| <= |now| && forall a: Addr :: a < |was| && was[a] != Freed ==> now[a] != Freed
  }

  lemma HarmlessSafe<T>(s: State<T>, t: Tid, u: State<T>)
    requires Safe(s) && OneMoved(s, t, u) && Harmless(u.threads[t].pc) && NothingFreed(s.status, u.status)
    ensures Safe(u)
  {
  }

  /** A reader that has just seen h at the head again is covered: h is not retired. */
  lemma CheckSafe<T>(s: State<T>, t: Tid, h: Addr, i: nat)
    requires Sound(s) && Safe(s) && At(s.threads, t).pc == TopCheck(h, i)
    ensures Safe(StepTopCheck(s, t, h, i))
  {
    var u := StepTopCheck(s, t, h, i);
    if s.head == h {
      HeadKept(s);
      forall v | v in u.threads
        ensures CoveredBy(u.threads[v].pc, h, i)
      {
        if v != t {
          NotRetired(s, v, h, i);
        }
      }
      hide CellsOk, StackOk, SlotsOk, RlistOk, FreedOk, ThreadsOk, ScansOk, CoveredBy;
    } else {
      hide CellsOk, StackOk, SlotsOk, RlistOk, FreedOk, ThreadsOk, ScansOk, CoveredBy;
      HarmlessSafe(s, t, u);
    }
  }

  lemma HeadKept<T>(s: State<T>)
    requires Sound(s)
    ensures s.head < |s.status| && (s.status[s.head] == InStack || s.status[s.head] == Sentinel)
  {
  }

  lemma NotRetired<T>(s: State<T>, v: Tid, h: Addr, i: nat)
    requires Sound(s) && v in s.threads && h < |s.status| && !s.status[h].Retired?
    ensures CoveredBy(s.threads[v].pc, h, i)
  {
    assert PcOk(v, s.threads[v].pc, s);
    hide CellsOk, StackOk, SlotsOk, RlistOk, FreedOk, ThreadsOk, ScansOk;
  }

  /** What a reader's slot looks like. */
  lemma ReaderSlot<T>(s: State<T>, v: Tid)
    requires Sound(s) && v in s.threads && s.threads[v].pc.TopRead?
    ensures var i := s.threads[v].pc.slot;
            i < |s.slots| && s.slots[i].Active() && s.slots[i].data == Some(s.threads[v].pc.head)
  {
    assert PcOk(v, s.threads[v].pc, s);
    hide CellsOk, StackOk, RlistOk, FreedOk, ThreadsOk, ScansOk;
  }

  /** A scan step keeps every reader covered. */
  lemma ScanCovers<T>(s: State<T>, t: Tid, u: State<T>)
    requires Safe(s) && OneMoved(s, t, u) && !u.threads[t].pc.TopRead? && NothingFreed(s.status, u.status)
    requires forall v :: v in s.threads && v != t && s.threads[v].pc.TopRead? ==>
               CoveredBy(u.threads[t].pc, s.threads[v].pc.head, s.threads[v].pc.slot)
    ensures Safe(u)
  {
    hide CoveredBy;
  }

  lemma DrainSafe<T>(s: State<T>, t: Tid, rmap: map<Addr, nat>)
    requires Sound(s) && Safe(s) && At(s.threads, t).pc == Drain(rmap)
    ensures Safe(StepDrain(s, t, rmap))
  {
    var u := StepDrain(s, t, rmap);
    forall v | v in s.threads && s.threads[v].pc.TopRead?
      ensures s.threads[v].pc.slot < |s.slots|
    {
      ReaderSlot(s, v);
    }
    hide Sound;
    if s.rlist == [] {
      ScanCovers(s, t, u);
    }
  }

  lemma VisitTagCovers<T>(s: State<T>, t: Tid, rmap: map<Addr, nat>, pmap: set<Addr>, j: nat, end: nat, h: Addr, i: nat)
    requires CoveredBy<T>(VisitTag(rmap, pmap, j, end), h, i) && end <= |s.slots|
    requires i < |s.slots| && s.slots[i].Active()
    ensures var u := StepVisitTag(s, t, rmap, pmap, j, end);
            t in u.threads && CoveredBy(u.threads[t].pc, h, i)
  {
  }

  lemma VisitEnd<T>(s: State<T>, t: Tid, rmap: map<Addr, nat>, pmap: set<Addr>, j: nat, end: nat)
    requires Sound(s) && At(s.threads, t).pc == VisitTag(rmap, pmap, j, end)
    ensures end <= |s.slots|
  {
    assert PcOk(t, s.threads[t].pc, s);
    hide CellsOk, StackOk, RlistOk, FreedOk, ThreadsOk, ScansOk;
  }

  lemma VisitTagSafe<T>(s: State<T>, t: Tid, rmap: map<Addr, nat>, pmap: set<Addr>, j: nat, end: nat)
    requires Sound(s) && Safe(s) && At(s.threads, t).pc == VisitTag(rmap, pmap, j, end)
    ensures Safe(StepVisitTag(s, t, rmap, pmap, j, end))
  {
    var u := StepVisitTag(s, t, rmap, pmap, j, end);
    VisitEnd(s, t, rmap, pmap, j, end);
    forall v | v in s.threads && v != t && s.threads[v].pc.TopRead?
      ensures CoveredBy(u.threads[t].pc, s.threads[v].pc.head, s.threads[v].pc.slot)
    {
      hide CoveredBy, Sound, NoneFreed;
      ReaderSlot(s, v);
      VisitTagCovers(s, t, rmap, pmap, j, end, s.threads[v].pc.head, s.threads[v].pc.slot);
    }
    hide Sound, Safe, CoveredBy;
    ScanCovers(s, t, u);
  }

  lemma VisitDataCovers<T>(s: State<T>, t: Tid, rmap: map<Addr, nat>, pmap: set<Addr>, j: nat, end: nat,
      h: Addr, i: nat)
    requires CoveredBy<T>(VisitData(rmap, pmap, j, end), h, i) && j < |s.slots|
    requires i < |s.slots| && s.slots[i].data == Some(h)
    ensures var u := StepVisitData(s, t, rmap, pmap, j, end);
            t in u.threads && CoveredBy(u.threads[t].pc, h, i)
  {
  }

  lemma VisitDataSafe<T>(s: State<T>, t: Tid, rmap: map<Addr, nat>, pmap: set<Addr>, j: nat, end: nat)
    requires Sound(s) && Safe(s) && At(s.threads, t).pc == VisitData(rmap, pmap, j, end)
    ensures Safe(StepVisitData(s, t, rmap, pmap, j, end))
  {
    var u := StepVisitData(s, t, rmap, pmap, j, end);
    if j < |s.slots| {
      forall v | v in s.threads && v != t && s.threads[v].pc.TopRead?
        ensures CoveredBy(u.threads[t].pc, s.threads[v].pc.head, s.threads[v].pc.slot)
      {
        hide CoveredBy, Sound, NoneFreed;
        ReaderSlot(s, v);
        VisitDataCovers(s, t, rmap, pmap, j, end, s.threads[v].pc.head, s.threads[v].pc.slot);
      }
      hide Sound, Safe, CoveredBy;
      ScanCovers(s, t, u);
    }
  }

  lemma FreeCovers<T>(rmap: map<Addr, nat>, pmap: set<Addr>, d: Addr, h: Addr, i: nat)
    requires CoveredBy<T>(Free(rmap, pmap), h, i)
    ensures CoveredBy<T>(Free(rmap - {d}, pmap), h, i)
    ensures d in rmap && d !in pmap ==> h != d
  {
  }

  lemma DeleteSafe<T>(s: State<T>, t: Tid, u: State<T>, d: Addr)
    requires Safe(s) && OneMoved(s, t, u) && !u.threads[t].pc.TopRead?
    requires d < |s.status| && u.status == s.status[d := Freed]
    requires forall v :: v in s.threads && v != t && s.threads[v].pc.TopRead? ==>
               CoveredBy(u.threads[t].pc, s.threads[v].pc.head, s.threads[v].pc.slot) && s.threads[v].pc.head != d
    ensures Safe(u)
  {
    hide CoveredBy;
  }

  /** The scan deletes only what no reader holds. */
  lemma FreeSafe<T>(s: State<T>, t: Tid, c: Choice<T>, rmap: map<Addr, nat>, pmap: set<Addr>)
    requires Safe(s) && At(s.threads, t).pc == Free(rmap, pmap)
    ensures Safe(StepFree(s, t, c, rmap, pmap))
  {
    var u := StepFree(s, t, c, rmap, pmap);
    if rmap == map[] {
      hide CoveredBy, Covered, NoneFreed;
      HarmlessSafe(s, t, u);
    } else if c.Pick? && c.addr in rmap {
      forall v | v in s.threads && v != t && s.threads[v].pc.TopRead?
        ensures CoveredBy<T>(Free(rmap - {c.addr}, pmap), s.threads[v].pc.head, s.threads[v].pc.slot)
        ensures c.addr !in pmap ==> s.threads[v].pc.head != c.addr
      {
        hide CoveredBy, NoneFreed;
        FreeCovers<T>(rmap, pmap, c.addr, s.threads[v].pc.head, s.threads[v].pc.slot);
      }
      hide CoveredBy, Covered, NoneFreed;
      if c.addr in pmap {
        ScanCovers(s, t, u);
      } else if u != s {
        DeleteSafe(s, t, u, c.addr);
      }
    }
  }

  // ---------------------------------------------------------------- the counter

  ghost function Incrementing<T>(threads: map<Tid, Thread<T>>): set<Tid> {
    set t | t in threads && threads[t].pc.PushCount?
  }

  ghost function Decrementing<T>(threads: map<Tid, Thread<T>>): set<Tid> {
    set t | t in threads && threads[t].pc.PopCount?
  }

  /** counter_ is the length of the stack, less the increments and plus the decrements that
      are still to come. */
  ghost predicate Counted<T>(s: State<T>) {
    s.counter == |s.stk| - |Incrementing(s.threads)| + |Decrementing(s.threads)|
  }

  function One(b: bool): int {
    if b then 1 else 0
  }

  lemma SetStep(was: set<Tid>, now: set<Tid>, t: Tid, inNow: bool)
    requires now == if inNow then was + {t} else was - {t}
    ensures |now| == |was| - One(t in was) + One(inNow)
  {
  }

  lemma IncrementingMoved<T>(threads: map<Tid, Thread<T>>, t: Tid, th: Thread<T>)
    ensures var was := Incrementing(threads);
            Incrementing(threads[t := th]) == if th.pc.PushCount? then was + {t} else was - {t}
    ensures t in Incrementing(threads) <==> At(threads, t).pc.PushCount?
  {
  }

  lemma DecrementingMoved<T>(threads: map<Tid, Thread<T>>, t: Tid, th: Thread<T>)
    ensures var was := Decrementing(threads);
            Decrementing(threads[t := th]) == if th.pc.PopCount? then was + {t} else was - {t}
    ensures t in Decrementing(threads) <==> At(threads, t).pc.PopCount?
  {
  }

  lemma CountMoved<T>(s: State<T>, t: Tid, u: State<T>)
    requires OneMoved(s, t, u)
    ensures |Incrementing(u.threads)| == |Incrementing(s.threads)|
              - One(At(s.threads, t).pc.PushCount?) + One(u.threads[t].pc.PushCount?)
    ensures |Decrementing(u.threads)| == |Decrementing(s.threads)|
              - One(At(s.threads, t).pc.PopCount?) + One(u.threads[t].pc.PopCount?)
  {
    hide Incrementing, Decrementing;
    var th := u.threads[t];
    IncrementingMoved(s.threads, t, th);
    DecrementingMoved(s.threads, t, th);
    SetStep(Incrementing(s.threads), Incrementing(u.threads), t, th.pc.PushCount?);
    SetStep(Decrementing(s.threads), Decrementing(u.threads), t, th.pc.PopCount?);
  }
}
