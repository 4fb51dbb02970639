/** Every step keeps the invariant. */
module StackSteps {
  import opened Common
  import HazardState
  import opened StackState
  import opened StackInvariant

  // ---------------------------------------------------------------- putting steps together

  /** Where a thread stands is covered by the invariant, also for a thread not yet seen. */
  lemma PcHere<T>(s: State<T>, t: Tid)
    requires Sound(s)
    ensures PcOk(t, At(s.threads, t).pc, s)
  {
    hide PcOk;
    assert PcOk(t, Idle, s) by {
      IdleOk(s, t);
    }
  }

  lemma IdleOk<T>(s: State<T>, t: Tid)
    ensures PcOk(t, Idle, s)
  {
  }

  lemma SizesOk<T>(s: State<T>)
    requires Sound(s)
    ensures |s.mem| == |s.status| >= 1 && |s.slots| == |s.role|
  {
  }

  lemma HeadPublished<T>(s: State<T>)
    requires Sound(s)
    ensures Published(s.status, s.head)
    ensures s.head != SENTINEL ==> s.stk != [] && s.status[s.head] == InStack
    ensures s.head == SENTINEL ==> s.stk == []
  {
  }

  ghost predicate NodesOk<T>(u: State<T>) {
    CellsOk(u.mem, u.status) && StackOk(u.head, u.stk, u.mem, u.status) && FreedOk(u.freed, u.status)
  }

  /** A step, of a scan or not. */
  lemma AssembleWith<T>(s: State<T>, t: Tid, scan: bool, u: State<T>)
    requires Sound(s) && OneMoved(s, t, u) && Frame(t, scan, s, u)
    requires NodesOk(u) && SlotsOk(u.slots, u.role) && RlistOk(u.rlist, u.slots, u.role, u.status)
    requires ScansOk(u.threads, u.busy) && PcOk(t, u.threads[t].pc, u)
    requires scan ==> Scanning(At(s.threads, t).pc)
    ensures Sound(u)
  {
    SizesOk(s);
    hide CellsOk, StackOk, SlotsOk, RlistOk, FreedOk, PcOk, Frame;
    ThreadsKept(t, scan, s, u);
  }

  lemma Assemble<T>(s: State<T>, t: Tid, u: State<T>)
    requires Sound(s) && OneMoved(s, t, u) && Frame(t, false, s, u)
    requires NodesOk(u) && SlotsOk(u.slots, u.role) && RlistOk(u.rlist, u.slots, u.role, u.status)
    requires u.busy == s.busy && PcOk(t, u.threads[t].pc, u)
    requires Scanning(u.threads[t].pc) ==> Scanning(At(s.threads, t).pc)
    ensures Sound(u)
  {
    hide CellsOk, StackOk, SlotsOk, RlistOk, FreedOk, PcOk, Frame, ThreadsOk;
    ScansKept(t, s, u);
    hide ScansOk;
    AssembleWith(s, t, false, u);
  }

  lemma FrameSame<T>(t: Tid, s: State<T>, u: State<T>)
    requires u.mem == s.mem && u.status == s.status && u.slots == s.slots && u.role == s.role
    ensures Frame(t, false, s, u)
  {
  }

  /** A step that changes neither memory nor slots. */
  lemma MoveSound<T>(s: State<T>, t: Tid, u: State<T>)
    requires Sound(s) && OneMoved(s, t, u)
    requires u.head == s.head && u.stk == s.stk && u.mem == s.mem && u.status == s.status && u.slots == s.slots
    requires u.role == s.role && u.rlist == s.rlist && u.freed == s.freed && u.busy == s.busy
    requires PcOk(t, u.threads[t].pc, u)
    requires Scanning(u.threads[t].pc) ==> Scanning(At(s.threads, t).pc)
    ensures Sound(u)
  {
    hide CellsOk, StackOk, SlotsOk, RlistOk, FreedOk, PcOk, Frame;
    FrameSame(t, s, u);
    Assemble(s, t, u);
  }

  // ---------------------------------------------------------------- push

  lemma AllocNodes<T>(s: State<T>, t: Tid, v: T)
    requires Sound(s)
    ensures var u := StepIdle(s, t, DoPush(v));
            && NodesOk(u) && Frame(t, false, s, u)
            && OneMoved(s, t, u) && u.threads[t].pc == PushLoad(|s.mem|) && PcOk(t, PushLoad(|s.mem|), u)
  {
    hide SlotsOk, RlistOk, ThreadsOk, ScansOk;
  }

  /** Places of which the invariant says nothing. */
  predicate Plain<T>(pc: Pc<T>) {
    pc.Idle? || pc.PushCount? || pc.PopLoad? || pc.PopLimit? || pc.PopBusy? || pc.TopLoad?
  }

  lemma PlainOk<T>(s: State<T>, t: Tid, pc: Pc<T>)
    requires Plain(pc)
    ensures PcOk(t, pc, s) && !Scanning(pc)
  {
  }

  lemma IdleSound<T>(s: State<T>, t: Tid, c: Choice<T>)
    requires Sound(s) && At(s.threads, t).pc == Idle
    ensures Sound(StepIdle(s, t, c))
  {
    hide CellsOk, StackOk, SlotsOk, RlistOk, FreedOk, ThreadsOk, ScansOk, Frame, NodesOk, PcOk;
    var u := StepIdle(s, t, c);
    match c {
      case DoPush(v) =>
        SizesOk(s);
        AllocNodes(s, t, v);
        RlistKept(t, s, u);
        Assemble(s, t, u);
      case DoPop =>
        PlainOk(u, t, PopLoad);
        MoveSound(s, t, u);
      case DoTop =>
        PlainOk(u, t, TopLoad);
        MoveSound(s, t, u);
      case _ =>
    }
  }

  lemma LinkNodes<T>(s: State<T>, t: Tid, a: Addr)
    requires Sound(s) && PcOk(t, PushLoad(a), s)
    ensures NodesOk(StepPushLoad(s, t, a))
  {
    hide SlotsOk, RlistOk, ThreadsOk, ScansOk;
    HeadPublished(s);
  }

  lemma LinkMoves<T>(s: State<T>, t: Tid, a: Addr)
    requires Sound(s) && PcOk(t, PushLoad(a), s)
    ensures var u := StepPushLoad(s, t, a);
            && OneMoved(s, t, u) && u.threads[t].pc == PushCas(a, s.head)
            && Frame(t, false, s, u) && PcOk(t, PushCas(a, s.head), u)
  {
    hide StackOk, SlotsOk, RlistOk, FreedOk, ThreadsOk, ScansOk;
    HeadPublished(s);
  }

  lemma PushLoadSound<T>(s: State<T>, t: Tid, a: Addr)
    requires Sound(s) && At(s.threads, t).pc == PushLoad(a)
    ensures Sound(StepPushLoad(s, t, a))
  {
    hide CellsOk, StackOk, SlotsOk, RlistOk, FreedOk, Frame, NodesOk, PcOk;
    var u := StepPushLoad(s, t, a);
    PcHere(s, t);
    SizesOk(s);
    LinkNodes(s, t, a);
    LinkMoves(s, t, a);
    RlistKept(t, s, u);
    Assemble(s, t, u);
  }

  /** A published node goes on top. */
  lemma PushStack<T>(stk: seq<Addr>, mem: seq<Cell<T>>, status: seq<Status>, head: Addr, a: Addr)
    requires StackOk(head, stk, mem, status)
    requires 1 <= a < |mem| && a < |status| && status[a].Private? && mem[a].next == Some(head)
    ensures StackOk(a, [a] + stk, mem, status[a := InStack])
  {
    var now := [a] + stk;
    assert forall i :: 1 <= i < |now| ==> now[i] == stk[i - 1] && Below(now, i) == Below(stk, i - 1);
    assert Below(now, 0) == head;
  }

  /** The state of a node changes, and it is published. */
  lemma CellsStatus<T>(mem: seq<Cell<T>>, status: seq<Status>, a: Addr, st: Status)
    requires CellsOk(mem, status) && 1 <= a < |status| && st != Sentinel && !st.Private?
    requires mem[a].next.Some? && Published(status, mem[a].next.value)
    ensures CellsOk(mem, status[a := st])
  {
  }

  lemma FreedStatus(freed: seq<Addr>, status: seq<Status>, a: Addr, st: Status)
    requires FreedOk(freed, status) && a < |status| && status[a] != Freed && st != Freed
    ensures FreedOk(freed, status[a := st])
  {
  }

  lemma FrameStatus<T>(t: Tid, s: State<T>, u: State<T>, a: Addr, st: Status)
    requires a < |s.status| && May(t, s.status[a], s.role, false) && !st.Private?
    requires u.mem == s.mem && u.status == s.status[a := st] && u.slots == s.slots && u.role == s.role
    ensures Frame(t, false, s, u)
  {
  }

  lemma PushCasHere<T>(s: State<T>, t: Tid, a: Addr, n: Addr)
    requires Sound(s) && PcOk(t, PushCas(a, n), s)
    ensures 1 <= a < |s.mem| == |s.status| && s.status[a] == Private(t) && s.mem[a].data.Some?
    ensures s.mem[a].next == Some(n) && Published(s.status, n)
  {
    hide StackOk, SlotsOk, RlistOk, FreedOk, ThreadsOk, ScansOk;
  }

  lemma PushCasSound<T>(s: State<T>, t: Tid, a: Addr, n: Addr)
    requires Sound(s) && At(s.threads, t).pc == PushCas(a, n)
    ensures Sound(StepPushCas(s, t, a, n))
  {
    var u := StepPushCas(s, t, a, n);
    PcHere(s, t);
    PushCasHere(s, t, a, n);
    if s.head == n {
      hide CellsOk, StackOk, SlotsOk, RlistOk, FreedOk, Frame, ThreadsOk, ScansOk, PcOk;
      PushStack(s.stk, s.mem, s.status, s.head, a);
      CellsStatus(s.mem, s.status, a, InStack);
      FreedStatus(s.freed, s.status, a, InStack);
      FrameStatus(t, s, u, a, InStack);
      SizesOk(s);
      RlistKept(t, s, u);
      PlainOk(u, t, PushCount);
      Assemble(s, t, u);
    } else {
      PushLoadHere(u, t, a);
      hide CellsOk, StackOk, SlotsOk, RlistOk, FreedOk, ThreadsOk, ScansOk, PcOk;
      MoveSound(s, t, u);
    }
  }

  lemma PushLoadHere<T>(u: State<T>, t: Tid, a: Addr)
    requires a < |u.status| && u.status[a] == Private(t)
    ensures PcOk(t, PushLoad(a), u)
  {
  }

  // ---------------------------------------------------------------- pop

  lemma SawHeadSound<T>(s: State<T>, t: Tid)
    requires Sound(s)
    ensures Sound(SawHead(s, t))
  {
    HeadPublished(s);
    hide CellsOk, StackOk, SlotsOk, RlistOk, FreedOk, ThreadsOk, ScansOk;
    MoveSound(s, t, SawHead(s, t));
  }

  /** The top node goes. */
  lemma PopStack<T>(stk: seq<Addr>, mem: seq<Cell<T>>, status: seq<Status>, h: Addr, n: Addr, st: Status)
    requires StackOk(h, stk, mem, status) && stk != []
    requires h < |mem| && h < |status| && mem[h].next == Some(n)
    ensures h >= 1 && status[h] == InStack
    ensures StackOk(n, stk[1..], mem, status[h := st])
  {
    var now := stk[1..];
    assert forall i :: 0 <= i < |now| ==> now[i] == stk[i + 1] && Below(now, i) == Below(stk, i + 1);
    assert n == Below(stk, 0);
  }

  lemma PopCasHere<T>(s: State<T>, t: Tid, h: Addr, n: Addr)
    requires Sound(s) && PcOk(t, PopCas(h, n), s) && s.head == h
    ensures 1 <= h < |s.mem| == |s.status| && s.status[h] == InStack && s.mem[h].data.Some? && s.stk != []
    ensures s.mem[h].next == Some(n) && Published(s.status, n)
  {
    HeadPublished(s);
    hide SlotsOk, RlistOk, FreedOk, ThreadsOk, ScansOk;
  }

  lemma RemovedHere<T>(u: State<T>, t: Tid, a: Addr)
    requires a < |u.status| && u.status[a] == Removed(t)
    ensures PcOk(t, PopCount(a), u) && PcOk(t, PopAcquire(a), u)
  {
  }

  lemma PopCasSound<T>(s: State<T>, t: Tid, h: Addr, n: Addr)
    requires Sound(s) && At(s.threads, t).pc == PopCas(h, n)
    ensures Sound(StepPopCas(s, t, h, n))
  {
    var u := StepPopCas(s, t, h, n);
    PcHere(s, t);
    if s.head == h {
      PopCasHere(s, t, h, n);
      hide CellsOk, StackOk, SlotsOk, RlistOk, FreedOk, Frame, ThreadsOk, ScansOk, PcOk;
      PopStack(s.stk, s.mem, s.status, h, n, Removed(t));
      CellsStatus(s.mem, s.status, h, Removed(t));
      FreedStatus(s.freed, s.status, h, Removed(t));
      FrameStatus(t, s, u, h, Removed(t));
      SizesOk(s);
      RlistKept(t, s, u);
      RemovedHere(u, t, h);
      Assemble(s, t, u);
    } else {
      hide *;
      SawHeadSound(s, t);
    }
  }

  lemma PopNextSound<T>(s: State<T>, t: Tid, h: Addr)
    requires Sound(s) && At(s.threads, t).pc == PopNext(h)
    ensures Sound(StepPopNext(s, t, h))
  {
    var u := StepPopNext(s, t, h);
    PcHere(s, t);
    SizesOk(s);
    PopNextHere(s, t, h);
    hide CellsOk, StackOk, SlotsOk, RlistOk, FreedOk, ThreadsOk, ScansOk, PcOk;
    PlainOk(u, t, Idle);
    MoveSound(s, t, u);
  }

  lemma PopNextHere<T>(s: State<T>, t: Tid, h: Addr)
    requires PcOk(t, PopNext(h), s)
    ensures var u := StepPopNext(s, t, h);
            t in u.threads && (u.threads[t].pc != Idle ==> PcOk(t, u.threads[t].pc, u) && !Scanning(u.threads[t].pc))
  {
  }

  lemma RemovedStill<T>(s: State<T>, t: Tid, a: Addr)
    requires PcOk(t, PopCount(a), s)
    ensures a < |s.status| && s.status[a] == Removed(t)
  {
  }

  lemma PopCountSound<T>(s: State<T>, t: Tid, a: Addr)
    requires Sound(s) && At(s.threads, t).pc == PopCount(a)
    ensures Sound(Next(s, t, Go))
  {
    hide CellsOk, StackOk, SlotsOk, RlistOk, FreedOk, ThreadsOk, ScansOk, PcOk;
    var u := Moved(s.(counter := s.counter - 1), t, PopAcquire(a));
    PcHere(s, t);
    RemovedStill(s, t, a);
    RemovedHere(u, t, a);
    MoveSound(s, t, u);
  }

  // ---------------------------------------------------------------- slots

  /** One slot of t's, or an unused one, changes with its role. */
  lemma FrameSlot<T>(t: Tid, s: State<T>, u: State<T>, i: nat)
    requires |s.slots| == |s.role| && i <= |s.slots|
    requires u.mem == s.mem && u.status == s.status
    requires |u.slots| >= |s.slots| && |u.role| >= |s.role|
    requires forall j :: 0 <= j < |s.slots| && j != i ==> u.slots[j] == s.slots[j] && u.role[j] == s.role[j]
    requires i < |s.slots| ==> MayRole(t, s.role[i], false)
    ensures Frame(t, false, s, u)
  {
  }

  lemma SlotsUpdated(slots: seq<Slot>, role: seq<Role>, i: nat, slot: Slot, r: Role)
    requires SlotsOk(slots, role) && SlotMatches(slot, r)
    ensures i < |slots| ==> SlotsOk(slots[i := slot], role[i := r])
    ensures SlotsOk(slots + [slot], role + [r])
  {
  }

  /** An inactive slot has no role. */
  lemma OfferedUnused(slots: seq<Slot>, role: seq<Role>, i: nat)
    requires SlotsOk(slots, role) && i < |slots| && slots[i].inactive
    ensures role[i] == Unused
  {
  }

  lemma AcquireHere<T>(s: State<T>, t: Tid, pc: Pc<T>, a: Addr, popped: bool, u: State<T>, i: nat)
    requires PcOk(t, pc, s) && pc == (if popped then PopAcquire(a) else TopAcquire(a))
    requires u.status == s.status && Holds(u.role, t, i)
    ensures var now := if popped then PopProtect(a, i) else TopProtect(a, i);
            PcOk(t, now, u) && !Scanning(now)
  {
  }

  lemma AcquireSound<T>(s: State<T>, t: Tid, c: Choice<T>, popped: bool, a: Addr)
    requires Sound(s) && At(s.threads, t).pc == (if popped then PopAcquire(a) else TopAcquire(a))
    ensures Sound(StepAcquire(s, t, c, popped, a))
  {
    hide CellsOk, StackOk, SlotsOk, RlistOk, FreedOk, ThreadsOk, ScansOk, Frame, PcOk;
    var u := StepAcquire(s, t, c, popped, a);
    PcHere(s, t);
    SizesOk(s);
    if c.TakeSlot? && Offered(s.slots, c.slot) {
      var i := c.slot;
      if i < |s.slots| {
        OfferedUnused(s.slots, s.role, i);
      }
      SlotsUpdated(s.slots, s.role, i, HazardState.Clean(None), Held(t));
      AcquireHere(s, t, At(s.threads, t).pc, a, popped, u, i);
      FrameSlot(t, s, u, i);
      RlistKept(t, s, u);
      Assemble(s, t, u);
    }
  }

  lemma ProtectHere<T>(s: State<T>, t: Tid, i: nat, a: Addr, popped: bool, u: State<T>)
    requires PcOk(t, if popped then PopProtect(a, i) else TopProtect(a, i), s)
    requires u.status == s.status && u.role == s.role && Guards(u.slots, i, a)
    ensures var now := if popped then PopTag(a, i) else TopCheck(a, i);
            PcOk(t, now, u) && !Scanning(now)
    ensures Holds(s.role, t, i)
  {
  }

  lemma ProtectSound<T>(s: State<T>, t: Tid, i: nat, a: Addr, popped: bool)
    requires Sound(s) && At(s.threads, t).pc == (if popped then PopProtect(a, i) else TopProtect(a, i))
    ensures Sound(StepProtect(s, t, i, a, if popped then PopTag(a, i) else TopCheck(a, i)))
  {
    hide CellsOk, StackOk, RlistOk, FreedOk, ThreadsOk, ScansOk, Frame, PcOk;
    var u := StepProtect(s, t, i, a, if popped then PopTag(a, i) else TopCheck(a, i));
    PcHere(s, t);
    SizesOk(s);
    if i < |s.slots| {
      ProtectHere(s, t, i, a, popped, u);
      hide SlotsOk;
      HeldActive(s.slots, s.role, t, i);
      SlotsUpdated(s.slots, s.role, i, s.slots[i].(data := Some(a)), Held(t));
      FrameSlot(t, s, u, i);
      RlistKept(t, s, u);
      Assemble(s, t, u);
    }
  }

  lemma HeldActive(slots: seq<Slot>, role: seq<Role>, t: Tid, i: nat)
    requires SlotsOk(slots, role) && Holds(role, t, i)
    ensures slots[i].Active() && role[i := Held(t)] == role
  {
  }

  // ---------------------------------------------------------------- retiring

  lemma StackStatus<T>(head: Addr, stk: seq<Addr>, mem: seq<Cell<T>>, status: seq<Status>, a: Addr, st: Status)
    requires StackOk(head, stk, mem, status) && a < |status| && status[a] != InStack
    ensures StackOk(head, stk, mem, status[a := st])
  {
  }

  /** A removed or retired node changes its state. */
  lemma NodesStatus<T>(s: State<T>, u: State<T>, a: Addr, st: Status)
    requires Sound(s) && a < |s.status| && (s.status[a].Removed? || s.status[a].Retired?) && st.Retired?
    requires u.head == s.head && u.stk == s.stk && u.mem == s.mem && u.freed == s.freed && u.status == s.status[a := st]
    ensures NodesOk(u)
  {
    hide SlotsOk, RlistOk, ThreadsOk, ScansOk;
    NodeCell(s.mem, s.status, a);
    hide CellsOk, FreedOk, StackOk;
    StackStatus(s.head, s.stk, s.mem, s.status, a, st);
    CellsStatus(s.mem, s.status, a, st);
    FreedStatus(s.freed, s.status, a, st);
  }

  lemma NodeCell<T>(mem: seq<Cell<T>>, status: seq<Status>, a: Addr)
    requires CellsOk(mem, status) && a < |status| && !status[a].Private? && status[a] != Sentinel
    ensures a >= 1 && mem[a].next.Some? && Published(status, mem[a].next.value)
  {
  }

  /** A node's state and a slot change together. */
  lemma FrameBoth<T>(t: Tid, scan: bool, s: State<T>, u: State<T>, a: Addr, i: nat)
    requires |s.slots| == |s.role| == |u.slots| == |u.role| && u.mem == s.mem
    requires a < |s.status| == |u.status| && i < |s.slots|
    requires forall j :: 0 <= j < |s.slots| && j != i ==> u.slots[j] == s.slots[j] && u.role[j] == s.role[j]
    requires forall b :: 0 <= b < |s.status| && b != a ==> u.status[b] == s.status[b]
    requires u.status[a] == s.status[a] || (May(t, s.status[a], s.role, scan) && !u.status[a].Private?)
    requires MayRole(t, s.role[i], scan)
    ensures Frame(t, scan, s, u)
  {
  }

  lemma TagHere<T>(s: State<T>, t: Tid, a: Addr, i: nat)
    requires PcOk(t, PopTag(a, i), s) && |s.slots| == |s.role|
    ensures a < |s.status| && s.status[a] == Removed(t) && Holds(s.role, t, i) && i < |s.slots|
    ensures PcOk(t, PopRecord(i), StepTag(s, t, a, i))
  {
  }

  lemma TagSound<T>(s: State<T>, t: Tid, a: Addr, i: nat)
    requires Sound(s) && At(s.threads, t).pc == PopTag(a, i)
    ensures Sound(StepTag(s, t, a, i))
  {
    hide CellsOk, StackOk, SlotsOk, RlistOk, FreedOk, ThreadsOk, ScansOk, Frame, PcOk, NodesOk;
    var u := StepTag(s, t, a, i);
    PcHere(s, t);
    SizesOk(s);
    TagHere(s, t, a, i);
    HeldActive(s.slots, s.role, t, i);
    NodesStatus(s, u, a, Retired(i));
    SlotsUpdated(s.slots, s.role, i, s.slots[i].(retired := true), Leaving(t));
    FrameBoth(t, false, s, u, a, i);
    RlistKept(t, s, u);
    Assemble(s, t, u);
  }

  lemma RecordHere<T>(s: State<T>, t: Tid, i: nat)
    requires Sound(s) && PcOk(t, PopRecord(i), s)
    ensures i < |s.role| == |s.slots| && s.role[i] == Leaving(t) && SlotMatches(s.slots[i], Listed)
    ensures RlistOk([i] + s.rlist, s.slots, s.role[i := Listed], s.status)
  {
    hide CellsOk, StackOk, FreedOk, ThreadsOk, ScansOk;
    RlistAdded(s.rlist, s.slots, s.role, s.status, i);
  }

  lemma RlistAdded(rlist: seq<nat>, slots: seq<Slot>, role: seq<Role>, status: seq<Status>, i: nat)
    requires RlistOk(rlist, slots, role, status)
    requires i < |role| && role[i] != Listed && Carries(slots, status, i)
    ensures RlistOk([i] + rlist, slots, role[i := Listed], status)
  {
    hide Carries;
    var now := [i] + rlist;
    assert forall k :: 1 <= k < |now| ==> now[k] == rlist[k - 1];
  }

  lemma RecordSound<T>(s: State<T>, t: Tid, i: nat)
    requires Sound(s) && At(s.threads, t).pc == PopRecord(i)
    ensures Sound(StepRecord(s, t, i))
  {
    hide CellsOk, StackOk, SlotsOk, RlistOk, FreedOk, ThreadsOk, ScansOk, Frame, PcOk;
    var u := StepRecord(s, t, i);
    PcHere(s, t);
    RecordHere(s, t, i);
    SlotsUpdated(s.slots, s.role, i, s.slots[i], Listed);
    assert s.slots[i := s.slots[i]] == s.slots;
    FrameSlot(t, s, u, i);
    PlainOk(u, t, PopLimit);
    Assemble(s, t, u);
  }

  lemma LimitSound<T>(s: State<T>, t: Tid)
    requires Sound(s)
    ensures Sound(StepLimit(s, t))
  {
    var u := StepLimit(s, t);
    hide CellsOk, StackOk, SlotsOk, RlistOk, FreedOk, ThreadsOk, ScansOk, PcOk;
    PlainOk(u, t, PopBusy);
    PlainOk(u, t, Idle);
    MoveSound(s, t, u);
  }

  // ---------------------------------------------------------------- scanning

  lemma BusyScans<T>(s: State<T>, t: Tid)
    requires ScansOk(s.threads, s.busy) && !s.busy
    ensures ScansOk(StepBusy(s, t).threads, true)
  {
  }

  lemma DrainStartOk<T>(u: State<T>, t: Tid)
    ensures PcOk(t, Drain(map[]), u)
  {
  }

  lemma BusySound<T>(s: State<T>, t: Tid)
    requires Sound(s)
    ensures Sound(StepBusy(s, t))
  {
    var u := StepBusy(s, t);
    if s.busy {
      hide CellsOk, StackOk, SlotsOk, RlistOk, FreedOk, ThreadsOk, ScansOk, PcOk;
      PlainOk(u, t, Idle);
      MoveSound(s, t, u);
    } else {
      hide CellsOk, StackOk, SlotsOk, RlistOk, FreedOk, ThreadsOk, ScansOk, PcOk, Frame;
      BusyScans(s, t);
      DrainStartOk(u, t);
      FrameSame(t, s, u);
      AssembleWith(s, t, false, u);
    }
  }

  /** The first record leaves the list. */
  lemma RlistPopped(rlist: seq<nat>, slots: seq<Slot>, role: seq<Role>, status: seq<Status>)
    requires RlistOk(rlist, slots, role, status) && rlist != [] && rlist[0] < |role|
    ensures RlistOk(rlist[1..], slots, role[rlist[0] := InScan], status)
  {
    hide Carries;
  }

  /** A drained address was not already in rmap. */
  lemma DrainFresh(rmap: map<Addr, nat>, i: nat, slots: seq<Slot>, role: seq<Role>, status: seq<Status>)
    requires RmapOk(rmap, slots, role, status) && i < |role| && role[i] == Listed && Carries(slots, status, i)
    ensures slots[i].data.value !in rmap
    ensures RmapOk(rmap[slots[i].data.value := i], slots, role[i := InScan], status)
  {
  }

  lemma DrainHere<T>(s: State<T>, t: Tid, rmap: map<Addr, nat>)
    requires Sound(s) && PcOk(t, Drain(rmap), s) && s.rlist != []
    ensures var i := s.rlist[0];
            && i < |s.role| == |s.slots| && s.role[i] == Listed && Carries(s.slots, s.status, i)
            && SlotMatches(s.slots[i], InScan)
    ensures PcOk(t, Drain(rmap[s.slots[s.rlist[0]].data.value := s.rlist[0]]), StepDrain(s, t, rmap))
    ensures RlistOk(s.rlist[1..], s.slots, s.role[s.rlist[0] := InScan], s.status)
  {
    hide CellsOk, StackOk, FreedOk, ThreadsOk, ScansOk;
    RlistPopped(s.rlist, s.slots, s.role, s.status);
    DrainFresh(rmap, s.rlist[0], s.slots, s.role, s.status);
    hide RmapOk;
  }

  lemma FrameRole<T>(t: Tid, s: State<T>, u: State<T>, i: nat, r: Role)
    requires |s.slots| == |s.role| && i < |s.role| && MayRole(t, s.role[i], true)
    requires u.mem == s.mem && u.status == s.status && u.slots == s.slots && u.role == s.role[i := r]
    ensures Frame(t, true, s, u)
  {
  }

  lemma ScanVisitOk<T>(u: State<T>, t: Tid, s: State<T>, rmap: map<Addr, nat>, pmap: set<Addr>, j: nat, end: nat)
    requires RmapOk(rmap, s.slots, s.role, s.status) && end <= |s.slots|
    requires u.slots == s.slots && u.role == s.role && u.status == s.status
    ensures PcOk(t, VisitTag(rmap, pmap, j, end), u) && PcOk(t, Free(rmap, pmap), u)
    ensures j < end ==> PcOk(t, VisitData(rmap, pmap, j, end), u)
  {
  }

  lemma DrainSound<T>(s: State<T>, t: Tid, rmap: map<Addr, nat>)
    requires Sound(s) && At(s.threads, t).pc == Drain(rmap)
    ensures Sound(StepDrain(s, t, rmap))
  {
    var u := StepDrain(s, t, rmap);
    PcHere(s, t);
    if s.rlist == [] {
      assert RmapOk(rmap, s.slots, s.role, s.status);
      hide CellsOk, StackOk, SlotsOk, RlistOk, FreedOk, ThreadsOk, ScansOk, PcOk, RmapOk;
      ScanVisitOk(u, t, s, rmap, {}, 0, |s.slots|);
      MoveSound(s, t, u);
    } else {
      DrainHere(s, t, rmap);
      hide CellsOk, StackOk, SlotsOk, RlistOk, FreedOk, ThreadsOk, ScansOk, PcOk, Frame, RmapOk;
      var i := s.rlist[0];
      SlotsUpdated(s.slots, s.role, i, s.slots[i], InScan);
      FrameRole(t, s, u, i, InScan);
      ScansKept(t, s, u);
      AssembleWith(s, t, true, u);
    }
  }

  lemma VisitTagSound<T>(s: State<T>, t: Tid, rmap: map<Addr, nat>, pmap: set<Addr>, j: nat, end: nat)
    requires Sound(s) && At(s.threads, t).pc == VisitTag(rmap, pmap, j, end)
    ensures Sound(StepVisitTag(s, t, rmap, pmap, j, end))
  {
    var u := StepVisitTag(s, t, rmap, pmap, j, end);
    PcHere(s, t);
    assert RmapOk(rmap, s.slots, s.role, s.status) && end <= |s.slots|;
    hide CellsOk, StackOk, SlotsOk, RlistOk, FreedOk, ThreadsOk, ScansOk, PcOk, RmapOk;
    ScanVisitOk(u, t, s, rmap, pmap, j, end);
    ScanVisitOk(u, t, s, rmap, pmap, j + 1, end);
    MoveSound(s, t, u);
  }

  lemma VisitDataSound<T>(s: State<T>, t: Tid, rmap: map<Addr, nat>, pmap: set<Addr>, j: nat, end: nat)
    requires Sound(s) && At(s.threads, t).pc == VisitData(rmap, pmap, j, end)
    ensures Sound(StepVisitData(s, t, rmap, pmap, j, end))
  {
    var u := StepVisitData(s, t, rmap, pmap, j, end);
    PcHere(s, t);
    assert RmapOk(rmap, s.slots, s.role, s.status) && j < end <= |s.slots|;
    hide CellsOk, StackOk, SlotsOk, RlistOk, FreedOk, ThreadsOk, ScansOk, PcOk, RmapOk;
    var seen := if s.slots[j].data.Some? then {s.slots[j].data.value} else {};
    ScanVisitOk(u, t, s, rmap, pmap + seen, j + 1, end);
    MoveSound(s, t, u);
  }

  lemma ScanEnds<T>(s: State<T>, t: Tid)
    requires ScansOk(s.threads, s.busy) && Scanning(At(s.threads, t).pc)
    ensures ScansOk(s.threads[t := Thread(Idle, Quiet)], false)
  {
  }

  /** A retired node is deleted. */
  lemma FreeNodes<T>(s: State<T>, u: State<T>, d: Addr)
    requires Sound(s) && d < |s.status| && s.status[d].Retired?
    requires u.head == s.head && u.stk == s.stk && u.mem == s.mem
    requires u.status == s.status[d := Freed] && u.freed == s.freed + [d]
    ensures NodesOk(u)
  {
    hide SlotsOk, RlistOk, ThreadsOk, ScansOk;
    NodeCell(s.mem, s.status, d);
    FreedMore(s.freed, s.status, d);
    hide CellsOk, FreedOk, StackOk;
    StackStatus(s.head, s.stk, s.mem, s.status, d, Freed);
    CellsStatus(s.mem, s.status, d, Freed);
  }

  lemma FreedMore(freed: seq<Addr>, status: seq<Status>, d: Addr)
    requires FreedOk(freed, status) && d < |status| && status[d] != Freed
    ensures FreedOk(freed + [d], status[d := Freed])
  {
    assert d !in freed;
    assert forall a: Addr :: a in freed + [d] <==> a in freed || a == d;
  }

  /** Without d the rest of rmap is as it was. */
  lemma RmapLess(rmap: map<Addr, nat>, d: Addr, slots: seq<Slot>, role: seq<Role>, status: seq<Status>,
                 slot: Slot, r: Role, st: Status)
    requires RmapOk(rmap, slots, role, status) && d in rmap
    ensures rmap[d] < |role| && rmap[d] < |slots| && d < |status| && role[rmap[d]] == InScan
    ensures Carries(slots, status, rmap[d]) && slots[rmap[d]].data == Some(d)
    ensures RmapOk(rmap - {d}, slots[rmap[d] := slot], role[rmap[d] := r], status[d := st])
  {
    var now := rmap - {d};
    forall e | e in now
      ensures now[e] == rmap[e] && now[e] != rmap[d] && e != d
    {
      assert slots[rmap[e]].data == Some(e);
    }
  }

  lemma RmapBounds(rmap: map<Addr, nat>, d: Addr, slots: seq<Slot>, role: seq<Role>, status: seq<Status>)
    requires RmapOk(rmap, slots, role, status) && d in rmap
    ensures rmap[d] < |role| && rmap[d] < |slots| && d < |status|
  {
  }

  lemma RlistFreed(rlist: seq<nat>, slots: seq<Slot>, role: seq<Role>, status: seq<Status>, i: nat, d: Addr,
                   slot: Slot, r: Role)
    requires RlistOk(rlist, slots, role, status)
    requires i < |role| && i < |slots| && role[i] == InScan && d < |status| && status[d] == Retired(i)
    ensures RlistOk(rlist, slots[i := slot], role[i := r], status[d := Freed])
  {
  }

  lemma FreeOk<T>(u: State<T>, t: Tid, rmap: map<Addr, nat>, pmap: set<Addr>)
    requires RmapOk(rmap, u.slots, u.role, u.status)
    ensures PcOk(t, Free(rmap, pmap), u)
  {
  }

  lemma FreeOneSound<T>(s: State<T>, t: Tid, c: Choice<T>, rmap: map<Addr, nat>, pmap: set<Addr>)
    requires Sound(s) && At(s.threads, t).pc == Free(rmap, pmap) && RmapOk(rmap, s.slots, s.role, s.status)
    requires c.Pick? && c.addr in rmap && c.addr !in pmap
    ensures Sound(StepFree(s, t, c, rmap, pmap))
  {
    hide CellsOk, StackOk, SlotsOk, RlistOk, FreedOk, ThreadsOk, ScansOk, PcOk, Frame, RmapOk, NodesOk;
    var u := StepFree(s, t, c, rmap, pmap);
    var d, i := c.addr, rmap[c.addr];
    SizesOk(s);
    RmapBounds(rmap, d, s.slots, s.role, s.status);
    RmapLess(rmap, d, s.slots, s.role, s.status, s.slots[i].(retired := false, inactive := true), Unused, Freed);
    RlistFreed(s.rlist, s.slots, s.role, s.status, i, d, s.slots[i].(retired := false, inactive := true), Unused);
    FreeNodes(s, u, d);
    SlotsUpdated(s.slots, s.role, i, s.slots[i].(retired := false, inactive := true), Unused);
    FreeOk(u, t, rmap - {d}, pmap);
    FrameBoth(t, true, s, u, d, i);
    ScansKept(t, s, u);
    AssembleWith(s, t, true, u);
  }

  lemma KeepOneSound<T>(s: State<T>, t: Tid, c: Choice<T>, rmap: map<Addr, nat>, pmap: set<Addr>)
    requires Sound(s) && At(s.threads, t).pc == Free(rmap, pmap) && RmapOk(rmap, s.slots, s.role, s.status)
    requires c.Pick? && c.addr in rmap && c.addr in pmap
    ensures Sound(StepFree(s, t, c, rmap, pmap))
  {
    hide CellsOk, StackOk, SlotsOk, RlistOk, FreedOk, ThreadsOk, ScansOk, PcOk, Frame, RmapOk;
    var u := StepFree(s, t, c, rmap, pmap);
    var d, i := c.addr, rmap[c.addr];
    SizesOk(s);
    RmapBounds(rmap, d, s.slots, s.role, s.status);
    SlotInScan(s, i, rmap, d);
    RmapLess(rmap, d, s.slots, s.role, s.status, s.slots[i], Listed, s.status[d]);
    assert s.slots[i := s.slots[i]] == s.slots && s.status[d := s.status[d]] == s.status;
    RlistAdded(s.rlist, s.slots, s.role, s.status, i);
    SlotsUpdated(s.slots, s.role, i, s.slots[i], Listed);
    FreeOk(u, t, rmap - {d}, pmap);
    FrameRole(t, s, u, i, Listed);
    ScansKept(t, s, u);
    AssembleWith(s, t, true, u);
  }

  lemma SlotInScan<T>(s: State<T>, i: nat, rmap: map<Addr, nat>, d: Addr)
    requires Sound(s) && RmapOk(rmap, s.slots, s.role, s.status) && d in rmap && i == rmap[d]
    ensures i < |s.slots| && SlotMatches(s.slots[i], Listed)
  {
  }

  lemma FreeSound<T>(s: State<T>, t: Tid, c: Choice<T>, rmap: map<Addr, nat>, pmap: set<Addr>)
    requires Sound(s) && At(s.threads, t).pc == Free(rmap, pmap)
    ensures Sound(StepFree(s, t, c, rmap, pmap))
  {
    var u := StepFree(s, t, c, rmap, pmap);
    PcHere(s, t);
    assert RmapOk(rmap, s.slots, s.role, s.status);
    if rmap == map[] {
      hide CellsOk, StackOk, SlotsOk, RlistOk, FreedOk, ThreadsOk, ScansOk, PcOk, Frame, RmapOk;
      ScanEnds(s, t);
      PlainOk(u, t, Idle);
      FrameSame(t, s, u);
      AssembleWith(s, t, false, u);
    } else if c.Pick? && c.addr in rmap {
      hide Sound, PcOk, RmapOk;
      if c.addr in pmap {
        KeepOneSound(s, t, c, rmap, pmap);
      } else {
        FreeOneSound(s, t, c, rmap, pmap);
      }
    }
  }

  // ---------------------------------------------------------------- top

  lemma TopLoadSound<T>(s: State<T>, t: Tid)
    requires Sound(s)
    ensures Sound(Moved(s, t, TopAcquire(s.head)))
  {
    HeadPublished(s);
    hide CellsOk, StackOk, SlotsOk, RlistOk, FreedOk, ThreadsOk, ScansOk;
    MoveSound(s, t, Moved(s, t, TopAcquire(s.head)));
  }

  lemma TopCheckHere<T>(s: State<T>, t: Tid, h: Addr, i: nat)
    requires PcOk(t, TopCheck(h, i), s) && Published(s.status, s.head)
    ensures var u := StepTopCheck(s, t, h, i);
            t in u.threads && PcOk(t, u.threads[t].pc, u) && !Scanning(u.threads[t].pc)
  {
  }

  lemma TopCheckSound<T>(s: State<T>, t: Tid, h: Addr, i: nat)
    requires Sound(s) && At(s.threads, t).pc == TopCheck(h, i)
    ensures Sound(StepTopCheck(s, t, h, i))
  {
    HeadPublished(s);
    PcHere(s, t);
    TopCheckHere(s, t, h, i);
    hide CellsOk, StackOk, SlotsOk, RlistOk, FreedOk, ThreadsOk, ScansOk, PcOk, Published;
    MoveSound(s, t, StepTopCheck(s, t, h, i));
  }

  lemma TopReadHere<T>(s: State<T>, t: Tid, h: Addr, i: nat)
    requires PcOk(t, TopRead(h, i), s)
    ensures PcOk(t, TopDrop(i, TopResult(s.mem, h)), Moved(s, t, TopDrop(i, TopResult(s.mem, h))))
  {
  }

  lemma TopReadSound<T>(s: State<T>, t: Tid, h: Addr, i: nat)
    requires Sound(s) && At(s.threads, t).pc == TopRead(h, i)
    ensures Sound(Moved(s, t, TopDrop(i, TopResult(s.mem, h))))
  {
    PcHere(s, t);
    TopReadHere(s, t, h, i);
    hide CellsOk, StackOk, SlotsOk, RlistOk, FreedOk, ThreadsOk, ScansOk, PcOk;
    MoveSound(s, t, Moved(s, t, TopDrop(i, TopResult(s.mem, h))));
  }

  lemma TopDropHere<T>(s: State<T>, t: Tid, i: nat, result: Result<T>)
    requires PcOk(t, TopDrop(i, result), s)
    ensures Holds(s.role, t, i)
  {
  }

  lemma TopDropSound<T>(s: State<T>, t: Tid, i: nat, result: Result<T>)
    requires Sound(s) && At(s.threads, t).pc == TopDrop(i, result)
    ensures Sound(StepTopDrop(s, t, i, result))
  {
    var u := StepTopDrop(s, t, i, result);
    PcHere(s, t);
    SizesOk(s);
    TopDropHere(s, t, i, result);
    hide CellsOk, StackOk, SlotsOk, RlistOk, FreedOk, ThreadsOk, ScansOk, PcOk, Frame;
    HeldActive(s.slots, s.role, t, i);
    SlotsUpdated(s.slots, s.role, i, s.slots[i].(inactive := true), Unused);
    FrameSlot(t, s, u, i);
    RlistKept(t, s, u);
    PlainOk(u, t, Idle);
    Assemble(s, t, u);
  }
}
