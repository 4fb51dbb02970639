/** What every interleaved run of the stack keeps about its memory and hazard slots. */
module StackInvariant {
  import opened Common
  import opened StackState

  // ---------------------------------------------------------------- nodes

  ghost predicate Published(status: seq<Status>, a: Addr) {
    a < |status| && !status[a].Private?
  }

  /** A published node has a published successor; the sentinel has none. */
  ghost predicate CellsOk<T>(mem: seq<Cell<T>>, status: seq<Status>) {
    && |mem| == |status| >= 1
    && status[SENTINEL] == Sentinel && mem[SENTINEL] == Cell(None, None)
    && forall a :: 1 <= a < |mem| ==>
         && status[a] != Sentinel && mem[a].data.Some?
         && (!status[a].Private? ==> mem[a].next.Some? && Published(status, mem[a].next.value))
  }

  function Below(stk: seq<Addr>, i: nat): Addr {
    if i + 1 < |stk| then stk[i + 1] else SENTINEL
  }

  /** head leads through the nodes of the abstract stack, in order, to the sentinel. */
  ghost predicate StackOk<T>(head: Addr, stk: seq<Addr>, mem: seq<Cell<T>>, status: seq<Status>) {
    && Distinct(stk)
    && head == (if stk == [] then SENTINEL else stk[0])
    && forall i :: 0 <= i < |stk| ==>
         && 1 <= stk[i] < |mem| && stk[i] < |status| && status[stk[i]] == InStack
         && mem[stk[i]].next == Some(Below(stk, i))
  }

  // ---------------------------------------------------------------- slots

  predicate SlotMatches(s: Slot, r: Role) {
    match r
    case Unused => !s.retired && s.inactive
    case Held(_) => s.Active()
    case _ => s.retired && !s.inactive
  }

  ghost predicate SlotsOk(slots: seq<Slot>, role: seq<Role>) {
    |slots| == |role| && forall i :: 0 <= i < |slots| ==> SlotMatches(slots[i], role[i])
  }

  /** Slot i carries the retirement of one address. */
  predicate Carries(slots: seq<Slot>, status: seq<Status>, i: nat) {
    && i < |slots| && slots[i].data.Some?
    && slots[i].data.value < |status| && status[slots[i].data.value] == Retired(i)
  }

  ghost predicate RlistOk(rlist: seq<nat>, slots: seq<Slot>, role: seq<Role>, status: seq<Status>) {
    && Distinct(rlist)
    && forall k :: 0 <= k < |rlist| ==>
         rlist[k] < |role| && role[rlist[k]] == Listed && Carries(slots, status, rlist[k])
  }

  ghost predicate RmapOk(rmap: map<Addr, nat>, slots: seq<Slot>, role: seq<Role>, status: seq<Status>) {
    forall d :: d in rmap ==>
      && rmap[d] < |role| && role[rmap[d]] == InScan
      && rmap[d] < |slots| && slots[rmap[d]].data == Some(d)
      && d < |status| && status[d] == Retired(rmap[d])
  }

  /** Each address is deleted at most once. */
  ghost predicate FreedOk(freed: seq<Addr>, status: seq<Status>) {
    && Distinct(freed)
    && forall a: Addr :: a in freed <==> a < |status| && status[a] == Freed
  }

  // ---------------------------------------------------------------- threads

  predicate Holds(role: seq<Role>, t: Tid, i: nat) {
    i < |role| && role[i] == Held(t)
  }

  predicate Guards(slots: seq<Slot>, i: nat, a: Addr) {
    i < |slots| && slots[i].data == Some(a)
  }

  predicate Scanning<T>(pc: Pc<T>) {
    pc.Drain? || pc.VisitTag? || pc.VisitData? || pc.Free?
  }

  /** What thread t may rely on where it is. */
  ghost predicate PcOk<T>(t: Tid, pc: Pc<T>, s: State<T>) {
    match pc
    case PushLoad(a) => a < |s.status| && s.status[a] == Private(t)
    case PushCas(a, n) =>
      && a < |s.status| && s.status[a] == Private(t)
      && a < |s.mem| && s.mem[a].next == Some(n) && Published(s.status, n)
    case PopNext(h) => Published(s.status, h)
    case PopCas(h, n) => Published(s.status, h) && h < |s.mem| && s.mem[h].next == Some(n)
    case PopCount(a) => a < |s.status| && s.status[a] == Removed(t)
    case PopAcquire(a) => a < |s.status| && s.status[a] == Removed(t)
    case PopProtect(a, i) => a < |s.status| && s.status[a] == Removed(t) && Holds(s.role, t, i)
    case PopTag(a, i) =>
      a < |s.status| && s.status[a] == Removed(t) && Holds(s.role, t, i) && Guards(s.slots, i, a)
    case PopRecord(i) => i < |s.role| && s.role[i] == Leaving(t) && Carries(s.slots, s.status, i)
    case Drain(rmap) => RmapOk(rmap, s.slots, s.role, s.status)
    case VisitTag(rmap, _, _, end) => RmapOk(rmap, s.slots, s.role, s.status) && end <= |s.slots|
    case VisitData(rmap, _, j, end) => RmapOk(rmap, s.slots, s.role, s.status) && j < end <= |s.slots|
    case Free(rmap, _) => RmapOk(rmap, s.slots, s.role, s.status)
    case TopAcquire(h) => Published(s.status, h)
    case TopProtect(h, i) => Published(s.status, h) && Holds(s.role, t, i)
    case TopCheck(h, i) => Published(s.status, h) && Holds(s.role, t, i) && Guards(s.slots, i, h)
    case TopRead(h, i) => Published(s.status, h) && Holds(s.role, t, i) && Guards(s.slots, i, h)
    case TopDrop(i, _) => Holds(s.role, t, i)
    case _ => true
  }

  ghost predicate ThreadsOk<T>(s: State<T>) {
    forall t :: t in s.threads ==> PcOk(t, s.threads[t].pc, s)
  }

  /** At most one thread scans, and only while isBusy is set. */
  ghost predicate ScansOk<T>(threads: map<Tid, Thread<T>>, busy: bool) {
    && (forall t :: t in threads && Scanning(threads[t].pc) ==> busy)
    && (forall t, u :: t in threads && u in threads && Scanning(threads[t].pc) && Scanning(threads[u].pc) ==> t == u)
  }

  ghost predicate Sound<T>(s: State<T>) {
    && CellsOk(s.mem, s.status)
    && StackOk(s.head, s.stk, s.mem, s.status)
    && SlotsOk(s.slots, s.role)
    && RlistOk(s.rlist, s.slots, s.role, s.status)
    && FreedOk(s.freed, s.status)
    && ThreadsOk(s)
    && ScansOk(s.threads, s.busy)
  }

  // ---------------------------------------------------------------- what a step leaves to others

  /** Only thread t moved. */
  ghost predicate OneMoved<T>(s: State<T>, t: Tid, u: State<T>) {
    t in u.threads && u.threads == s.threads[t := u.threads[t]]
  }

  /** Thread t may change the state of an address in this state. */
  predicate May(t: Tid, st: Status, role: seq<Role>, scan: bool) {
    match st
    case Private(u) => t == u
    case Removed(u) => t == u
    case InStack => true
    case Retired(i) => scan && i < |role| && role[i] == InScan
    case _ => false
  }

  predicate MayRole(t: Tid, r: Role, scan: bool) {
    match r
    case Held(u) => t == u
    case Leaving(u) => t == u
    case Unused => true
    case _ => scan
  }

  /** A step of thread t, which is a scan step or not, from s to u. */
  ghost predicate Frame<T>(t: Tid, scan: bool, s: State<T>, u: State<T>) {
    && |s.mem| <= |u.mem| && |s.status| <= |u.status| && |s.slots| <= |u.slots| && |s.role| <= |u.role|
    && (forall a :: 0 <= a < |s.mem| && a < |s.status| && s.status[a] != Private(t) ==> u.mem[a] == s.mem[a])
    && (forall a :: 0 <= a < |s.status| ==>
          u.status[a] == s.status[a] || (May(t, s.status[a], s.role, scan) && !u.status[a].Private?))
    && (forall i :: 0 <= i < |s.role| && i < |s.slots| ==>
          (u.role[i] == s.role[i] && u.slots[i] == s.slots[i]) || MayRole(t, s.role[i], scan))
  }

  lemma NodePcKept<T>(v: Tid, pc: Pc<T>, t: Tid, scan: bool, s: State<T>, u: State<T>)
    requires v != t && PcOk(v, pc, s) && Frame(t, scan, s, u)
    requires |s.mem| == |s.status| && |s.slots| == |s.role|
    requires pc.PushLoad? || pc.PushCas? || pc.PopNext? || pc.PopCas? || pc.PopCount? || pc.PopAcquire? ||
        pc.TopAcquire?
    ensures PcOk(v, pc, u)
  {
  }

  lemma PopSlotKept<T>(v: Tid, pc: Pc<T>, t: Tid, scan: bool, s: State<T>, u: State<T>)
    requires v != t && PcOk(v, pc, s) && Frame(t, scan, s, u)
    requires |s.mem| == |s.status| && |s.slots| == |s.role|
    requires pc.PopProtect? || pc.PopTag? || pc.PopRecord?
    ensures PcOk(v, pc, u)
  {
  }

  lemma TopSlotKept<T>(v: Tid, pc: Pc<T>, t: Tid, scan: bool, s: State<T>, u: State<T>)
    requires v != t && PcOk(v, pc, s) && Frame(t, scan, s, u)
    requires |s.mem| == |s.status| && |s.slots| == |s.role|
    requires pc.TopProtect? || pc.TopCheck? || pc.TopRead? || pc.TopDrop?
    ensures PcOk(v, pc, u)
  {
  }

  lemma RmapKept<T>(rmap: map<Addr, nat>, t: Tid, s: State<T>, u: State<T>)
    requires RmapOk(rmap, s.slots, s.role, s.status) && Frame(t, false, s, u)
    requires |s.mem| == |s.status| && |s.slots| == |s.role|
    ensures RmapOk(rmap, u.slots, u.role, u.status) && |s.slots| <= |u.slots|
  {
  }

  lemma ScanPcKept<T>(v: Tid, pc: Pc<T>, t: Tid, s: State<T>, u: State<T>)
    requires PcOk(v, pc, s) && Scanning(pc) && Frame(t, false, s, u)
    requires |s.mem| == |s.status| && |s.slots| == |s.role|
    ensures PcOk(v, pc, u)
  {
    RmapKept(pc.rmap, t, s, u);
    hide RmapOk, Frame;
  }

  lemma PcKept<T>(v: Tid, pc: Pc<T>, t: Tid, scan: bool, s: State<T>, u: State<T>)
    requires v != t && PcOk(v, pc, s) && Frame(t, scan, s, u)
    requires |s.mem| == |s.status| && |s.slots| == |s.role|
    requires scan ==> !Scanning(pc)
    ensures PcOk(v, pc, u)
  {
    hide Frame, Published, Holds, Guards, Carries, RmapOk;
    if Scanning(pc) {
      ScanPcKept(v, pc, t, s, u);
    } else if pc.PopProtect? || pc.PopTag? || pc.PopRecord? {
      PopSlotKept(v, pc, t, scan, s, u);
    } else if pc.TopProtect? || pc.TopCheck? || pc.TopRead? || pc.TopDrop? {
      TopSlotKept(v, pc, t, scan, s, u);
    } else if pc.PushLoad? || pc.PushCas? || pc.PopNext? || pc.PopCas? || pc.PopCount? || pc.PopAcquire?
           || pc.TopAcquire? {
      NodePcKept(v, pc, t, scan, s, u);
    }
  }

  /** The other threads' knowledge survives a step of t. */
  lemma ThreadsKept<T>(t: Tid, scan: bool, s: State<T>, u: State<T>)
    requires ThreadsOk(s) && ScansOk(s.threads, s.busy) && Frame(t, scan, s, u)
    requires |s.mem| == |s.status| && |s.slots| == |s.role|
    requires scan ==> t in s.threads && Scanning(s.threads[t].pc)
    requires forall v :: v in u.threads && v != t ==> v in s.threads && u.threads[v].pc == s.threads[v].pc
    requires t in u.threads && PcOk(t, u.threads[t].pc, u)
    ensures ThreadsOk(u)
  {
    hide PcOk, Frame;
    forall v | v in u.threads
      ensures PcOk(v, u.threads[v].pc, u)
    {
      if v != t {
        PcKept(v, s.threads[v].pc, t, scan, s, u);
      }
    }
  }

  /** Records stay good unless a scan or a new record changes the list. */
  lemma RlistKept<T>(t: Tid, s: State<T>, u: State<T>)
    requires RlistOk(s.rlist, s.slots, s.role, s.status) && Frame(t, false, s, u) && |s.slots| == |s.role|
    ensures RlistOk(s.rlist, u.slots, u.role, u.status)
  {
  }

  lemma ScansKept<T>(t: Tid, s: State<T>, u: State<T>)
    requires ScansOk(s.threads, s.busy) && u.busy == s.busy
    requires t in u.threads && (Scanning(u.threads[t].pc) ==> t in s.threads && Scanning(s.threads[t].pc))
    requires forall v :: v in u.threads && v != t ==> v in s.threads && u.threads[v].pc == s.threads[v].pc
    ensures ScansOk(u.threads, u.busy)
  {
  }
}
