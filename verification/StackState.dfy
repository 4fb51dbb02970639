/** The Treiber stack with hazard-protected top (LF_FreeList.hpp, LF_stack.hpp) as a machine of
    interleaved small steps: each load, store and compare-exchange of a thread is a step of its
    own. Addresses are never reissued; address 0 is the sentinel that tail_ points to. */
module StackState {
  import opened Common
  import HazardState

  type Tid = nat
  type Addr = nat

  const LIMIT: nat := 2
  const SENTINEL: Addr := 0

  datatype Cell<T> = Cell(data: Option<T>, next: Option<Addr>)

  type Slot = HazardState.Slot<Addr>

  datatype Op<T> = Push(v: T) | Pop | Top

  datatype Result<T> = Pushed | Popped(v: T) | Seen(v: T) | Empty

  /** Where a thread is; each name says what the thread does next. */
  datatype Pc<T> =
    | Idle
    | PushLoad(node: Addr)
    | PushCas(node: Addr, next: Addr)
    | PushCount
    | PopLoad
    | PopNext(head: Addr)
    | PopCas(head: Addr, next: Addr)
    | PopCount(node: Addr)
    | PopAcquire(node: Addr)
    | PopProtect(node: Addr, slot: nat)
    | PopTag(node: Addr, slot: nat)
    | PopRecord(slot: nat)
    | PopLimit
    | PopBusy
    | Drain(rmap: map<Addr, nat>)
    | VisitTag(rmap: map<Addr, nat>, pmap: set<Addr>, j: nat, end: nat)
    | VisitData(rmap: map<Addr, nat>, pmap: set<Addr>, j: nat, end: nat)
    | Free(rmap: map<Addr, nat>, pmap: set<Addr>)
    | TopLoad
    | TopAcquire(head: Addr)
    | TopProtect(head: Addr, slot: nat)
    | TopCheck(head: Addr, slot: nat)
    | TopRead(head: Addr, slot: nat)
    | TopDrop(slot: nat, result: Result<T>)

  /** Calls, linearization points and returns. */
  datatype Event<T> =
    | Call(tid: Tid, op: Op<T>)
    | Lin(tid: Tid, op: Op<T>, result: Result<T>)
    | Ret(tid: Tid, result: Result<T>)

  /** How far a thread is with its operation, as the log shows it. */
  datatype Phase<T> = Quiet | Called(op: Op<T>) | Done(op: Op<T>, result: Result<T>) | Broken

  datatype Thread<T> = Thread(pc: Pc<T>, phase: Phase<T>)

  /** History: what has become of an address, and who answers for a slot. */
  datatype Status = Sentinel | Private(tid: Tid) | InStack | Removed(tid: Tid) | Retired(slot: nat) | Freed
  datatype Role = Unused | Held(tid: Tid) | Leaving(tid: Tid) | Listed | InScan

  datatype State<T> = State(
    head: Addr,
    mem: seq<Cell<T>>,
    counter: int,
    slots: seq<Slot>,
    rlist: seq<nat>,
    busy: bool,
    freed: seq<Addr>,
    threads: map<Tid, Thread<T>>,
    stk: seq<Addr>,
    status: seq<Status>,
    role: seq<Role>,
    log: seq<Event<T>>)

  function Initial<T>(): State<T> {
    State(SENTINEL, [Cell(None, None)], 0, [], [], false, [], map[], [], [Sentinel], [], [])
  }

  function At<T>(threads: map<Tid, Thread<T>>, t: Tid): Thread<T> {
    if t in threads then threads[t] else Thread(Idle, Quiet)
  }

  /** The scheduler's choices: which call an idle thread makes, which slot make_hazard hands
      out, and in which order a scan goes through the retired addresses. */
  datatype Choice<T> = DoPush(v: T) | DoPop | DoTop | TakeSlot(slot: nat) | Pick(addr: Addr) | Go

  // ---------------------------------------------------------------- parts of steps

  function Moved<T>(s: State<T>, t: Tid, pc: Pc<T>): State<T> {
    s.(threads := s.threads[t := At(s.threads, t).(pc := pc)])
  }

  function Began<T>(s: State<T>, t: Tid, pc: Pc<T>, op: Op<T>): State<T> {
    s.(threads := s.threads[t := Thread(pc, Called(op))], log := s.log + [Call(t, op)])
  }

  /** The step at which the operation takes effect. */
  function Linearized<T>(s: State<T>, t: Tid, pc: Pc<T>, op: Op<T>, result: Result<T>): State<T> {
    s.(threads := s.threads[t := Thread(pc, Done(op, result))], log := s.log + [Lin(t, op, result)])
  }

  function Returned<T>(s: State<T>, t: Tid, result: Result<T>): State<T> {
    s.(threads := s.threads[t := Thread(Idle, Quiet)], log := s.log + [Ret(t, result)])
  }

  /** What the thread's operation answers; a pop keeps it while it retires the node. */
  function ResultOf<T>(th: Thread<T>): Result<T> {
    if th.phase.Done? then th.phase.result else Empty
  }

  /** A slot that make_hazard may hand out: an inactive one or a new one. */
  predicate Offered(slots: seq<Slot>, i: nat) {
    i == |slots| || (i < |slots| && slots[i].inactive)
  }

  function Acquired<T>(s: State<T>, t: Tid, i: nat): State<T>
    requires i <= |s.slots| && |s.role| == |s.slots|
  {
    if i < |s.slots|
    then s.(slots := s.slots[i := HazardState.Clean(None)], role := s.role[i := Held(t)])
    else s.(slots := s.slots + [HazardState.Clean(None)], role := s.role + [Held(t)])
  }

  function WithData(slots: seq<Slot>, i: nat, a: Addr): seq<Slot>
    requires i < |slots|
  {
    slots[i := slots[i].(data := Some(a))]
  }

  // ---------------------------------------------------------------- steps

  function StepIdle<T>(s: State<T>, t: Tid, c: Choice<T>): State<T> {
    match c
    case DoPush(v) =>
      var a := |s.mem|;
      Began(s.(mem := s.mem + [Cell(Some(v), None)], status := s.status + [Private(t)]), t, PushLoad(a), Push(v))
    case DoPop => Began(s, t, PopLoad, Pop)
    case DoTop => Began(s, t, TopLoad, Top)
    case _ => s
  }

  function StepPushLoad<T>(s: State<T>, t: Tid, a: Addr): State<T> {
    if a < |s.mem|
    then Moved(s.(mem := s.mem[a := s.mem[a].(next := Some(s.head))]), t, PushCas(a, s.head))
    else s
  }

  function StepPushCas<T>(s: State<T>, t: Tid, a: Addr, n: Addr): State<T> {
    if s.head != n then Moved(s, t, PushLoad(a))
    else if a < |s.mem| && a < |s.status| && s.mem[a].data.Some?
    then
      Linearized(s.(head := a, stk := [a] + s.stk, status := s.status[a := InStack]),
                 t, PushCount, Push(s.mem[a].data.value), Pushed)
    else s
  }

  function StepPushCount<T>(s: State<T>, t: Tid): State<T> {
    Returned(s.(counter := s.counter + 1), t, Pushed)
  }

  /** pop has seen head h: if that is the sentinel, the stack is empty at this instant. */
  function SawHead<T>(s: State<T>, t: Tid): State<T> {
    if s.head == SENTINEL then Linearized(s, t, PopNext(s.head), Pop, Empty) else Moved(s, t, PopNext(s.head))
  }

  function StepPopNext<T>(s: State<T>, t: Tid, h: Addr): State<T> {
    if h < |s.mem| && s.mem[h].next.Some?
    then Moved(s, t, PopCas(h, s.mem[h].next.value))
    else Returned(s, t, Empty)
  }

  function StepPopCas<T>(s: State<T>, t: Tid, h: Addr, n: Addr): State<T> {
    if s.head != h then SawHead(s, t)
    else if h < |s.mem| && h < |s.status| && s.mem[h].data.Some? && s.stk != []
    then
      Linearized(s.(head := n, stk := s.stk[1..], status := s.status[h := Removed(t)]),
                 t, PopCount(h), Pop, Popped(s.mem[h].data.value))
    else s
  }

  function StepAcquire<T>(s: State<T>, t: Tid, c: Choice<T>, popped: bool, a: Addr): State<T> {
    if c.TakeSlot? && Offered(s.slots, c.slot) && |s.role| == |s.slots|
    then Moved(Acquired(s, t, c.slot), t, if popped then PopProtect(a, c.slot) else TopProtect(a, c.slot))
    else s
  }

  function StepProtect<T>(s: State<T>, t: Tid, i: nat, a: Addr, pc: Pc<T>): State<T> {
    if i < |s.slots| then Moved(s.(slots := WithData(s.slots, i, a)), t, pc) else s
  }

  /** hazard_pointer::reclaim. */
  function StepTag<T>(s: State<T>, t: Tid, a: Addr, i: nat): State<T> {
    if i < |s.slots| && i < |s.role| && a < |s.status|
    then
      Moved(s.(slots := s.slots[i := s.slots[i].(retired := true)], role := s.role[i := Leaving(t)],
               status := s.status[a := Retired(i)]), t, PopRecord(i))
    else s
  }

  function StepRecord<T>(s: State<T>, t: Tid, i: nat): State<T> {
    if i < |s.role| then Moved(s.(rlist := [i] + s.rlist, role := s.role[i := Listed]), t, PopLimit) else s
  }

  function StepLimit<T>(s: State<T>, t: Tid): State<T> {
    if |s.rlist| >= LIMIT then Moved(s, t, PopBusy) else Returned(s, t, ResultOf(At(s.threads, t)))
  }

  function StepBusy<T>(s: State<T>, t: Tid): State<T> {
    if s.busy then Returned(s, t, ResultOf(At(s.threads, t)))
    else Moved(s.(busy := true), t, Drain(map[]))
  }

  /** One record off rlist_. */
  function StepDrain<T>(s: State<T>, t: Tid, rmap: map<Addr, nat>): State<T> {
    if s.rlist == [] then Moved(s, t, VisitTag(rmap, {}, 0, |s.slots|))
    else
      var i := s.rlist[0];
      if i < |s.slots| && i < |s.role| then
        var u := s.(rlist := s.rlist[1..]);
        if s.slots[i].data.None?
        then u.(slots := s.slots[i := HazardState.Clean(None)])
        else Moved(u.(role := s.role[i := InScan]), t, Drain(rmap[s.slots[i].data.value := i]))
      else s
  }

  function StepVisitTag<T>(s: State<T>, t: Tid, rmap: map<Addr, nat>, pmap: set<Addr>, j: nat, end: nat): State<T> {
    if j < end && j < |s.slots| then
      if s.slots[j].Active() then Moved(s, t, VisitData(rmap, pmap, j, end))
      else Moved(s, t, VisitTag(rmap, pmap, j + 1, end))
    else Moved(s, t, Free(rmap, pmap))
  }

  function StepVisitData<T>(s: State<T>, t: Tid, rmap: map<Addr, nat>, pmap: set<Addr>, j: nat, end: nat): State<T> {
    if j < |s.slots| then
      var seen := if s.slots[j].data.Some? then {s.slots[j].data.value} else {};
      Moved(s, t, VisitTag(rmap, pmap + seen, j + 1, end))
    else s
  }

  /** One retired address is deleted or put back. */
  function StepFree<T>(s: State<T>, t: Tid, c: Choice<T>, rmap: map<Addr, nat>, pmap: set<Addr>): State<T> {
    if rmap == map[] then Returned(s.(busy := false), t, ResultOf(At(s.threads, t)))
    else if c.Pick? && c.addr in rmap && c.addr < |s.status| && rmap[c.addr] < |s.slots| && rmap[c.addr] < |s.role|
    then
      var d, i := c.addr, rmap[c.addr];
      if d in pmap
      then Moved(s.(rlist := [i] + s.rlist, role := s.role[i := Listed]), t, Free(rmap - {d}, pmap))
      else
        Moved(s.(freed := s.freed + [d], status := s.status[d := Freed], role := s.role[i := Unused],
                 slots := s.slots[i := s.slots[i].(retired := false, inactive := true)]),
              t, Free(rmap - {d}, pmap))
    else s
  }

  function TopResult<T>(mem: seq<Cell<T>>, h: Addr): Result<T> {
    if h != SENTINEL && h < |mem| && mem[h].data.Some? then Seen(mem[h].data.value) else Empty
  }

  /** Re-reads head; if it is unchanged the operation takes effect here. */
  function StepTopCheck<T>(s: State<T>, t: Tid, h: Addr, i: nat): State<T> {
    if s.head == h then Linearized(s, t, TopRead(h, i), Top, TopResult(s.mem, h))
    else Moved(s, t, TopProtect(s.head, i))
  }

  function StepTopDrop<T>(s: State<T>, t: Tid, i: nat, result: Result<T>): State<T> {
    if i < |s.slots| && i < |s.role|
    then Returned(s.(slots := s.slots[i := s.slots[i].(inactive := true)], role := s.role[i := Unused]), t, result)
    else s
  }

  /** The next step of thread t. A choice that does not apply changes nothing. */
  function Next<T>(s: State<T>, t: Tid, c: Choice<T>): State<T> {
    match At(s.threads, t).pc
    case Idle => StepIdle(s, t, c)
    case PushLoad(a) => StepPushLoad(s, t, a)
    case PushCas(a, n) => StepPushCas(s, t, a, n)
    case PushCount => StepPushCount(s, t)
    case PopLoad => SawHead(s, t)
    case PopNext(h) => StepPopNext(s, t, h)
    case PopCas(h, n) => StepPopCas(s, t, h, n)
    case PopCount(a) => Moved(s.(counter := s.counter - 1), t, PopAcquire(a))
    case PopAcquire(a) => StepAcquire(s, t, c, true, a)
    case PopProtect(a, i) => StepProtect(s, t, i, a, PopTag(a, i))
    case PopTag(a, i) => StepTag(s, t, a, i)
    case PopRecord(i) => StepRecord(s, t, i)
    case PopLimit => StepLimit(s, t)
    case PopBusy => StepBusy(s, t)
    case Drain(rmap) => StepDrain(s, t, rmap)
    case VisitTag(rmap, pmap, j, end) => StepVisitTag(s, t, rmap, pmap, j, end)
    case VisitData(rmap, pmap, j, end) => StepVisitData(s, t, rmap, pmap, j, end)
    case Free(rmap, pmap) => StepFree(s, t, c, rmap, pmap)
    case TopLoad => Moved(s, t, TopAcquire(s.head))
    case TopAcquire(h) => StepAcquire(s, t, c, false, h)
    case TopProtect(h, i) => StepProtect(s, t, i, h, TopCheck(h, i))
    case TopCheck(h, i) => StepTopCheck(s, t, h, i)
    case TopRead(h, i) => Moved(s, t, TopDrop(i, TopResult(s.mem, h)))
    case TopDrop(i, result) => StepTopDrop(s, t, i, result)
  }
}
