/** Whole interleaved runs of the stack, under every schedule of any number of threads. */
module StackRuns {
  import opened Common
  import opened StackState
  import opened StackInvariant
  import opened StackSteps
  import opened StackSafety
  import opened StackLog
  import opened StackHistory

  /** A run of the machine: a schedule names the thread of each step and the choice it makes. */
  ghost predicate Run<T>(states: seq<State<T>>, schedule: seq<(Tid, Choice<T>)>) {
    && |states| == |schedule| + 1
    && states[0] == Initial()
    && forall i :: 0 <= i < |schedule| ==> states[i + 1] == Next(states[i], schedule[i].0, schedule[i].1)
  }

  // ---------------------------------------------------------------- memory and slots

  lemma NextSound<T>(s: State<T>, t: Tid, c: Choice<T>)
    requires Sound(s)
    ensures Sound(Next(s, t, c))
  {
    hide Sound;
    match At(s.threads, t).pc {
      case Idle => IdleSound(s, t, c);
      case PushLoad(a) => PushLoadSound(s, t, a);
      case PushCas(a, n) => PushCasSound(s, t, a, n);
      case PushCount => PushCountSound(s, t);
      case PopLoad => SawHeadSound(s, t);
      case PopNext(h) => PopNextSound(s, t, h);
      case PopCas(h, n) => PopCasSound(s, t, h, n);
      case PopCount(a) => PopCountSound(s, t, a);
      case PopAcquire(a) => AcquireSound(s, t, c, true, a);
      case PopProtect(a, i) => ProtectSound(s, t, i, a, true);
      case PopTag(a, i) => TagSound(s, t, a, i);
      case PopRecord(i) => RecordSound(s, t, i);
      case PopLimit => LimitSound(s, t);
      case PopBusy => BusySound(s, t);
      case Drain(rmap) => DrainSound(s, t, rmap);
      case VisitTag(rmap, pmap, j, end) => VisitTagSound(s, t, rmap, pmap, j, end);
      case VisitData(rmap, pmap, j, end) => VisitDataSound(s, t, rmap, pmap, j, end);
      case Free(rmap, pmap) => FreeSound(s, t, c, rmap, pmap);
      case TopLoad => TopLoadSound(s, t);
      case TopAcquire(h) => AcquireSound(s, t, c, false, h);
      case TopProtect(h, i) => ProtectSound(s, t, i, h, false);
      case TopCheck(h, i) => TopCheckSound(s, t, h, i);
      case TopRead(h, i) => TopReadSound(s, t, h, i);
      case TopDrop(i, result) => TopDropSound(s, t, i, result);
    }
  }

  lemma PushCountSound<T>(s: State<T>, t: Tid)
    requires Sound(s)
    ensures Sound(StepPushCount(s, t))
  {
    var u := StepPushCount(s, t);
    PlainOk(u, t, Idle);
    hide CellsOk, StackOk, SlotsOk, RlistOk, FreedOk, ThreadsOk, ScansOk, PcOk;
    MoveSound(s, t, u);
  }

  // ---------------------------------------------------------------- what steps look like

  /** After a pop has taken its node it retires it. */
  predicate Later<T>(pc: Pc<T>) {
    || pc.PopCount? || pc.PopAcquire? || pc.PopProtect? || pc.PopTag? || pc.PopRecord? || pc.PopLimit?
    || pc.PopBusy? || pc.Drain? || pc.VisitTag? || pc.VisitData? || pc.Free?
  }

  ghost predicate MovesOn<T>(s: State<T>, t: Tid, u: State<T>, pc: Pc<T>) {
    u.stk == s.stk && u.mem == s.mem && u.log == s.log && u.threads == s.threads[t := At(s.threads, t).(pc := pc)]
  }

  ghost predicate Returns<T>(s: State<T>, t: Tid, u: State<T>, r: Result<T>) {
    && u.stk == s.stk && u.mem == s.mem && u.log == s.log + [Ret(t, r)]
    && u.threads == s.threads[t := Thread(Idle, Quiet)]
  }

  ghost predicate LaterStep<T>(s: State<T>, t: Tid, u: State<T>) {
    || u.threads == s.threads
    || (t in u.threads && Later(u.threads[t].pc) && !u.threads[t].pc.PopCount? && MovesOn(s, t, u, u.threads[t].pc))
    || Returns(s, t, u, ResultOf(At(s.threads, t)))
  }

  lemma RetireShape<T>(s: State<T>, t: Tid, c: Choice<T>)
    requires Later(At(s.threads, t).pc) && !Scanning(At(s.threads, t).pc)
    ensures LaterStep(s, t, Next(s, t, c))
    ensures Next(s, t, c).stk == s.stk && Next(s, t, c).mem == s.mem
    ensures Next(s, t, c).threads == s.threads ==> Next(s, t, c).log == s.log
  {
  }

  lemma DrainShape<T>(s: State<T>, t: Tid, c: Choice<T>)
    requires At(s.threads, t).pc.Drain? || At(s.threads, t).pc.Free?
    ensures LaterStep(s, t, Next(s, t, c))
    ensures Next(s, t, c).stk == s.stk && Next(s, t, c).mem == s.mem
    ensures Next(s, t, c).threads == s.threads ==> Next(s, t, c).log == s.log
  {
  }

  lemma VisitShape<T>(s: State<T>, t: Tid, c: Choice<T>)
    requires At(s.threads, t).pc.VisitTag? || At(s.threads, t).pc.VisitData?
    ensures LaterStep(s, t, Next(s, t, c))
    ensures Next(s, t, c).stk == s.stk && Next(s, t, c).mem == s.mem
    ensures Next(s, t, c).threads == s.threads ==> Next(s, t, c).log == s.log
  {
  }

  // ---------------------------------------------------------------- the log

  lemma LaterPhase<T>(pc: Pc<T>, now: Pc<T>, p: Phase<T>, mem: seq<Cell<T>>)
    requires Later(pc) && PhaseOk(pc, p, mem)
    ensures p.Done? && (Later(now) ==> PhaseOk(now, p, mem))
  {
  }

  lemma LaterLogged<T>(s: State<T>, t: Tid, c: Choice<T>)
    requires Sound(s) && Logged(s) && Later(At(s.threads, t).pc)
    ensures Logged(Next(s, t, c))
  {
    var u := Next(s, t, c);
    PhaseHere(s, t);
    ReadersHere(s);
    if At(s.threads, t).pc.Drain? || At(s.threads, t).pc.Free? {
      DrainShape(s, t, c);
    } else if At(s.threads, t).pc.VisitTag? || At(s.threads, t).pc.VisitData? {
      VisitShape(s, t, c);
    } else {
      RetireShape(s, t, c);
    }
    hide Next, Sound, ReadersIn, PhaseOk, Later, Scanning;
    LoggedLater(s, t, u);
  }

  lemma LoggedLater<T>(s: State<T>, t: Tid, u: State<T>)
    requires Logged(s) && ReadersIn(s.threads, s.mem) && Later(At(s.threads, t).pc) && LaterStep(s, t, u)
    requires PhaseOk(At(s.threads, t).pc, At(s.threads, t).phase, s.mem)
    requires u.stk == s.stk && u.mem == s.mem && (u.threads == s.threads ==> u.log == s.log)
    ensures Logged(u)
  {
    var th := At(s.threads, t);
    LaterPhase(th.pc, At(u.threads, t).pc, th.phase, s.mem);
    assert DataKept(s.mem, u.mem);
    hide PhaseOk, ReadersIn, Later;
    if u.threads == s.threads {
    } else if Returns(s, t, u, ResultOf(th)) {
      hide Logged;
      ReturnedLogged(s, t, u, ResultOf(th));
    } else {
      hide Logged;
      MovedLogged(s, t, u, u.threads[t].pc);
    }
  }

  lemma PushLoadLogged<T>(s: State<T>, t: Tid, a: Addr)
    requires Sound(s) && Logged(s) && At(s.threads, t).pc == PushLoad(a)
    ensures Logged(StepPushLoad(s, t, a))
  {
    var u := StepPushLoad(s, t, a);
    PhaseHere(s, t);
    ReadersHere(s);
    hide Sound, Logged, ReadersIn;
    if a < |s.mem| {
      MovedLogged(s, t, u, PushCas(a, s.head));
    }
  }

  lemma PushCountLogged<T>(s: State<T>, t: Tid)
    requires Sound(s) && Logged(s) && At(s.threads, t).pc == PushCount
    ensures Logged(StepPushCount(s, t))
  {
    PhaseHere(s, t);
    ReadersHere(s);
    hide Sound, Logged, ReadersIn;
    ReturnedLogged(s, t, StepPushCount(s, t), Pushed);
  }

  predicate TopStep<T>(pc: Pc<T>) {
    pc.TopLoad? || pc.TopAcquire? || pc.TopProtect? || pc.TopRead? || pc.TopDrop?
  }

  ghost predicate TopOutcome<T>(s: State<T>, t: Tid, u: State<T>) {
    var th := At(s.threads, t);
    || u == s
    || (th.phase.Done? && Returns(s, t, u, th.phase.result))
    || (t in u.threads && MovesOn(s, t, u, u.threads[t].pc) && PhaseOk(u.threads[t].pc, th.phase, s.mem))
  }

  lemma TopStartShape<T>(s: State<T>, t: Tid, c: Choice<T>)
    requires var pc := At(s.threads, t).pc; pc.TopLoad? || pc.TopAcquire? || pc.TopProtect?
    requires PhaseOk(At(s.threads, t).pc, At(s.threads, t).phase, s.mem)
    ensures TopOutcome(s, t, Next(s, t, c))
  {
  }

  lemma TopEndShape<T>(s: State<T>, t: Tid, c: Choice<T>)
    requires At(s.threads, t).pc.TopRead? || At(s.threads, t).pc.TopDrop?
    requires PhaseOk(At(s.threads, t).pc, At(s.threads, t).phase, s.mem)
    ensures TopOutcome(s, t, Next(s, t, c))
  {
  }

  lemma TopStepLogged<T>(s: State<T>, t: Tid, c: Choice<T>)
    requires Sound(s) && Logged(s) && TopStep(At(s.threads, t).pc)
    ensures Logged(Next(s, t, c))
  {
    var u, th := Next(s, t, c), At(s.threads, t);
    PhaseHere(s, t);
    ReadersHere(s);
    if th.pc.TopRead? || th.pc.TopDrop? {
      TopEndShape(s, t, c);
    } else {
      TopStartShape(s, t, c);
    }
    assert DataKept(s.mem, s.mem);
    hide Sound, ReadersIn, Logged, PhaseOk, Next;
    if u == s {
    } else if th.phase.Done? && Returns(s, t, u, th.phase.result) {
      ReturnedLogged(s, t, u, th.phase.result);
    } else {
      MovedLogged(s, t, u, u.threads[t].pc);
    }
  }

  lemma NextLogged<T>(s: State<T>, t: Tid, c: Choice<T>)
    requires Sound(s) && Logged(s)
    ensures Logged(Next(s, t, c))
  {
    hide Sound, Logged;
    match At(s.threads, t).pc {
      case Idle => IdleLogged(s, t, c);
      case PushLoad(a) => PushLoadLogged(s, t, a);
      case PushCas(a, n) => PushCasLogged(s, t, a, n);
      case PushCount => PushCountLogged(s, t);
      case PopLoad => PopLoadLogged(s, t);
      case PopNext(h) => PopNextLogged(s, t, h);
      case PopCas(h, n) => PopCasLogged(s, t, h, n);
      case TopCheck(h, i) => TopCheckLogged(s, t, h, i);
      case TopLoad => TopStepLogged(s, t, c);
      case TopAcquire(_) => TopStepLogged(s, t, c);
      case TopProtect(_, _) => TopStepLogged(s, t, c);
      case TopRead(_, _) => TopStepLogged(s, t, c);
      case TopDrop(_, _) => TopStepLogged(s, t, c);
      case _ => LaterLogged(s, t, c);
    }
  }

  lemma PopLoadLogged<T>(s: State<T>, t: Tid)
    requires Sound(s) && Logged(s) && At(s.threads, t).pc == PopLoad
    ensures Logged(SawHead(s, t))
  {
    PhaseHere(s, t);
    hide Sound, Logged;
    SawHeadLogged(s, t);
  }

  // ---------------------------------------------------------------- counting and safety

  /** The counter moves with the stack and the updates to come. */
  ghost predicate Balanced<T>(s: State<T>, t: Tid, u: State<T>) {
    u.counter - |u.stk| + One(At(u.threads, t).pc.PushCount?) - One(At(u.threads, t).pc.PopCount?)
    == s.counter - |s.stk| + One(At(s.threads, t).pc.PushCount?) - One(At(s.threads, t).pc.PopCount?)
  }

  /** Steps that neither validate a reader nor belong to a scan. */
  predicate Calm<T>(pc: Pc<T>) {
    !pc.TopCheck? && !Scanning(pc)
  }

  ghost predicate Facts<T>(s: State<T>, t: Tid, u: State<T>) {
    || (u.threads == s.threads && u.counter == s.counter && u.stk == s.stk && u.status == s.status)
    || (OneMoved(s, t, u) && Balanced(s, t, u)
        && (Calm(At(s.threads, t).pc) ==> Harmless(u.threads[t].pc) && NothingFreed(s.status, u.status)))
  }

  lemma PushFacts<T>(s: State<T>, t: Tid, c: Choice<T>)
    requires var pc := At(s.threads, t).pc; pc.Idle? || pc.PushLoad? || pc.PushCas? || pc.PushCount?
    ensures Facts(s, t, Next(s, t, c))
  {
  }

  lemma PopFacts<T>(s: State<T>, t: Tid, c: Choice<T>)
    requires var pc := At(s.threads, t).pc; pc.PopLoad? || pc.PopNext? || pc.PopCas? || pc.PopCount?
    ensures Facts(s, t, Next(s, t, c))
  {
  }

  lemma RetireFacts<T>(s: State<T>, t: Tid, c: Choice<T>)
    requires var pc := At(s.threads, t).pc; Later(pc) && !pc.PopCount? && !Scanning(pc)
    ensures Facts(s, t, Next(s, t, c))
  {
  }

  lemma DrainFacts<T>(s: State<T>, t: Tid, c: Choice<T>)
    requires At(s.threads, t).pc.Drain? || At(s.threads, t).pc.Free?
    ensures Facts(s, t, Next(s, t, c))
  {
  }

  lemma VisitFacts<T>(s: State<T>, t: Tid, c: Choice<T>)
    requires At(s.threads, t).pc.VisitTag? || At(s.threads, t).pc.VisitData?
    ensures Facts(s, t, Next(s, t, c))
  {
  }

  lemma TopStartFacts<T>(s: State<T>, t: Tid, c: Choice<T>)
    requires var pc := At(s.threads, t).pc; pc.TopLoad? || pc.TopAcquire? || pc.TopProtect?
    ensures Facts(s, t, Next(s, t, c))
  {
  }

  lemma TopEndFacts<T>(s: State<T>, t: Tid, c: Choice<T>)
    requires var pc := At(s.threads, t).pc; pc.TopCheck? || pc.TopRead? || pc.TopDrop?
    ensures Facts(s, t, Next(s, t, c))
  {
  }

  lemma NextFacts<T>(s: State<T>, t: Tid, c: Choice<T>)
    ensures Facts(s, t, Next(s, t, c))
  {
    hide Facts, Next;
    var pc := At(s.threads, t).pc;
    if pc.Idle? || pc.PushLoad? || pc.PushCas? || pc.PushCount? {
      PushFacts(s, t, c);
    } else if pc.PopLoad? || pc.PopNext? || pc.PopCas? || pc.PopCount? {
      PopFacts(s, t, c);
    } else if pc.Drain? || pc.Free? {
      DrainFacts(s, t, c);
    } else if pc.VisitTag? || pc.VisitData? {
      VisitFacts(s, t, c);
    } else if Later(pc) {
      RetireFacts(s, t, c);
    } else if pc.TopLoad? || pc.TopAcquire? || pc.TopProtect? {
      TopStartFacts(s, t, c);
    } else {
      TopEndFacts(s, t, c);
    }
  }

  lemma NextCounted<T>(s: State<T>, t: Tid, c: Choice<T>)
    requires Counted(s)
    ensures Counted(Next(s, t, c))
  {
    NextFacts(s, t, c);
    var u := Next(s, t, c);
    hide Next, Incrementing, Decrementing;
    if OneMoved(s, t, u) {
      CountMoved(s, t, u);
    }
  }

  lemma CalmSafe<T>(s: State<T>, t: Tid, c: Choice<T>)
    requires Safe(s) && Calm(At(s.threads, t).pc)
    ensures Safe(Next(s, t, c))
  {
    NextFacts(s, t, c);
    var u := Next(s, t, c);
    hide Next, Balanced, Covered, NoneFreed;
    if u.threads != s.threads {
      HarmlessSafe(s, t, u);
    } else if !(u.status == s.status) {
      HarmlessSafe(s, t, u);
    }
  }

  lemma NextSafe<T>(s: State<T>, t: Tid, c: Choice<T>)
    requires Sound(s) && Safe(s)
    ensures Safe(Next(s, t, c))
  {
    if Calm(At(s.threads, t).pc) {
      hide Sound, Safe;
      CalmSafe(s, t, c);
    } else {
      hide Sound, Safe;
      match At(s.threads, t).pc {
        case TopCheck(h, i) => CheckSafe(s, t, h, i);
        case Drain(rmap) => DrainSafe(s, t, rmap);
        case VisitTag(rmap, pmap, j, end) => VisitTagSafe(s, t, rmap, pmap, j, end);
        case VisitData(rmap, pmap, j, end) => VisitDataSafe(s, t, rmap, pmap, j, end);
        case Free(rmap, pmap) => FreeSafe(s, t, c, rmap, pmap);
      }
    }
  }

  // ---------------------------------------------------------------- every run

  ghost predicate Inv<T>(s: State<T>) {
    Sound(s) && Safe(s) && Logged(s) && Counted(s)
  }

  lemma InitialInv<T>()
    ensures Inv<T>(Initial())
  {
    assert Replay<T>([]) == Some([]);
  }

  lemma NextInv<T>(s: State<T>, t: Tid, c: Choice<T>)
    requires Inv(s)
    ensures Inv(Next(s, t, c))
  {
    hide Sound, Safe, Logged, Counted, Next;
    NextSound(s, t, c);
    NextSafe(s, t, c);
    NextLogged(s, t, c);
    NextCounted(s, t, c);
  }

  lemma {:induction false} RunInv<T>(states: seq<State<T>>, schedule: seq<(Tid, Choice<T>)>, n: nat)
    requires Run(states, schedule) && n < |states|
    ensures Inv(states[n])
  {
    hide Inv, Next;
    if n == 0 {
      InitialInv<T>();
    } else {
      RunInv(states, schedule, n - 1);
      NextInv(states[n - 1], schedule[n - 1].0, schedule[n - 1].1);
    }
  }

  /** Whatever the schedule, a thread about to read the data of the node it validated finds it
      not deleted; no address is deleted twice, and none while it is on the stack. */
  lemma TopNeverReadsFreed<T>(states: seq<State<T>>, schedule: seq<(Tid, Choice<T>)>, n: nat, t: Tid)
    requires Run(states, schedule) && n < |states|
    ensures At(states[n].threads, t).pc.TopRead? ==> At(states[n].threads, t).pc.head !in states[n].freed
    ensures forall i, j :: 0 <= i < j < |states[n].freed| ==> states[n].freed[i] != states[n].freed[j]
    ensures forall a :: a in states[n].stk ==> a !in states[n].freed
  {
    RunInv(states, schedule, n);
    hide Run, Logged, Counted, RlistOk, SlotsOk, ThreadsOk, ScansOk, CellsOk, Covered;
  }

  /** Whatever the schedule, each thread's events are a call, the effect of that call, and a
      return with its answer; the effects, in their order, are those of a sequential stack, last
      in, first out;
      and what that stack holds in the end is what head leads to. */
  lemma Linearizable<T>(states: seq<State<T>>, schedule: seq<(Tid, Choice<T>)>, n: nat)
    requires Run(states, schedule) && n < |states|
    ensures forall t: Tid :: PhaseAfter(states[n].log, t) != Broken
    ensures Replays(states[n].log, states[n].stk, states[n].mem)
    ensures Lifo(states[n].log, |states[n].log|)
    ensures StackOk(states[n].head, states[n].stk, states[n].mem, states[n].status)
  {
    RunInv(states, schedule, n);
    hide Run, Safe, Counted, PhaseOk, RlistOk, SlotsOk, ThreadsOk, ScansOk, CellsOk, StackOk, FreedOk, Replays;
    var s := states[n];
    ReplaysLifo(s.log, s.stk, s.mem);
    forall t: Tid | true
      ensures PhaseAfter(s.log, t) != Broken
    {
      PhaseHere(s, t);
      assert PhaseAfter(s.log, t) == At(s.threads, t).phase;
      NeverBroken(At(s.threads, t).pc, At(s.threads, t).phase, s.mem);
    }
  }

  lemma ReplaysLifo<T>(log: seq<Event<T>>, stk: seq<Addr>, mem: seq<Cell<T>>)
    requires Replays(log, stk, mem)
    ensures Lifo(log, |log|)
  {
    assert log[..|log|] == log;
    LifoIff(log, |log|);
  }

  lemma NeverBroken<T>(pc: Pc<T>, p: Phase<T>, mem: seq<Cell<T>>)
    requires PhaseOk(pc, p, mem)
    ensures p != Broken
  {
  }

  /** Whatever the schedule, counter_ is the length of the stack up to the updates to come; with
      none to come it is the length. */
  lemma CounterRight<T>(states: seq<State<T>>, schedule: seq<(Tid, Choice<T>)>, n: nat)
    requires Run(states, schedule) && n < |states|
    ensures states[n].counter
         == |states[n].stk| - |Incrementing(states[n].threads)| + |Decrementing(states[n].threads)|
    ensures (forall t :: t in states[n].threads ==> states[n].threads[t].pc == Idle) ==>
              states[n].counter == |states[n].stk|
  {
    RunInv(states, schedule, n);
    hide Run, Sound, Safe, Logged;
    var s := states[n];
    if forall t :: t in s.threads ==> s.threads[t].pc == Idle {
      assert Incrementing(s.threads) == {} && Decrementing(s.threads) == {};
    }
  }

  /** So each return in the log is preceded by the call and the effect it belongs to, with no
      other event of the thread in between: operations that do not overlap take effect in
      their order. */
  lemma EffectWithinCall<T>(states: seq<State<T>>, schedule: seq<(Tid, Choice<T>)>, n: nat, k: nat)
    returns (i: nat, j: nat)
    requires Run(states, schedule) && n < |states|
    requires k < |states[n].log| && states[n].log[k].Ret?
    ensures OneOperation(states[n].log, i, j, k)
  {
    hide Run, StackOk, Replays;
    Linearizable(states, schedule, n);
    i, j := ReturnMeans(states[n].log, states[n].log[k].tid, k);
  }
}
