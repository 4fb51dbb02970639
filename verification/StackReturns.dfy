/** No thread is ever stuck: from any reachable state on, wherever it is in its operation and
    whatever the others have done, a thread that runs alone returns. */
module StackReturns {
  import opened Common
  import HazardState
  import opened StackState
  import opened StackInvariant
  import opened StackSteps
  import opened StackRuns
  import opened StackAlone

  /** The most steps a thread at pc takes to return if it runs alone. */
  function Left<T>(s: State<T>, pc: Pc<T>): nat {
    var m := 2 * |s.rlist| + 2 * |s.slots|;
    match pc
    case Idle => 0
    case PushLoad(_) => 3
    case PushCas(_, n) => if s.head == n then 2 else 4
    case PushCount => 1
    case PopLoad => m + 17
    case PopNext(h) => if s.head == h then m + 16 else m + 18
    case PopCas(h, _) => if s.head == h then m + 15 else m + 17
    case PopCount(_) => m + 14
    case PopAcquire(_) => m + 13
    case PopProtect(_, _) => m + 10
    case PopTag(_, _) => m + 9
    case PopRecord(_) => m + 8
    case PopLimit => m + 5
    case PopBusy => m + 4
    case Drain(rmap) => m + |rmap| + 3
    case VisitTag(rmap, _, j, end) => (if j <= end then 2 * (end - j) else 0) + |rmap| + 2
    case VisitData(rmap, _, j, end) => (if j < end then 2 * (end - j) else 1) + |rmap| + 1
    case Free(rmap, _) => |rmap| + 1
    case TopLoad => 6
    case TopAcquire(h) => if s.head == h then 5 else 7
    case TopProtect(h, _) => if s.head == h then 4 else 6
    case TopCheck(h, _) => if s.head == h then 3 else 5
    case TopRead(_, _) => 2
    case TopDrop(_, _) => 1
  }

  /** A choice that applies: a slot that is free, and an address that is left to deal with. */
  ghost predicate Apt<T>(s: State<T>, pc: Pc<T>, c: Choice<T>) {
    match pc
    case PopAcquire(_) => Takes(c, s.slots)
    case TopAcquire(_) => Takes(c, s.slots)
    case Free(rmap, _) => rmap != map[] ==> c.Pick? && c.addr in rmap
    case _ => true
  }

  /** What a step at pc needs. */
  ghost predicate Able<T>(s: State<T>, pc: Pc<T>) {
    && |s.role| == |s.slots|
    && match pc
       case PushLoad(a) => a < |s.mem|
       case PushCas(a, _) => a < |s.mem| && a < |s.status| && s.mem[a].data.Some?
       case PopCas(h, _) => s.head == h ==> h < |s.mem| && h < |s.status| && s.mem[h].data.Some? && s.stk != []
       case PopProtect(_, i) => i < |s.slots|
       case PopTag(a, i) => i < |s.slots| && a < |s.status|
       case PopRecord(i) => i < |s.slots|
       case Drain(rmap) => s.rlist != [] ==> s.rlist[0] < |s.slots|
       case VisitData(_, _, j, end) => j < |s.slots| && j < end
       case Free(rmap, _) => forall d: Addr :: d in rmap ==> d < |s.status| && rmap[d] < |s.slots|
       case TopProtect(_, i) => i < |s.slots|
       case TopDrop(i, _) => i < |s.slots|
       case _ => true
  }

  lemma AbleHere<T>(s: State<T>, t: Tid)
    requires Sound(s)
    ensures Able(s, At(s.threads, t).pc)
  {
    PcHere(s, t);
    SizesOk(s);
    match At(s.threads, t).pc {
      case PushCas(a, n) =>
        PushCasHere(s, t, a, n);
      case PopCas(h, n) =>
        if s.head == h {
          PopCasHere(s, t, h, n);
        }
      case Drain(rmap) =>
        FirstRecord(s);
      case _ =>
        hide Sound;
    }
  }

  lemma FirstRecord<T>(s: State<T>)
    requires Sound(s)
    ensures s.rlist != [] ==> s.rlist[0] < |s.slots|
  {
    hide CellsOk, StackOk, FreedOk, ThreadsOk, ScansOk;
  }

  /** The step returns or comes nearer to it. */
  ghost predicate Nearer<T>(s: State<T>, t: Tid, u: State<T>) {
    Left(u, At(u.threads, t).pc) < Left(s, At(s.threads, t).pc)
  }

  lemma PushNearer<T>(s: State<T>, t: Tid, c: Choice<T>)
    requires var pc := At(s.threads, t).pc; pc.PushLoad? || pc.PushCas? || pc.PushCount?
    requires Able(s, At(s.threads, t).pc) && Apt(s, At(s.threads, t).pc, c)
    ensures Nearer(s, t, Next(s, t, c))
  {
  }

  lemma PopNearer<T>(s: State<T>, t: Tid, c: Choice<T>)
    requires var pc := At(s.threads, t).pc; pc.PopLoad? || pc.PopNext? || pc.PopCas? || pc.PopCount?
    requires Able(s, At(s.threads, t).pc) && Apt(s, At(s.threads, t).pc, c)
    ensures Nearer(s, t, Next(s, t, c))
  {
  }

  lemma RetireNearer<T>(s: State<T>, t: Tid, c: Choice<T>)
    requires var pc := At(s.threads, t).pc; pc.PopProtect? || pc.PopTag? || pc.PopRecord? || pc.PopLimit? || pc.PopBusy?
    requires Able(s, At(s.threads, t).pc) && Apt(s, At(s.threads, t).pc, c)
    ensures Nearer(s, t, Next(s, t, c))
  {
  }

  lemma AcquireNearer<T>(s: State<T>, t: Tid, c: Choice<T>)
    requires var pc := At(s.threads, t).pc; pc.PopAcquire? || pc.TopAcquire?
    requires Able(s, At(s.threads, t).pc) && Apt(s, At(s.threads, t).pc, c)
    ensures Nearer(s, t, Next(s, t, c))
  {
  }

  lemma DrainNearer<T>(s: State<T>, t: Tid, c: Choice<T>)
    requires var pc := At(s.threads, t).pc; pc.Drain?
    requires Able(s, At(s.threads, t).pc) && Apt(s, At(s.threads, t).pc, c)
    ensures Nearer(s, t, Next(s, t, c))
  {
  }

  lemma FreeNearer<T>(s: State<T>, t: Tid, c: Choice<T>)
    requires var pc := At(s.threads, t).pc; pc.Free?
    requires Able(s, At(s.threads, t).pc) && Apt(s, At(s.threads, t).pc, c)
    ensures Nearer(s, t, Next(s, t, c))
  {
    var pc := At(s.threads, t).pc;
    if pc.rmap != map[] {
      assert pc.rmap == (pc.rmap - {c.addr})[c.addr := pc.rmap[c.addr]];
    }
  }

  lemma VisitTagNearer<T>(s: State<T>, t: Tid, c: Choice<T>)
    requires At(s.threads, t).pc.VisitTag? && Able(s, At(s.threads, t).pc)
    ensures Nearer(s, t, Next(s, t, c))
  {
  }

  lemma VisitDataNearer<T>(s: State<T>, t: Tid, c: Choice<T>)
    requires At(s.threads, t).pc.VisitData? && Able(s, At(s.threads, t).pc)
    ensures Nearer(s, t, Next(s, t, c))
  {
  }

  lemma TopNearer<T>(s: State<T>, t: Tid, c: Choice<T>)
    requires var pc := At(s.threads, t).pc; pc.TopLoad? || pc.TopProtect? || pc.TopCheck? || pc.TopRead? || pc.TopDrop?
    requires Able(s, At(s.threads, t).pc) && Apt(s, At(s.threads, t).pc, c)
    ensures Nearer(s, t, Next(s, t, c))
  {
  }

  lemma NextNearer<T>(s: State<T>, t: Tid, c: Choice<T>)
    requires Sound(s) && At(s.threads, t).pc != Idle && Apt(s, At(s.threads, t).pc, c)
    ensures Nearer(s, t, Next(s, t, c))
  {
    hide Sound, Nearer, Next, Able, Apt;
    var pc := At(s.threads, t).pc;
    AbleHere(s, t);
    if pc.PushLoad? || pc.PushCas? || pc.PushCount? {
      PushNearer(s, t, c);
    } else if pc.PopLoad? || pc.PopNext? || pc.PopCas? || pc.PopCount? {
      PopNearer(s, t, c);
    } else if pc.PopProtect? || pc.PopTag? || pc.PopRecord? || pc.PopLimit? || pc.PopBusy? {
      RetireNearer(s, t, c);
    } else if pc.PopAcquire? || pc.TopAcquire? {
      AcquireNearer(s, t, c);
    } else if pc.Drain? {
      DrainNearer(s, t, c);
    } else if pc.Free? {
      FreeNearer(s, t, c);
    } else if pc.VisitTag? {
      VisitTagNearer(s, t, c);
    } else if pc.VisitData? {
      VisitDataNearer(s, t, c);
    } else {
      TopNearer(s, t, c);
    }
  }

  ghost predicate AptChoices<T>(s: State<T>, t: Tid, cs: seq<Choice<T>>) {
    forall n :: 0 <= n < |cs| ==> Apt(Alone(s, t, cs, n), At(Alone(s, t, cs, n).threads, t).pc, cs[n])
  }

  /** From any state that keeps the invariant, so from every reachable one, a thread that runs
      alone with choices that apply returns after at most as many steps as it has left. */
  lemma {:induction false} ReturnsFrom<T>(s: State<T>, t: Tid, cs: seq<Choice<T>>, k: nat) returns (n: nat)
    requires Inv(s) && AptChoices(s, t, cs) && k <= |cs|
    requires k + Left(Alone(s, t, cs, k), At(Alone(s, t, cs, k).threads, t).pc) <= |cs|
    ensures n <= k + Left(Alone(s, t, cs, k), At(Alone(s, t, cs, k).threads, t).pc)
    ensures n <= |cs| && At(Alone(s, t, cs, n).threads, t).pc == Idle
    decreases Left(Alone(s, t, cs, k), At(Alone(s, t, cs, k).threads, t).pc)
  {
    hide Inv, Alone, Next, Apt, Left;
    var x := Alone(s, t, cs, k);
    if At(x.threads, t).pc == Idle {
      n := k;
    } else {
      AloneInv(s, t, cs, k);
      InvHere(x);
      LeftHere(x, At(x.threads, t).pc);
      NextNearer(x, t, cs[k]);
      AloneNext(s, t, cs, k);
      n := ReturnsFrom(s, t, cs, k + 1);
    }
  }

  lemma InvHere<T>(s: State<T>)
    requires Inv(s)
    ensures Sound(s)
  {
  }

  lemma LeftHere<T>(s: State<T>, pc: Pc<T>)
    requires pc != Idle
    ensures Left(s, pc) >= 1
  {
  }

  /** So in every state of every run. */
  lemma ReturnsAlone<T>(states: seq<State<T>>, schedule: seq<(Tid, Choice<T>)>, i: nat, t: Tid, cs: seq<Choice<T>>)
    returns (n: nat)
    requires Run(states, schedule) && i < |states|
    requires AptChoices(states[i], t, cs) && |cs| == Left(states[i], At(states[i].threads, t).pc)
    ensures n <= |cs| && At(Alone(states[i], t, cs, n).threads, t).pc == Idle
  {
    hide Inv, Next, AptChoices, Run, Left;
    RunInv(states, schedule, i);
    n := ReturnsFrom(states[i], t, cs, 0);
  }
}
