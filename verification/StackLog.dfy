/** The log of calls, linearization points and returns: each operation takes effect between its
    call and its return, and in the order of effect the answers are those of a sequential
    last-in first-out stack. */
module StackLog {
  import opened Common
  import opened StackState
  import opened StackInvariant

  // ---------------------------------------------------------------- a sequential stack

  /** The stack after an operation with this answer; None if a stack never answers so. */
  ghost function SpecStep<T>(st: seq<T>, op: Op<T>, result: Result<T>): Option<seq<T>> {
    match op
    case Push(v) => if result == Pushed then Some([v] + st) else None
    case Pop =>
      if result == Empty && st == [] then Some(st)
      else if result.Popped? && st != [] && st[0] == result.v then Some(st[1..])
      else None
    case Top =>
      if result == Empty && st == [] then Some(st)
      else if result.Seen? && st != [] && st[0] == result.v then Some(st)
      else None
  }

  /** The stack after the effects in the log, in their order. */
  ghost function Replay<T>(log: seq<Event<T>>): Option<seq<T>> {
    if log == [] then Some([])
    else
      var before, e := Replay(log[..|log| - 1]), log[|log| - 1];
      if before.Some? && e.Lin? then SpecStep(before.value, e.op, e.result) else before
  }

  // ---------------------------------------------------------------- one thread's events

  ghost function Advance<T>(p: Phase<T>, e: Event<T>, t: Tid): Phase<T> {
    if e.tid != t then p
    else
      match e
      case Call(_, op) => if p == Quiet then Called(op) else Broken
      case Lin(_, op, r) => if p == Called(op) then Done(op, r) else Broken
      case Ret(_, r) => if p.Done? && p.result == r then Quiet else Broken
  }

  /** Where thread t is after the log; Broken unless its events are a call, an effect of the
      operation called and a return with the answer of that effect, over and over. */
  ghost function PhaseAfter<T>(log: seq<Event<T>>, t: Tid): Phase<T> {
    if log == [] then Quiet else Advance(PhaseAfter(log[..|log| - 1], t), log[|log| - 1], t)
  }

  lemma PhaseMore<T>(log: seq<Event<T>>, e: Event<T>, t: Tid)
    ensures PhaseAfter(log + [e], t) == Advance(PhaseAfter(log, t), e, t)
  {
    assert (log + [e])[..|log|] == log;
  }

  lemma ReplayMore<T>(log: seq<Event<T>>, e: Event<T>)
    ensures Replay(log + [e])
         == if Replay(log).Some? && e.Lin? then SpecStep(Replay(log).value, e.op, e.result) else Replay(log)
  {
    assert (log + [e])[..|log|] == log;
  }

  // ---------------------------------------------------------------- what unbroken means

  ghost predicate Silent<T>(log: seq<Event<T>>, t: Tid, i: nat, n: nat) {
    forall k :: i < k < n && k < |log| ==> log[k].tid != t
  }

  /** The events at i, j and k are the call, the effect and the return of one operation, and
      the thread has no other event between them. */
  ghost predicate OneOperation<T>(log: seq<Event<T>>, i: nat, j: nat, k: nat) {
    && i < j < k < |log| && log[i].Call? && log[j].Lin? && log[k].Ret?
    && log[i].tid == log[j].tid == log[k].tid && log[i].op == log[j].op && log[j].result == log[k].result
    && Silent(log, log[k].tid, i, j) && Silent(log, log[k].tid, j, k)
  }

  lemma {:induction false} CalledMeans<T>(log: seq<Event<T>>, t: Tid) returns (i: nat)
    requires PhaseAfter(log, t).Called?
    ensures i < |log| && log[i] == Call(t, PhaseAfter(log, t).op) && Silent(log, t, i, |log|)
  {
    var n := |log| - 1;
    if log[n].tid == t {
      i := n;
    } else {
      i := CalledMeans(log[..n], t);
    }
  }

  lemma {:induction false} DoneMeans<T>(log: seq<Event<T>>, t: Tid) returns (i: nat, j: nat)
    requires PhaseAfter(log, t).Done?
    ensures i < j < |log| && log[i] == Call(t, PhaseAfter(log, t).op)
    ensures log[j] == Lin(t, PhaseAfter(log, t).op, PhaseAfter(log, t).result)
    ensures Silent(log, t, i, j) && Silent(log, t, j, |log|)
  {
    var n := |log| - 1;
    if log[n].tid == t {
      i := CalledMeans(log[..n], t);
      j := n;
    } else {
      i, j := DoneMeans(log[..n], t);
    }
  }

  lemma {:induction false} UnbrokenBefore<T>(log: seq<Event<T>>, t: Tid, n: nat)
    requires PhaseAfter(log, t) != Broken && n <= |log|
    ensures PhaseAfter(log[..n], t) != Broken
  {
    if n < |log| {
      UnbrokenBefore(log[..|log| - 1], t, n);
      assert log[..|log| - 1][..n] == log[..n];
    } else {
      assert log[..n] == log;
    }
  }

  /** Each return has its call and its effect before it. */
  lemma ReturnMeans<T>(log: seq<Event<T>>, t: Tid, k: nat) returns (i: nat, j: nat)
    requires PhaseAfter(log, t) != Broken && k < |log| && log[k].Ret? && log[k].tid == t
    ensures OneOperation(log, i, j, k)
  {
    UnbrokenBefore(log, t, k + 1);
    var before := log[..k];
    assert log[..k + 1] == before + [log[k]];
    PhaseMore(before, log[k], t);
    i, j := DoneMeans(before, t);
  }

  // ---------------------------------------------------------------- the invariant

  /** What a thread has done of its operation, by where it stands. */
  ghost predicate PhaseOk<T>(pc: Pc<T>, p: Phase<T>, mem: seq<Cell<T>>) {
    match pc
    case Idle => p == Quiet
    case PushLoad(a) => p.Called? && p.op.Push? && a < |mem| && mem[a].data == Some(p.op.v)
    case PushCas(a, _) => p.Called? && p.op.Push? && a < |mem| && mem[a].data == Some(p.op.v)
    case PushCount => p.Done? && p.op.Push? && p.result == Pushed
    case PopLoad => p == Called(Pop)
    case PopNext(h) => p == if h == SENTINEL then Done(Pop, Empty) else Called(Pop)
    case PopCas(h, _) => p == Called(Pop) && h != SENTINEL
    case TopLoad => p == Called(Top)
    case TopAcquire(_) => p == Called(Top)
    case TopProtect(_, _) => p == Called(Top)
    case TopCheck(_, _) => p == Called(Top)
    case TopRead(h, _) => p == Done(Top, TopResult(mem, h))
    case TopDrop(_, r) => p == Done(Top, r)
    case _ => p.Done? && p.op == Pop && p.result.Popped?
  }

  /** st is what the abstract stack holds. */
  ghost predicate Matches<T>(st: seq<T>, stk: seq<Addr>, mem: seq<Cell<T>>) {
    |st| == |stk| && forall i :: 0 <= i < |stk| ==> stk[i] < |mem| && mem[stk[i]].data == Some(st[i])
  }

  ghost predicate Replays<T>(log: seq<Event<T>>, stk: seq<Addr>, mem: seq<Cell<T>>) {
    Replay(log).Some? && Matches(Replay(log).value, stk, mem)
  }

  ghost predicate Phased<T>(log: seq<Event<T>>, threads: map<Tid, Thread<T>>, mem: seq<Cell<T>>) {
    forall t: Tid ::
      && PhaseAfter(log, t) == At(threads, t).phase
      && PhaseOk(At(threads, t).pc, At(threads, t).phase, mem)
  }

  ghost predicate Logged<T>(s: State<T>) {
    Replays(s.log, s.stk, s.mem) && Phased(s.log, s.threads, s.mem)
  }

  /** Data of nodes never changes. */
  ghost predicate DataKept<T>(was: seq<Cell<T>>, now: seq<Cell<T>>) {
    |was| <= |now| && forall a :: 0 <= a < |was| ==> now[a].data == was[a].data
  }

  lemma PhaseKept<T>(pc: Pc<T>, p: Phase<T>, was: seq<Cell<T>>, now: seq<Cell<T>>)
    requires PhaseOk(pc, p, was) && DataKept(was, now)
    requires pc.TopRead? ==> pc.head < |was|
    ensures PhaseOk(pc, p, now)
  {
  }

  /** The heads readers have validated are nodes. */
  ghost predicate ReadersIn<T>(threads: map<Tid, Thread<T>>, mem: seq<Cell<T>>) {
    forall t :: t in threads && threads[t].pc.TopRead? ==> threads[t].pc.head < |mem|
  }

  lemma ReadersHere<T>(s: State<T>)
    requires Sound(s)
    ensures ReadersIn(s.threads, s.mem)
  {
    forall t | t in s.threads && s.threads[t].pc.TopRead?
      ensures s.threads[t].pc.head < |s.mem|
    {
      assert PcOk(t, s.threads[t].pc, s);
    }
  }

  /** A step in which thread t logs at most one event of its own. */
  lemma LogStep<T>(s: State<T>, t: Tid, u: State<T>)
    requires Phased(s.log, s.threads, s.mem) && ReadersIn(s.threads, s.mem) && DataKept(s.mem, u.mem)
    requires OneMoved(s, t, u)
    requires if u.log == s.log then u.threads[t].phase == At(s.threads, t).phase
             else |u.log| == |s.log| + 1 && s.log < u.log && u.log[|s.log|].tid == t
                  && u.threads[t].phase == Advance(At(s.threads, t).phase, u.log[|s.log|], t)
    requires PhaseOk(u.threads[t].pc, u.threads[t].phase, u.mem)
    ensures Phased(u.log, u.threads, u.mem)
  {
    hide PhaseOk, DataKept;
    forall v: Tid | true
      ensures PhaseAfter(u.log, v) == At(u.threads, v).phase
      ensures PhaseOk(At(u.threads, v).pc, At(u.threads, v).phase, u.mem)
    {
      assert PhaseAfter(s.log, v) == At(s.threads, v).phase;
      if u.log != s.log {
        assert u.log == s.log + [u.log[|s.log|]];
        PhaseMore(s.log, u.log[|s.log|], v);
      }
      if v != t {
        PhaseKept(At(s.threads, v).pc, At(s.threads, v).phase, s.mem, u.mem);
      }
    }
  }

  lemma MatchesKept<T>(st: seq<T>, stk: seq<Addr>, was: seq<Cell<T>>, now: seq<Cell<T>>)
    requires Matches(st, stk, was) && DataKept(was, now)
    ensures Matches(st, stk, now)
  {
  }

  /** A step without a linearization point. */
  lemma ReplayKept<T>(s: State<T>, u: State<T>)
    requires Replays(s.log, s.stk, s.mem) && DataKept(s.mem, u.mem) && u.stk == s.stk
    requires u.log == s.log || exists e :: u.log == s.log + [e] && !e.Lin?
    ensures Replays(u.log, u.stk, u.mem)
  {
    MatchesKept(Replay(s.log).value, s.stk, s.mem, u.mem);
    if u.log != s.log {
      var e :| u.log == s.log + [e] && !e.Lin?;
      ReplayMore(s.log, e);
    }
  }

  // ---------------------------------------------------------------- the four kinds of steps

  lemma MovedLogged<T>(s: State<T>, t: Tid, u: State<T>, pc: Pc<T>)
    requires Logged(s) && ReadersIn(s.threads, s.mem) && DataKept(s.mem, u.mem)
    requires u.stk == s.stk && u.log == s.log && u.threads == s.threads[t := At(s.threads, t).(pc := pc)]
    requires PhaseOk(pc, At(s.threads, t).phase, u.mem)
    ensures Logged(u)
  {
    hide PhaseOk, DataKept, ReadersIn, Replays, Phased;
    LogStep(s, t, u);
    ReplayKept(s, u);
  }

  lemma BeganLogged<T>(s: State<T>, t: Tid, u: State<T>, pc: Pc<T>, op: Op<T>)
    requires Logged(s) && ReadersIn(s.threads, s.mem) && DataKept(s.mem, u.mem)
    requires u.stk == s.stk && u.log == s.log + [Call(t, op)] && u.threads == s.threads[t := Thread(pc, Called(op))]
    requires At(s.threads, t).phase == Quiet && PhaseOk(pc, Called(op), u.mem)
    ensures Logged(u)
  {
    hide PhaseOk, DataKept, ReadersIn, Replays, Phased;
    LogStep(s, t, u);
    assert !Call(t, op).Lin?;
    ReplayKept(s, u);
  }

  lemma ReturnedLogged<T>(s: State<T>, t: Tid, u: State<T>, result: Result<T>)
    requires Logged(s) && ReadersIn(s.threads, s.mem)
    requires u.mem == s.mem && u.stk == s.stk && u.log == s.log + [Ret(t, result)]
    requires u.threads == s.threads[t := Thread(Idle, Quiet)]
    requires At(s.threads, t).phase.Done? && At(s.threads, t).phase.result == result
    ensures Logged(u)
  {
    IdlePhase(u.mem);
    assert DataKept(s.mem, u.mem);
    hide PhaseOk, DataKept, ReadersIn, Replays, Phased;
    LogStep(s, t, u);
    assert !Ret(t, result).Lin?;
    ReplayKept(s, u);
  }

  lemma IdlePhase<T>(mem: seq<Cell<T>>)
    ensures PhaseOk(Idle, Quiet, mem)
  {
  }

  /** The operation takes effect, and the answer is the one of a stack. */
  lemma LinearizedLogged<T>(s: State<T>, t: Tid, u: State<T>, pc: Pc<T>, op: Op<T>, result: Result<T>, st: seq<T>)
    requires Logged(s) && ReadersIn(s.threads, s.mem) && u.mem == s.mem
    requires u.log == s.log + [Lin(t, op, result)] && u.threads == s.threads[t := Thread(pc, Done(op, result))]
    requires At(s.threads, t).phase == Called(op) && PhaseOk(pc, Done(op, result), u.mem)
    requires Replay(s.log).Some? && SpecStep(Replay(s.log).value, op, result) == Some(st)
    requires Matches(st, u.stk, u.mem)
    ensures Logged(u)
  {
    assert DataKept(s.mem, u.mem);
    hide PhaseOk, DataKept, ReadersIn, Phased, Matches, SpecStep;
    LogStep(s, t, u);
    ReplayMore(s.log, Lin(t, op, result));
  }

  // ---------------------------------------------------------------- the steps

  /** Where thread t stands agrees with the log. */
  lemma PhaseHere<T>(s: State<T>, t: Tid)
    requires Logged(s)
    ensures PhaseOk(At(s.threads, t).pc, At(s.threads, t).phase, s.mem)
  {
    hide PhaseOk;
    assert PhaseAfter(s.log, t) == At(s.threads, t).phase;
  }

  lemma StackHere<T>(s: State<T>)
    requires Logged(s)
    ensures Replay(s.log).Some? && Matches(Replay(s.log).value, s.stk, s.mem)
  {
  }

  lemma MatchesPush<T>(st: seq<T>, stk: seq<Addr>, mem: seq<Cell<T>>, a: Addr, v: T)
    requires Matches(st, stk, mem) && a < |mem| && mem[a].data == Some(v)
    ensures Matches([v] + st, [a] + stk, mem)
  {
  }

  lemma MatchesPop<T>(st: seq<T>, stk: seq<Addr>, mem: seq<Cell<T>>)
    requires Matches(st, stk, mem) && stk != []
    ensures st != [] && stk[0] < |mem| && mem[stk[0]].data == Some(st[0]) && Matches(st[1..], stk[1..], mem)
  {
  }

  lemma IdleLogged<T>(s: State<T>, t: Tid, c: Choice<T>)
    requires Sound(s) && Logged(s) && At(s.threads, t).pc == Idle
    ensures Logged(StepIdle(s, t, c))
  {
    var u := StepIdle(s, t, c);
    PhaseHere(s, t);
    ReadersHere(s);
    hide Sound, Logged, ReadersIn;
    match c {
      case DoPush(v) => BeganLogged(s, t, u, PushLoad(|s.mem|), Push(v));
      case DoPop => BeganLogged(s, t, u, PopLoad, Pop);
      case DoTop => BeganLogged(s, t, u, TopLoad, Top);
      case _ =>
    }
  }

  lemma PushCasLogged<T>(s: State<T>, t: Tid, a: Addr, n: Addr)
    requires Sound(s) && Logged(s) && At(s.threads, t).pc == PushCas(a, n)
    ensures Logged(StepPushCas(s, t, a, n))
  {
    var u := StepPushCas(s, t, a, n);
    PhaseHere(s, t);
    StackHere(s);
    ReadersHere(s);
    hide Sound, Logged, ReadersIn, Matches;
    var v := At(s.threads, t).phase.op.v;
    if s.head != n {
      MovedLogged(s, t, u, PushLoad(a));
    } else if u != s {
      MatchesPush(Replay(s.log).value, s.stk, s.mem, a, v);
      LinearizedLogged(s, t, u, PushCount, Push(v), Pushed, [v] + Replay(s.log).value);
    }
  }

  lemma EmptyHere<T>(s: State<T>)
    requires Sound(s) && Logged(s) && s.head == SENTINEL
    ensures Replay(s.log) == Some([]) && s.stk == []
  {
  }

  lemma SawHeadLogged<T>(s: State<T>, t: Tid)
    requires Sound(s) && Logged(s) && At(s.threads, t).phase == Called(Pop)
    ensures Logged(SawHead(s, t))
  {
    var u := SawHead(s, t);
    StackHere(s);
    ReadersHere(s);
    if s.head == SENTINEL {
      EmptyHere(s);
      hide Sound, Logged, ReadersIn;
      LinearizedLogged(s, t, u, PopNext(s.head), Pop, Empty, []);
    } else {
      hide Sound, Logged, ReadersIn;
      MovedLogged(s, t, u, PopNext(s.head));
    }
  }

  lemma TopNode<T>(s: State<T>)
    requires Sound(s) && s.head != SENTINEL
    ensures s.stk != [] && s.stk[0] == s.head && s.head < |s.mem|
  {
  }

  lemma PopCasLogged<T>(s: State<T>, t: Tid, h: Addr, n: Addr)
    requires Sound(s) && Logged(s) && At(s.threads, t).pc == PopCas(h, n)
    ensures Logged(StepPopCas(s, t, h, n))
  {
    var u := StepPopCas(s, t, h, n);
    PhaseHere(s, t);
    if s.head != h {
      SawHeadLogged(s, t);
    } else {
      StackHere(s);
      ReadersHere(s);
      TopNode(s);
      hide Sound, Logged, ReadersIn, Matches;
      var st := Replay(s.log).value;
      MatchesPop(st, s.stk, s.mem);
      if u != s {
        LinearizedLogged(s, t, u, PopCount(h), Pop, Popped(st[0]), st[1..]);
      }
    }
  }

  /** Only the sentinel has no next node. */
  lemma NextHere<T>(s: State<T>, t: Tid, h: Addr)
    requires Sound(s) && At(s.threads, t).pc == PopNext(h)
    ensures h < |s.mem| && (s.mem[h].next.Some? <==> h != SENTINEL)
  {
    assert PcOk(t, At(s.threads, t).pc, s);
  }

  lemma PopNextLogged<T>(s: State<T>, t: Tid, h: Addr)
    requires Sound(s) && Logged(s) && At(s.threads, t).pc == PopNext(h)
    ensures Logged(StepPopNext(s, t, h))
  {
    var u := StepPopNext(s, t, h);
    PhaseHere(s, t);
    NextHere(s, t, h);
    ReadersHere(s);
    hide Sound, Logged, ReadersIn;
    if h == SENTINEL {
      ReturnedLogged(s, t, u, Empty);
    } else {
      MovedLogged(s, t, u, PopCas(h, s.mem[h].next.value));
    }
  }

  /** What top answers is what a stack answers. */
  lemma TopAnswer<T>(s: State<T>)
    requires Sound(s) && Logged(s)
    ensures Replay(s.log).Some? && Matches(Replay(s.log).value, s.stk, s.mem)
    ensures SpecStep(Replay(s.log).value, Top, TopResult(s.mem, s.head)) == Replay(s.log)
  {
    StackHere(s);
    if s.head == SENTINEL {
      EmptyHere(s);
    } else {
      TopNode(s);
      hide Sound, Logged, Matches;
      MatchesPop(Replay(s.log).value, s.stk, s.mem);
    }
  }

  lemma TopPhases<T>(mem: seq<Cell<T>>, h: Addr, g: Addr, i: nat)
    ensures PhaseOk(TopRead(h, i), Done(Top, TopResult(mem, h)), mem)
    ensures PhaseOk(TopProtect(g, i), Called(Top), mem)
  {
  }

  lemma TopCheckLogged<T>(s: State<T>, t: Tid, h: Addr, i: nat)
    requires Sound(s) && Logged(s) && At(s.threads, t).pc == TopCheck(h, i)
    ensures Logged(StepTopCheck(s, t, h, i))
  {
    var u := StepTopCheck(s, t, h, i);
    PhaseHere(s, t);
    ReadersHere(s);
    hide Sound, Logged, ReadersIn, Matches, SpecStep, TopResult;
    assert At(s.threads, t).phase == Called(Top);
    hide PhaseOk;
    TopPhases(s.mem, h, s.head, i);
    if s.head != h {
      assert DataKept(s.mem, s.mem);
      MovedLogged(s, t, u, TopProtect(s.head, i));
    } else {
      TopAnswer(s);
      LinearizedLogged(s, t, u, TopRead(h, i), Top, TopResult(s.mem, h), Replay(s.log).value);
    }
  }
}
