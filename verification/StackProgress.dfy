/** Why an operation of the stack ever starts over: another thread's push or pop took effect. */
module StackProgress {
  import opened Common
  import opened StackState
  import opened StackInvariant
  import opened StackLog
  import opened StackHistory
  import opened StackRuns

  /** The head a thread has read and still goes by. */
  function Known<T>(pc: Pc<T>): Option<Addr> {
    match pc
    case PushCas(_, n) => Some(n)
    case PopNext(h) => Some(h)
    case PopCas(h, _) => Some(h)
    case TopAcquire(h) => Some(h)
    case TopProtect(h, _) => Some(h)
    case TopCheck(h, _) => Some(h)
    case _ => None
  }

  /** The step from s to u is that of thread v's push or pop taking effect. */
  ghost predicate TookEffect<T>(s: State<T>, u: State<T>, v: Tid) {
    && |u.log| == |s.log| + 1 && s.log <= u.log
    && u.log[|s.log|].tid == v && (PushAt(u.log[|s.log|]) || TakenAt(u.log[|s.log|]))
  }

  /** The thread starts its push, its pop or its look at the top over. */
  predicate StartsOver<T>(pc: Pc<T>, now: Pc<T>) {
    || (pc.PushCas? && now.PushLoad?) || (pc.PopCas? && now.PopNext?) || (pc.TopCheck? && now.TopProtect?)
  }

  /** What a step of thread t does to head and to what the threads know of it: head changes only
      when a push or a pop takes effect, and a thread that goes by a head has just read it or
      has gone by it before. */
  ghost predicate HeadStep<T>(s: State<T>, t: Tid, u: State<T>) {
    var was, now := Known(At(s.threads, t).pc), Known(At(u.threads, t).pc);
    && (u.head != s.head ==> TookEffect(s, u, t) && now == None)
    && (forall v :: v != t ==> At(u.threads, v) == At(s.threads, v))
    && (now == None || now == Some(u.head) || now == was)
    && (StartsOver(At(s.threads, t).pc, At(u.threads, t).pc) ==> was.Some? && was != Some(s.head))
  }

  lemma PushHead<T>(s: State<T>, t: Tid, c: Choice<T>)
    requires var pc := At(s.threads, t).pc; pc.Idle? || pc.PushLoad? || pc.PushCas? || pc.PushCount?
    ensures HeadStep(s, t, Next(s, t, c))
  {
  }

  lemma PopHead<T>(s: State<T>, t: Tid, c: Choice<T>)
    requires var pc := At(s.threads, t).pc; pc.PopLoad? || pc.PopNext? || pc.PopCas? || pc.PopCount?
    ensures HeadStep(s, t, Next(s, t, c))
  {
  }

  lemma RetireHead<T>(s: State<T>, t: Tid, c: Choice<T>)
    requires var pc := At(s.threads, t).pc; Later(pc) && !pc.PopCount? && !Scanning(pc)
    ensures HeadStep(s, t, Next(s, t, c))
  {
  }

  lemma DrainHead<T>(s: State<T>, t: Tid, c: Choice<T>)
    requires var pc := At(s.threads, t).pc; pc.Drain? || pc.Free?
    ensures HeadStep(s, t, Next(s, t, c))
  {
  }

  lemma VisitHead<T>(s: State<T>, t: Tid, c: Choice<T>)
    requires var pc := At(s.threads, t).pc; pc.VisitTag? || pc.VisitData?
    ensures HeadStep(s, t, Next(s, t, c))
  {
  }

  lemma TopStartHead<T>(s: State<T>, t: Tid, c: Choice<T>)
    requires var pc := At(s.threads, t).pc; pc.TopLoad? || pc.TopAcquire? || pc.TopProtect?
    ensures HeadStep(s, t, Next(s, t, c))
  {
  }

  lemma TopEndHead<T>(s: State<T>, t: Tid, c: Choice<T>)
    requires var pc := At(s.threads, t).pc; pc.TopCheck? || pc.TopRead? || pc.TopDrop?
    ensures HeadStep(s, t, Next(s, t, c))
  {
  }

  lemma NextHead<T>(s: State<T>, t: Tid, c: Choice<T>)
    ensures HeadStep(s, t, Next(s, t, c))
  {
    hide HeadStep, Next;
    var pc := At(s.threads, t).pc;
    if pc.Idle? || pc.PushLoad? || pc.PushCas? || pc.PushCount? {
      PushHead(s, t, c);
    } else if pc.PopLoad? || pc.PopNext? || pc.PopCas? || pc.PopCount? {
      PopHead(s, t, c);
    } else if pc.Drain? || pc.Free? {
      DrainHead(s, t, c);
    } else if pc.VisitTag? || pc.VisitData? {
      VisitHead(s, t, c);
    } else if Later(pc) {
      RetireHead(s, t, c);
    } else if pc.TopLoad? || pc.TopAcquire? || pc.TopProtect? {
      TopStartHead(s, t, c);
    } else {
      TopEndHead(s, t, c);
    }
  }

  /** At step k another thread's push or pop took effect, and from there to n thread t has gone
      by the head h it had read before. */
  ghost predicate Overtaken<T>(states: seq<State<T>>, schedule: seq<(Tid, Choice<T>)>, n: nat, t: Tid, h: Addr, k: nat)
    requires n < |states| == |schedule| + 1
  {
    && k < n && schedule[k].0 != t && TookEffect(states[k], states[k + 1], schedule[k].0)
    && forall m :: k <= m <= n ==> Known(At(states[m].threads, t).pc) == Some(h)
  }

  /** Whatever the schedule, if head is no longer what a thread has read, so that its
      compare-exchange or its check fails, then a push or a pop of another thread has taken
      effect since it read head. */
  lemma {:induction false} RetryMeans<T>(states: seq<State<T>>, schedule: seq<(Tid, Choice<T>)>, n: nat, t: Tid)
    returns (k: nat)
    requires Run(states, schedule) && n < |states|
    requires Known(At(states[n].threads, t).pc).Some? && Known(At(states[n].threads, t).pc) != Some(states[n].head)
    ensures Overtaken(states, schedule, n, t, Known(At(states[n].threads, t).pc).value, k)
  {
    hide Known, TookEffect, Next, StartsOver;
    StartKnows<T>(t);
    var s, v, c := states[n - 1], schedule[n - 1].0, schedule[n - 1].1;
    NextHead(s, v, c);
    var h := Known(At(states[n].threads, t).pc);
    if h != Some(s.head) {
      k := RetryMeans(states, schedule, n - 1, t);
    } else {
      k := n - 1;
    }
  }

  lemma StartKnows<T>(t: Tid)
    ensures Known(At(Initial<T>().threads, t).pc) == None
  {
  }

  /** So a thread that starts over has been overtaken. */
  lemma StartOverMeans<T>(states: seq<State<T>>, schedule: seq<(Tid, Choice<T>)>, n: nat) returns (k: nat)
    requires Run(states, schedule) && n < |schedule|
    requires var t := schedule[n].0; StartsOver(At(states[n].threads, t).pc, At(states[n + 1].threads, t).pc)
    ensures Known(At(states[n].threads, schedule[n].0).pc).Some?
    ensures var t := schedule[n].0; Overtaken(states, schedule, n, t, Known(At(states[n].threads, t).pc).value, k)
  {
    var t := schedule[n].0;
    NextHead(states[n], t, schedule[n].1);
    hide Run, Next;
    k := RetryMeans(states, schedule, n, t);
  }
}
