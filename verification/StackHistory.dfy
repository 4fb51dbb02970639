/** What a sequential stack is, told on the log alone: last in, first out. */
module StackHistory {
  import opened Common
  import opened StackState
  import opened StackLog

  predicate PushAt<T>(e: Event<T>) {
    e.Lin? && e.op.Push?
  }

  predicate TakenAt<T>(e: Event<T>) {
    e.Lin? && e.op.Pop? && e.result.Popped?
  }

  /** The pushes from i on and before k, less the elements popped there. */
  function Depth<T>(log: seq<Event<T>>, i: nat, k: nat): int
    requires i <= k <= |log|
    decreases k
  {
    if i == k then 0
    else Depth(log, i, k - 1) + if PushAt(log[k - 1]) then 1 else if TakenAt(log[k - 1]) then -1 else 0
  }

  /** From i to k no more is popped than pushed. */
  ghost predicate Above<T>(log: seq<Event<T>>, i: nat, k: nat)
    requires i <= k <= |log|
  {
    forall m :: i <= m <= k ==> Depth(log, i, m) >= 0
  }

  /** Before k, event i is the latest push whose element has not been popped: what was pushed
      after it has been popped again, and nothing more. */
  ghost predicate LatestPush<T>(log: seq<Event<T>>, i: nat, k: nat, v: T) {
    && i < k <= |log| && log[i].Lin? && log[i].op == Push(v)
    && Depth(log, i + 1, k) == 0 && Above(log, i + 1, k)
  }

  /** Each element answered is the latest not yet popped, and Empty is answered when every
      element has been popped. */
  ghost predicate Lawful<T>(log: seq<Event<T>>, k: nat)
    requires k < |log| && log[k].Lin?
  {
    match log[k].result
    case Pushed => log[k].op.Push?
    case Popped(v) => log[k].op.Pop? && exists i :: LatestPush(log, i, k, v)
    case Seen(v) => log[k].op.Top? && exists i :: LatestPush(log, i, k, v)
    case Empty => !log[k].op.Push? && Depth(log, 0, k) == 0
  }

  ghost predicate Lifo<T>(log: seq<Event<T>>, n: nat)
    requires n <= |log|
  {
    forall k :: 0 <= k < n && log[k].Lin? ==> Lawful(log, k)
  }

  lemma ReplayNext<T>(log: seq<Event<T>>, n: nat)
    requires n < |log|
    ensures Replay(log[..n + 1])
         == if Replay(log[..n]).Some? && log[n].Lin?
            then SpecStep(Replay(log[..n]).value, log[n].op, log[n].result) else Replay(log[..n])
  {
    assert log[..n + 1] == log[..n] + [log[n]];
    ReplayMore(log[..n], log[n]);
  }

  /** The top of the stack is the latest push not yet popped. */
  lemma {:induction false} TopIsLatest<T>(log: seq<Event<T>>, n: nat) returns (i: nat)
    requires n <= |log| && Replay(log[..n]).Some? && Replay(log[..n]).value != []
    ensures LatestPush(log, i, n, Replay(log[..n]).value[0])
    ensures Replay(log[..i]) == Some(Replay(log[..n]).value[1..])
    decreases n
  {
    var e := log[n - 1];
    ReplayNext(log, n - 1);
    hide Replay;
    if PushAt(e) {
      i := n - 1;
    } else if TakenAt(e) {
      var j := TopIsLatest(log, n - 1);
      i := TopIsLatest(log, j);
      DepthJoin(log, i + 1, j, n);
    } else {
      i := TopIsLatest(log, n - 1);
    }
  }

  /** Around a push that is popped at the end, the depth is as it was before. */
  lemma DepthJoin<T>(log: seq<Event<T>>, i: nat, j: nat, n: nat)
    requires i <= j && j + 1 < n <= |log| && PushAt(log[j]) && TakenAt(log[n - 1])
    requires Depth(log, i, j) == 0 && Above(log, i, j)
    requires Depth(log, j + 1, n - 1) == 0 && Above(log, j + 1, n - 1)
    ensures Depth(log, i, n) == 0 && Above(log, i, n)
  {
    forall m | j < m < n
      ensures Depth(log, i, m) == 1 + Depth(log, j + 1, m)
    {
      DepthSum(log, i, j + 1, m);
    }
  }

  lemma {:induction false} DepthSum<T>(log: seq<Event<T>>, i: nat, j: nat, n: nat)
    requires i <= j <= n <= |log|
    ensures Depth(log, i, n) == Depth(log, i, j) + Depth(log, j, n)
    decreases n
  {
    if j < n {
      DepthSum(log, i, j, n - 1);
    }
  }

  /** An element stays where it is while no more is popped than was pushed after it. */
  lemma {:induction false} StaysBelow<T>(log: seq<Event<T>>, i: nat, n: nat)
    requires i < n <= |log| && PushAt(log[i]) && Replay(log[..n]).Some?
    requires Above(log, i + 1, n)
    ensures var d := Depth(log, i + 1, n);
            d < |Replay(log[..n]).value| && Replay(log[..n]).value[d] == log[i].op.v
    decreases n
  {
    ReplayNext(log, n - 1);
    hide Replay;
    if i < n - 1 {
      StaysBelow(log, i, n - 1);
    }
  }

  lemma {:induction false} DepthIsSize<T>(log: seq<Event<T>>, n: nat)
    requires n <= |log| && Replay(log[..n]).Some?
    ensures |Replay(log[..n]).value| == Depth(log, 0, n)
    decreases n
  {
    if n > 0 {
      ReplayNext(log, n - 1);
      hide Replay;
      DepthIsSize(log, n - 1);
    }
  }

  /** One more effect follows the law exactly when a stack can answer so. */
  lemma LawfulIs<T>(log: seq<Event<T>>, k: nat)
    requires k < |log| && log[k].Lin? && Replay(log[..k]).Some?
    ensures Lawful(log, k) <==> SpecStep(Replay(log[..k]).value, log[k].op, log[k].result).Some?
  {
    var st := Replay(log[..k]).value;
    DepthIsSize(log, k);
    hide Replay, Depth;
    if st != [] {
      var i := TopIsLatest(log, k);
      assert LatestPush(log, i, k, st[0]);
    }
    forall i: nat, v | LatestPush(log, i, k, v)
      ensures st != [] && st[0] == v
    {
      StaysBelow(log, i, k);
    }
  }

  /** The effects are those of a sequential stack if and only if they are last in, first out. */
  lemma {:induction false} LifoIff<T>(log: seq<Event<T>>, n: nat)
    requires n <= |log|
    ensures Lifo(log, n) <==> Replay(log[..n]).Some?
    decreases n
  {
    if n > 0 {
      LifoIff(log, n - 1);
      ReplayNext(log, n - 1);
      hide Replay, SpecStep, Lawful;
      if Replay(log[..n - 1]).Some? && log[n - 1].Lin? {
        LawfulIs(log, n - 1);
      }
    }
  }
}
