/** What a thread does that runs alone: each operation comes to its end, with the answer and the
    effect a stack has. */
module StackAlone {
  import opened Common
  import HazardState
  import opened StackState
  import opened StackInvariant
  import opened StackSteps
  import opened StackLog
  import opened StackSafety
  import opened StackRuns

  /** Thread t makes the first n of these choices, and no other thread moves. */
  function Alone<T>(s: State<T>, t: Tid, cs: seq<Choice<T>>, n: nat): State<T>
    requires n <= |cs|
  {
    if n == 0 then s else Next(Alone(s, t, cs, n - 1), t, cs[n - 1])
  }

  lemma AloneNext<T>(s: State<T>, t: Tid, cs: seq<Choice<T>>, n: nat)
    requires n < |cs|
    ensures Alone(s, t, cs, n + 1) == Next(Alone(s, t, cs, n), t, cs[n])
    ensures Alone(s, t, cs, 0) == s
  {
    hide Next;
  }

  lemma FourSteps<T>(s: State<T>, t: Tid, cs: seq<Choice<T>>)
    requires |cs| >= 4
    ensures Alone(s, t, cs, 4) == Next(Next(Next(Next(s, t, cs[0]), t, cs[1]), t, cs[2]), t, cs[3])
  {
    hide Next, Alone;
    AloneNext(s, t, cs, 0);
    AloneNext(s, t, cs, 1);
    AloneNext(s, t, cs, 2);
    AloneNext(s, t, cs, 3);
  }

  lemma {:induction false} AloneInv<T>(s: State<T>, t: Tid, cs: seq<Choice<T>>, n: nat)
    requires Inv(s) && n <= |cs|
    ensures Inv(Alone(s, t, cs, n))
  {
    hide Inv, Next;
    if n > 0 {
      AloneInv(s, t, cs, n - 1);
      NextInv(Alone(s, t, cs, n - 1), t, cs[n - 1]);
    }
  }

  /** The nodes that head leads to carry these values. */
  ghost predicate Contains<T>(s: State<T>, st: seq<T>) {
    StackOk(s.head, s.stk, s.mem, s.status) && Matches(st, s.stk, s.mem)
  }

  ghost predicate Resting<T>(s: State<T>, t: Tid) {
    At(s.threads, t) == Thread(Idle, Quiet)
  }

  lemma IdleRests<T>(s: State<T>, t: Tid)
    requires Inv(s) && At(s.threads, t).pc == Idle
    ensures Resting(s, t)
  {
    PhaseHere(s, t);
  }

  ghost predicate OthersRest<T>(s: State<T>, t: Tid, u: State<T>) {
    forall v :: v != t ==> At(u.threads, v) == At(s.threads, v)
  }

  // ---------------------------------------------------------------- push

  lemma PushSteps<T>(s: State<T>, t: Tid, cs: seq<Choice<T>>, v: T)
    requires Sound(s) && Resting(s, t) && |cs| == 4 && cs[0] == DoPush(v)
    ensures var u := Alone(s, t, cs, 4); var a := |s.mem|;
            && Resting(u, t) && OthersRest(s, t, u)
            && u.stk == [a] + s.stk && u.mem == s.mem + [Cell(Some(v), Some(s.head))]
            && u.counter == s.counter + 1
            && u.slots == s.slots && u.rlist == s.rlist && u.busy == s.busy && u.freed == s.freed
            && u.log == s.log + [Call(t, Push(v)), Lin(t, Push(v), Pushed), Ret(t, Pushed)]
  {
    SizesOk(s);
    hide Sound, Next, Alone;
    FourSteps(s, t, cs);
    PushLinks(s, t, cs[0], cs[1], v);
    var x := Next(Next(s, t, cs[0]), t, cs[1]);
    PushPublishes(x, t, |s.mem|, v, cs[2], cs[3]);
  }

  lemma PushLinks<T>(s: State<T>, t: Tid, c: Choice<T>, d: Choice<T>, v: T)
    requires Resting(s, t) && c == DoPush(v) && |s.mem| == |s.status|
    ensures Next(Next(s, t, c), t, d)
         == s.(mem := s.mem + [Cell(Some(v), Some(s.head))], status := s.status + [Private(t)],
               threads := s.threads[t := Thread(PushCas(|s.mem|, s.head), Called(Push(v)))],
               log := s.log + [Call(t, Push(v))])
  {
    assert (s.mem + [Cell(Some(v), None)])[|s.mem| := Cell(Some(v), Some(s.head))]
        == s.mem + [Cell(Some(v), Some(s.head))];
  }

  lemma PushPublishes<T>(x: State<T>, t: Tid, a: Addr, v: T, c: Choice<T>, d: Choice<T>)
    requires At(x.threads, t).pc == PushCas(a, x.head)
    requires a < |x.mem| && a < |x.status| && x.mem[a].data == Some(v)
    ensures Next(Next(x, t, c), t, d)
         == x.(head := a, stk := [a] + x.stk, status := x.status[a := InStack], counter := x.counter + 1,
               threads := x.threads[t := Thread(Idle, Quiet)],
               log := x.log + [Lin(t, Push(v), Pushed)] + [Ret(t, Pushed)])
  {
  }

  /** A push takes four steps, whatever the choices after the first. */
  lemma PushAlone<T>(s: State<T>, t: Tid, cs: seq<Choice<T>>, v: T, st: seq<T>)
    requires Inv(s) && At(s.threads, t).pc == Idle && |cs| == 4 && cs[0] == DoPush(v) && Contains(s, st)
    ensures var u := Alone(s, t, cs, 4);
            && Inv(u) && Resting(u, t) && OthersRest(s, t, u)
            && Contains(u, [v] + st) && u.counter == s.counter + 1
            && u.slots == s.slots && u.rlist == s.rlist && u.busy == s.busy && u.freed == s.freed
            && u.log == s.log + [Call(t, Push(v)), Lin(t, Push(v), Pushed), Ret(t, Pushed)]
  {
    IdleRests(s, t);
    AloneInv(s, t, cs, 4);
    hide Safe, Logged, Counted, Alone;
    PushSteps(s, t, cs, v);
    var u := Alone(s, t, cs, 4);
    hide Sound, StackOk;
    StackIs(u);
    MatchesKept(st, s.stk, s.mem, u.mem);
    hide Matches;
    MatchesPush(st, s.stk, u.mem, |s.mem|, v);
  }

  lemma StackIs<T>(s: State<T>)
    requires Sound(s)
    ensures StackOk(s.head, s.stk, s.mem, s.status)
  {
  }

  // ---------------------------------------------------------------- top

  function Put<X>(q: seq<X>, i: nat, x: X): seq<X>
    requires i <= |q|
  {
    if i < |q| then q[i := x] else q + [x]
  }

  /** A slot that make_hazard may hand out. */
  predicate Takes<T>(c: Choice<T>, slots: seq<Slot>) {
    c.TakeSlot? && c.slot <= |slots| && (c.slot < |slots| ==> slots[c.slot].inactive)
  }

  lemma SevenSteps<T>(s: State<T>, t: Tid, cs: seq<Choice<T>>)
    requires |cs| >= 7
    ensures var x := Next(Next(Next(s, t, cs[0]), t, cs[1]), t, cs[2]);
            Alone(s, t, cs, 7) == Next(Next(Next(Next(x, t, cs[3]), t, cs[4]), t, cs[5]), t, cs[6])
  {
    hide Next, Alone;
    FourSteps(s, t, cs);
    AloneNext(s, t, cs, 4);
    AloneNext(s, t, cs, 5);
    AloneNext(s, t, cs, 6);
  }

  lemma TopTakes<T>(s: State<T>, t: Tid, c0: Choice<T>, c1: Choice<T>, c2: Choice<T>)
    requires |s.slots| == |s.role| && Resting(s, t) && c0 == DoTop && Takes(c2, s.slots)
    ensures var x := Next(Next(Next(s, t, c0), t, c1), t, c2);
            && x == s.(slots := Put(s.slots, c2.slot, HazardState.Clean(None)),
                       role := Put(s.role, c2.slot, Held(t)),
                       threads := s.threads[t := Thread(TopProtect(s.head, c2.slot), Called(Top))],
                       log := s.log + [Call(t, Top)])
  {
  }

  lemma TopValidates<T>(x: State<T>, t: Tid, i: nat, c: Choice<T>, d: Choice<T>)
    requires At(x.threads, t) == Thread(TopProtect(x.head, i), Called(Top))
    requires i < |x.slots| && x.slots[i] == HazardState.Clean(None)
    ensures Next(Next(x, t, c), t, d)
         == x.(slots := x.slots[i := HazardState.Clean(Some(x.head))],
               threads := x.threads[t := Thread(TopRead(x.head, i), Done(Top, TopResult(x.mem, x.head)))],
               log := x.log + [Lin(t, Top, TopResult(x.mem, x.head))])
  {
    hide TopResult;
  }

  lemma TopAnswers<T>(x: State<T>, t: Tid, h: Addr, i: nat, p: Phase<T>, c: Choice<T>, d: Choice<T>)
    requires At(x.threads, t) == Thread(TopRead(h, i), p) && i < |x.slots| == |x.role|
    ensures Next(Next(x, t, c), t, d)
         == x.(slots := x.slots[i := x.slots[i].(inactive := true)], role := x.role[i := Unused],
               threads := x.threads[t := Thread(Idle, Quiet)],
               log := x.log + [Ret(t, TopResult(x.mem, h))])
  {
    hide TopResult;
  }

  /** The state after a top alone. */
  function TopDone<T>(s: State<T>, t: Tid, i: nat): State<T>
    requires i <= |s.slots| == |s.role|
  {
    var r := TopResult(s.mem, s.head);
    s.(slots := Put(s.slots, i, HazardState.Slot(false, true, Some(s.head))), role := Put(s.role, i, Unused),
       threads := s.threads[t := Thread(Idle, Quiet)],
       log := s.log + [Call(t, Top), Lin(t, Top, r), Ret(t, r)])
  }

  lemma TopSteps<T>(s: State<T>, t: Tid, cs: seq<Choice<T>>)
    requires |s.slots| == |s.role| && Resting(s, t)
    requires |cs| == 7 && cs[0] == DoTop && Takes(cs[2], s.slots)
    ensures Alone(s, t, cs, 7) == TopDone(s, t, cs[2].slot)
  {
    hide Next, Alone, TopResult;
    SevenSteps(s, t, cs);
    TopTakes(s, t, cs[0], cs[1], cs[2]);
    var x := Next(Next(Next(s, t, cs[0]), t, cs[1]), t, cs[2]);
    TopValidates(x, t, cs[2].slot, cs[3], cs[4]);
    var y := Next(Next(x, t, cs[3]), t, cs[4]);
    TopAnswers(y, t, x.head, cs[2].slot, y.threads[t].phase, cs[5], cs[6]);
  }

  /** A top that gets a slot takes seven steps and answers the latest value, or Empty; of the
      state only the slot differs, which is inactive again. */
  lemma TopAlone<T>(s: State<T>, t: Tid, cs: seq<Choice<T>>, st: seq<T>)
    requires Inv(s) && At(s.threads, t).pc == Idle && |cs| == 7 && cs[0] == DoTop && Takes(cs[2], s.slots)
    requires Contains(s, st)
    ensures var u := Alone(s, t, cs, 7);
            var r := if st == [] then Empty else Seen(st[0]);
            && Inv(u) && Resting(u, t) && OthersRest(s, t, u)
            && Contains(u, st) && u.counter == s.counter
            && u.slots == Put(s.slots, cs[2].slot, HazardState.Slot(false, true, Some(s.head)))
            && u.rlist == s.rlist && u.busy == s.busy && u.freed == s.freed
            && u.log == s.log + [Call(t, Top), Lin(t, Top, r), Ret(t, r)]
  {
    IdleRests(s, t);
    SizesAre(s);
    TopIs(s, st);
    hide Inv, Next, Alone, StackOk, Matches, TopResult;
    AloneInv(s, t, cs, 7);
    TopSteps(s, t, cs);
  }

  lemma SizesAre<T>(s: State<T>)
    requires Inv(s)
    ensures |s.mem| == |s.status| && |s.slots| == |s.role|
  {
    SizesOk(s);
  }

  lemma TopIs<T>(s: State<T>, st: seq<T>)
    requires Contains(s, st)
    ensures TopResult(s.mem, s.head) == if st == [] then Empty else Seen(st[0])
    ensures st == [] <==> s.stk == []
    ensures s.head == if s.stk == [] then SENTINEL else s.stk[0]
  {
  }

  // ---------------------------------------------------------------- pop

  lemma ThreeSteps<T>(s: State<T>, t: Tid, cs: seq<Choice<T>>)
    requires |cs| >= 3
    ensures Alone(s, t, cs, 3) == Next(Next(Next(s, t, cs[0]), t, cs[1]), t, cs[2])
  {
    hide Next, Alone;
    AloneNext(s, t, cs, 0);
    AloneNext(s, t, cs, 1);
    AloneNext(s, t, cs, 2);
  }

  lemma EmptySteps<T>(s: State<T>, t: Tid, c0: Choice<T>, c1: Choice<T>, c2: Choice<T>)
    requires Resting(s, t) && c0 == DoPop && s.head == SENTINEL && |s.mem| >= 1 && s.mem[SENTINEL].next.None?
    ensures Next(Next(Next(s, t, c0), t, c1), t, c2)
         == s.(threads := s.threads[t := Thread(Idle, Quiet)],
               log := s.log + [Call(t, Pop)] + [Lin(t, Pop, Empty)] + [Ret(t, Empty)])
  {
  }

  lemma SentinelEnds<T>(s: State<T>)
    requires Inv(s)
    ensures |s.mem| >= 1 && s.mem[SENTINEL].next.None?
  {
  }

  /** A pop of the empty stack takes three steps and changes nothing. */
  lemma PopEmptyAlone<T>(s: State<T>, t: Tid, cs: seq<Choice<T>>)
    requires Inv(s) && At(s.threads, t).pc == Idle && |cs| == 3 && cs[0] == DoPop && Contains(s, [])
    ensures Alone(s, t, cs, 3)
         == s.(threads := s.threads[t := Thread(Idle, Quiet)],
               log := s.log + [Call(t, Pop), Lin(t, Pop, Empty), Ret(t, Empty)])
  {
    IdleRests(s, t);
    SentinelEnds(s);
    TopIs(s, []);
    hide Inv, Next, Alone, StackOk, Matches, TopResult;
    ThreeSteps(s, t, cs);
    EmptySteps(s, t, cs[0], cs[1], cs[2]);
  }

  lemma NineSteps<T>(s: State<T>, t: Tid, cs: seq<Choice<T>>)
    requires |cs| >= 9
    ensures var x := Next(Next(Next(Next(Next(s, t, cs[0]), t, cs[1]), t, cs[2]), t, cs[3]), t, cs[4]);
            Alone(s, t, cs, 9) == Next(Next(Next(Next(x, t, cs[5]), t, cs[6]), t, cs[7]), t, cs[8])
  {
    hide Next, Alone;
    FourSteps(s, t, cs);
    AloneNext(s, t, cs, 4);
    AloneNext(s, t, cs, 5);
    AloneNext(s, t, cs, 6);
    AloneNext(s, t, cs, 7);
    AloneNext(s, t, cs, 8);
  }

  /** The top node, as the invariant describes it. */
  ghost predicate TopCell<T>(s: State<T>, a: Addr, n: Addr, v: T) {
    && a != SENTINEL && s.head == a && a < |s.mem| == |s.status| && s.mem[a] == Cell(Some(v), Some(n))
    && s.stk != [] && |s.slots| == |s.role|
  }

  lemma PopReads<T>(s: State<T>, t: Tid, a: Addr, n: Addr, v: T, c0: Choice<T>, c1: Choice<T>, c2: Choice<T>)
    requires Resting(s, t) && c0 == DoPop && TopCell(s, a, n, v)
    ensures Next(Next(Next(s, t, c0), t, c1), t, c2)
         == s.(threads := s.threads[t := Thread(PopCas(a, n), Called(Pop))], log := s.log + [Call(t, Pop)])
  {
  }

  lemma PopTakes<T>(x: State<T>, t: Tid, a: Addr, n: Addr, v: T, c3: Choice<T>, c4: Choice<T>)
    requires At(x.threads, t) == Thread(PopCas(a, n), Called(Pop)) && TopCell(x, a, n, v)
    ensures Next(Next(x, t, c3), t, c4)
         == x.(head := n, stk := x.stk[1..], status := x.status[a := Removed(t)], counter := x.counter - 1,
               threads := x.threads[t := Thread(PopAcquire(a), Done(Pop, Popped(v)))],
               log := x.log + [Lin(t, Pop, Popped(v))])
  {
  }

  lemma PopGuards<T>(y: State<T>, t: Tid, a: Addr, p: Phase<T>, c5: Choice<T>, c6: Choice<T>)
    requires At(y.threads, t) == Thread(PopAcquire(a), p) && Takes(c5, y.slots) && |y.slots| == |y.role|
    ensures Next(Next(y, t, c5), t, c6)
         == y.(slots := Put(y.slots, c5.slot, HazardState.Clean(Some(a))), role := Put(y.role, c5.slot, Held(t)),
               threads := y.threads[t := Thread(PopTag(a, c5.slot), p)])
  {
  }

  lemma PopRetires<T>(z: State<T>, t: Tid, a: Addr, i: nat, p: Phase<T>, c7: Choice<T>, c8: Choice<T>)
    requires At(z.threads, t) == Thread(PopTag(a, i), p)
    requires i < |z.slots| == |z.role| && a < |z.status| && z.slots[i] == HazardState.Clean(Some(a))
    ensures Next(Next(z, t, c7), t, c8)
         == z.(slots := z.slots[i := HazardState.Slot(true, false, Some(a))], role := z.role[i := Listed],
               status := z.status[a := Retired(i)], rlist := [i] + z.rlist,
               threads := z.threads[t := Thread(PopLimit, p)])
  {
  }

  /** The state in which the node is off the stack and on the list of retired ones. */
  function PopDone<T>(s: State<T>, t: Tid, a: Addr, n: Addr, v: T, i: nat, pc: Pc<T>): State<T>
    requires i <= |s.slots| == |s.role| && a < |s.status| && s.stk != []
  {
    s.(head := n, stk := s.stk[1..], status := s.status[a := Retired(i)], counter := s.counter - 1,
       slots := Put(s.slots, i, HazardState.Slot(true, false, Some(a))), role := Put(s.role, i, Listed),
       rlist := [i] + s.rlist,
       threads := s.threads[t := Thread(pc, Done(Pop, Popped(v)))],
       log := s.log + [Call(t, Pop), Lin(t, Pop, Popped(v))])
  }

  lemma PopSteps<T>(s: State<T>, t: Tid, a: Addr, n: Addr, v: T, cs: seq<Choice<T>>)
    requires Resting(s, t) && TopCell(s, a, n, v)
    requires |cs| >= 9 && cs[0] == DoPop && Takes(cs[5], s.slots)
    ensures Alone(s, t, cs, 9) == PopDone(s, t, a, n, v, cs[5].slot, PopLimit)
  {
    hide Next, Alone;
    NineSteps(s, t, cs);
    PopReads(s, t, a, n, v, cs[0], cs[1], cs[2]);
    var x := Next(Next(Next(s, t, cs[0]), t, cs[1]), t, cs[2]);
    PopTakes(x, t, a, n, v, cs[3], cs[4]);
    var y := Next(Next(x, t, cs[3]), t, cs[4]);
    PopGuards(y, t, a, Done(Pop, Popped(v)), cs[5], cs[6]);
    var z := Next(Next(y, t, cs[5]), t, cs[6]);
    PopRetires(z, t, a, cs[5].slot, Done(Pop, Popped(v)), cs[7], cs[8]);
  }
}
