/** What a scan under any schedule does delete: every address it drained, unless an active slot
    held it meanwhile. */
module StackReclaim {
  import opened Common
  import opened StackState
  import opened StackInvariant
  import opened StackSteps
  import opened StackRuns
  import opened StackSafety
  import opened StackLog

  /** In some state from b to n an active slot held d. */
  ghost predicate HeldSince<T>(states: seq<State<T>>, b: nat, n: nat, d: Addr) {
    exists m, i :: b <= m <= n && m < |states| && 0 <= i < |states[m].slots|
                   && states[m].slots[i].Active() && states[m].slots[i].data == Some(d)
  }

  ghost predicate AllHeld<T>(states: seq<State<T>>, b: nat, n: nat, pmap: set<Addr>) {
    forall d: Addr :: d in pmap ==> HeldSince(states, b, n, d)
  }

  /** What slot j carries, an active slot has held. */
  ghost predicate SlotHeld<T>(states: seq<State<T>>, b: nat, n: nat, j: nat)
    requires n < |states|
  {
    var s := states[n];
    j < |s.slots| && s.slots[j].data.Some? ==> HeldSince(states, b, n, s.slots[j].data.value)
  }

  ghost predicate Settled<T>(states: seq<State<T>>, b: nat, n: nat, d: Addr)
    requires n < |states|
  {
    d in states[n].freed || HeldSince(states, b, n, d)
  }

  predicate Visiting<T>(pc: Pc<T>) {
    pc.VisitTag? || pc.VisitData? || pc.Free?
  }

  /** What is known in state n of an address d that the scan of thread t drained before b. */
  ghost predicate Watched<T>(states: seq<State<T>>, b: nat, n: nat, t: Tid, d: Addr)
    requires n < |states|
  {
    match At(states[n].threads, t).pc
    case VisitTag(rmap, pmap, _, _) => d in rmap && AllHeld(states, b, n, pmap)
    case VisitData(rmap, pmap, j, _) => d in rmap && AllHeld(states, b, n, pmap) && SlotHeld(states, b, n, j)
    case Free(rmap, pmap) => AllHeld(states, b, n, pmap) && (d in rmap || Settled(states, b, n, d))
    case _ => Settled(states, b, n, d)
  }

  // ---------------------------------------------------------------- steps

  /** Deletions stay, and a slot gets an address only while it is active. */
  ghost predicate DataStep<T>(s: State<T>, u: State<T>) {
    && s.freed <= u.freed && |s.slots| <= |u.slots|
    && forall j :: 0 <= j < |s.slots| ==>
         u.slots[j].data == s.slots[j].data || u.slots[j].data == None || u.slots[j].Active()
  }

  lemma PlainData<T>(s: State<T>, t: Tid, c: Choice<T>)
    requires var pc := At(s.threads, t).pc;
             pc.Idle? || pc.PushLoad? || pc.PushCas? || pc.PushCount? || pc.PopLoad? || pc.PopNext? || pc.PopCas?
             || pc.PopCount? || pc.PopLimit? || pc.PopBusy? || pc.TopLoad? || pc.TopCheck? || pc.TopRead?
    ensures Next(s, t, c).freed == s.freed && Next(s, t, c).slots == s.slots
  {
  }

  lemma VisitsData<T>(s: State<T>, t: Tid, c: Choice<T>)
    requires At(s.threads, t).pc.VisitTag? || At(s.threads, t).pc.VisitData?
    ensures Next(s, t, c).freed == s.freed && Next(s, t, c).slots == s.slots
  {
  }

  lemma ScansData<T>(s: State<T>, t: Tid, c: Choice<T>)
    requires At(s.threads, t).pc.Drain? || At(s.threads, t).pc.Free?
    ensures DataStep(s, Next(s, t, c))
  {
  }

  lemma SlotsData<T>(s: State<T>, t: Tid, c: Choice<T>)
    requires var pc := At(s.threads, t).pc;
             pc.PopAcquire? || pc.TopAcquire? || pc.PopTag? || pc.PopRecord? || pc.TopDrop?
    ensures DataStep(s, Next(s, t, c))
  {
  }

  lemma ProtectData<T>(s: State<T>, t: Tid, c: Choice<T>)
    requires Sound(s) && (At(s.threads, t).pc.PopProtect? || At(s.threads, t).pc.TopProtect?)
    ensures DataStep(s, Next(s, t, c))
  {
    hide Sound, PcOk;
    PcHere(s, t);
    HeldHere(s, t, At(s.threads, t).pc);
  }

  lemma HeldHere<T>(s: State<T>, t: Tid, pc: Pc<T>)
    requires Sound(s) && PcOk(t, pc, s) && (pc.PopProtect? || pc.TopProtect?)
    ensures pc.slot < |s.slots| && s.slots[pc.slot].Active()
  {
    hide CellsOk, StackOk, RlistOk, FreedOk, ThreadsOk, ScansOk;
  }

  lemma NextData<T>(s: State<T>, t: Tid, c: Choice<T>)
    requires Sound(s)
    ensures DataStep(s, Next(s, t, c))
  {
    hide Sound, Next;
    var pc := At(s.threads, t).pc;
    if pc.PopProtect? || pc.TopProtect? {
      ProtectData(s, t, c);
    } else if pc.Drain? || pc.Free? {
      ScansData(s, t, c);
    } else if pc.VisitTag? || pc.VisitData? {
      VisitsData(s, t, c);
    } else if pc.PopAcquire? || pc.TopAcquire? || pc.PopTag? || pc.PopRecord? || pc.TopDrop? {
      SlotsData(s, t, c);
    } else {
      PlainData(s, t, c);
    }
  }

  // ---------------------------------------------------------------- the scan

  lemma HeldMore<T>(states: seq<State<T>>, b: nat, n: nat, d: Addr)
    requires HeldSince(states, b, n, d)
    ensures HeldSince(states, b, n + 1, d)
  {
    var m, i :| b <= m <= n && m < |states| && 0 <= i < |states[m].slots|
                && states[m].slots[i].Active() && states[m].slots[i].data == Some(d);
    assert states[m].slots[i].Active();
  }

  lemma HeldNow<T>(states: seq<State<T>>, b: nat, n: nat, j: nat)
    requires b <= n < |states| && j < |states[n].slots| && states[n].slots[j].Active()
    ensures SlotHeld(states, b, n, j)
  {
  }

  lemma AllHeldMore<T>(states: seq<State<T>>, b: nat, n: nat, pmap: set<Addr>)
    requires AllHeld(states, b, n, pmap)
    ensures AllHeld(states, b, n + 1, pmap)
  {
    hide HeldSince;
    forall d: Addr | d in pmap
      ensures HeldSince(states, b, n + 1, d)
    {
      HeldMore(states, b, n, d);
    }
  }

  lemma SettledMore<T>(states: seq<State<T>>, b: nat, n: nat, d: Addr)
    requires n + 1 < |states| && Settled(states, b, n, d) && states[n].freed <= states[n + 1].freed
    ensures Settled(states, b, n + 1, d)
  {
    hide HeldSince;
    if HeldSince(states, b, n, d) {
      HeldMore(states, b, n, d);
    }
  }

  lemma SlotHeldMore<T>(states: seq<State<T>>, b: nat, n: nat, j: nat)
    requires b <= n && n + 1 < |states| && DataStep(states[n], states[n + 1])
    requires j < |states[n].slots| && SlotHeld(states, b, n, j)
    ensures SlotHeld(states, b, n + 1, j)
  {
    var s, u := states[n], states[n + 1];
    if u.slots[j].Active() {
      HeldNow(states, b, n + 1, j);
    } else if u.slots[j].data.Some? {
      hide HeldSince;
      HeldMore(states, b, n, u.slots[j].data.value);
    }
  }

  lemma VisitHere<T>(s: State<T>, t: Tid)
    requires Sound(s) && At(s.threads, t).pc.VisitData?
    ensures At(s.threads, t).pc.j < |s.slots|
  {
    PcHere(s, t);
    hide Sound;
  }

  /** Another thread moves. */
  lemma WatchedByOthers<T>(states: seq<State<T>>, b: nat, n: nat, t: Tid, d: Addr)
    requires b <= n && n + 1 < |states| && Sound(states[n]) && DataStep(states[n], states[n + 1])
    requires At(states[n + 1].threads, t) == At(states[n].threads, t) && Visiting(At(states[n].threads, t).pc)
    requires Watched(states, b, n, t, d)
    ensures Watched(states, b, n + 1, t, d)
  {
    var pc := At(states[n].threads, t).pc;
    hide Sound, AllHeld, SlotHeld, Settled;
    AllHeldMore(states, b, n, pc.pmap);
    if pc.VisitData? {
      VisitHere(states[n], t);
      SlotHeldMore(states, b, n, pc.j);
    } else if pc.Free? && d !in pc.rmap {
      SettledMore(states, b, n, d);
    }
  }

  /** The scanning thread reads a slot's tags. */
  lemma WatchedTag<T>(states: seq<State<T>>, b: nat, n: nat, t: Tid, d: Addr, c: Choice<T>)
    requires b <= n && n + 1 < |states| && states[n + 1] == Next(states[n], t, c)
    requires At(states[n].threads, t).pc.VisitTag? && Watched(states, b, n, t, d)
    ensures Watched(states, b, n + 1, t, d)
  {
    var s, pc := states[n], At(states[n].threads, t).pc;
    TagShape(s, t, c);
    hide Next, AllHeld, SlotHeld, Settled;
    AllHeldMore(states, b, n, pc.pmap);
    if pc.j < |s.slots| && s.slots[pc.j].Active() {
      HeldNow(states, b, n + 1, pc.j);
    }
  }

  lemma TagShape<T>(s: State<T>, t: Tid, c: Choice<T>)
    requires At(s.threads, t).pc.VisitTag?
    ensures var pc, u := At(s.threads, t).pc, Next(s, t, c);
            u == Moved(s, t, if pc.j < pc.end && pc.j < |s.slots|
                             then if s.slots[pc.j].Active() then VisitData(pc.rmap, pc.pmap, pc.j, pc.end)
                                  else VisitTag(pc.rmap, pc.pmap, pc.j + 1, pc.end)
                             else Free(pc.rmap, pc.pmap))
  {
  }

  /** It reads a slot's data. */
  lemma WatchedData<T>(states: seq<State<T>>, b: nat, n: nat, t: Tid, d: Addr, c: Choice<T>)
    requires b <= n && n + 1 < |states| && states[n + 1] == Next(states[n], t, c)
    requires At(states[n].threads, t).pc.VisitData? && Watched(states, b, n, t, d)
    requires At(states[n].threads, t).pc.j < |states[n].slots|
    ensures Watched(states, b, n + 1, t, d)
  {
    var s, pc := states[n], At(states[n].threads, t).pc;
    DataShape(s, t, c);
    hide Next, HeldSince;
    AllHeldMore(states, b, n, pc.pmap);
    if s.slots[pc.j].data.Some? {
      HeldMore(states, b, n, s.slots[pc.j].data.value);
    }
  }

  lemma DataShape<T>(s: State<T>, t: Tid, c: Choice<T>)
    requires At(s.threads, t).pc.VisitData? && At(s.threads, t).pc.j < |s.slots|
    ensures var pc, u := At(s.threads, t).pc, Next(s, t, c);
            var data := s.slots[pc.j].data;
            u == Moved(s, t, VisitTag(pc.rmap, pc.pmap + (if data.Some? then {data.value} else {}), pc.j + 1, pc.end))
  {
  }

  /** It deletes an address or puts it back, or ends. */
  lemma WatchedFree<T>(states: seq<State<T>>, b: nat, n: nat, t: Tid, d: Addr, c: Choice<T>)
    requires b <= n && n + 1 < |states| && states[n + 1] == Next(states[n], t, c)
    requires At(states[n].threads, t).pc.Free? && Watched(states, b, n, t, d)
    requires DataStep(states[n], states[n + 1])
    ensures Watched(states, b, n + 1, t, d)
  {
    var s, pc := states[n], At(states[n].threads, t).pc;
    FreeShape(s, t, c);
    hide Next, HeldSince;
    AllHeldMore(states, b, n, pc.pmap);
    if d !in pc.rmap {
      SettledMore(states, b, n, d);
    } else if d in pc.pmap {
      HeldMore(states, b, n, d);
    }
  }

  /** A step of Free leaves Free, and an address leaves rmap only to be deleted or put back. */
  lemma FreeShape<T>(s: State<T>, t: Tid, c: Choice<T>)
    requires At(s.threads, t).pc.Free?
    ensures var pc, u := At(s.threads, t).pc, Next(s, t, c);
            if pc.rmap == map[] then At(u.threads, t).pc == Idle
            else
              && At(u.threads, t).pc.Free? && At(u.threads, t).pc.pmap == pc.pmap
              && forall d: Addr :: d in pc.rmap ==> d in At(u.threads, t).pc.rmap || d in pc.pmap || d in u.freed
  {
  }

  lemma OthersSame<T>(s: State<T>, t: Tid, c: Choice<T>, v: Tid)
    requires v != t
    ensures At(Next(s, t, c).threads, v) == At(s.threads, v)
  {
    NextFacts(s, t, c);
    hide Next;
  }

  lemma WatchedNext<T>(states: seq<State<T>>, schedule: seq<(Tid, Choice<T>)>, b: nat, n: nat, t: Tid, d: Addr)
    requires Run(states, schedule) && b <= n < |schedule|
    requires Visiting(At(states[n].threads, t).pc) && Watched(states, b, n, t, d)
    ensures Watched(states, b, n + 1, t, d)
  {
    RunInv(states, schedule, n);
    hide Sound, Safe, Logged, Counted, Watched, Next, DataStep;
    var s, v, c := states[n], schedule[n].0, schedule[n].1;
    NextData(s, v, c);
    if v != t {
      OthersSame(s, v, c, t);
      WatchedByOthers(states, b, n, t, d);
    } else if At(s.threads, t).pc.VisitTag? {
      WatchedTag(states, b, n, t, d, c);
    } else if At(s.threads, t).pc.VisitData? {
      VisitHere(s, t);
      WatchedData(states, b, n, t, d, c);
    } else {
      WatchedFree(states, b, n, t, d, c);
    }
  }

  // ---------------------------------------------------------------- draining

  /** Between m and b thread t drains: an address it has taken off the list stays in its map. */
  lemma {:induction false} DrainedStays<T>(states: seq<State<T>>, schedule: seq<(Tid, Choice<T>)>,
                                           m: nat, b: nat, t: Tid, d: Addr)
    requires Run(states, schedule) && m <= b < |states|
    requires forall n :: m <= n <= b ==>
               var pc := At(states[n].threads, t).pc; pc.Drain? || (n == b && pc.VisitTag?)
    requires d in At(states[m].threads, t).pc.rmap
    ensures d in At(states[b].threads, t).pc.rmap
    decreases b
  {
    if m < b {
      assert At(states[b - 1].threads, t).pc.Drain?;
      DrainedStays(states, schedule, m, b - 1, t, d);
      var s, v, c := states[b - 1], schedule[b - 1].0, schedule[b - 1].1;
      hide Next;
      if v == t {
        DrainShapes(s, t, c, d);
      } else {
        OthersSame(s, v, c, t);
      }
    }
  }

  lemma DrainShapes<T>(s: State<T>, t: Tid, c: Choice<T>, d: Addr)
    requires At(s.threads, t).pc.Drain? && d in At(s.threads, t).pc.rmap
    ensures var pc := At(Next(s, t, c).threads, t).pc;
            && (pc.Drain? || pc.VisitTag?) && d in pc.rmap && (pc.VisitTag? ==> pc.pmap == {})
  {
  }

  lemma DrainTaken<T>(s: State<T>, t: Tid, c: Choice<T>)
    requires At(s.threads, t).pc.Drain? && s.rlist != []
    requires s.rlist[0] < |s.slots| && s.rlist[0] < |s.role| && s.slots[s.rlist[0]].data.Some?
    ensures var u := Next(s, t, c);
            At(u.threads, t).pc.Drain? && s.slots[s.rlist[0]].data.value in At(u.threads, t).pc.rmap
  {
  }

  // ---------------------------------------------------------------- the theorem

  /** Thread t is in one scan from m to e: it takes a record off the list at m, finds the list
      empty just before b, and is done at e. */
  ghost predicate OneScan<T>(states: seq<State<T>>, schedule: seq<(Tid, Choice<T>)>, m: nat, b: nat, e: nat, t: Tid)
    requires |states| == |schedule| + 1
  {
    && m < b < e < |states|
    && schedule[m].0 == t && At(states[m].threads, t).pc.Drain? && states[m].rlist != []
    && (forall n :: m <= n < b ==> At(states[n].threads, t).pc.Drain?)
    && At(states[b].threads, t).pc.VisitTag?
    && (forall n :: b <= n < e ==> Visiting(At(states[n].threads, t).pc))
    && !Visiting(At(states[e].threads, t).pc)
  }

  lemma {:induction false} WatchedTo<T>(states: seq<State<T>>, schedule: seq<(Tid, Choice<T>)>,
                                        b: nat, e: nat, t: Tid, d: Addr)
    requires Run(states, schedule) && b <= e < |states|
    requires forall n :: b <= n < e ==> Visiting(At(states[n].threads, t).pc)
    requires Watched(states, b, b, t, d)
    ensures Watched(states, b, e, t, d)
    decreases e
  {
    hide Watched, Next, Visiting;
    if b < e {
      WatchedTo(states, schedule, b, e - 1, t, d);
      WatchedNext(states, schedule, b, e - 1, t, d);
    }
  }

  /** The first record carries an address. */
  lemma RecordHere<T>(s: State<T>)
    requires Sound(s) && s.rlist != []
    ensures var i := s.rlist[0]; i < |s.slots| && i < |s.role| && s.slots[i].data.Some?
  {
    hide CellsOk, StackOk, FreedOk, ThreadsOk, ScansOk;
  }

  lemma VisitBegins<T>(states: seq<State<T>>, schedule: seq<(Tid, Choice<T>)>, b: nat, t: Tid, d: Addr)
    requires Run(states, schedule) && 1 <= b < |states|
    requires At(states[b - 1].threads, t).pc.Drain? && At(states[b].threads, t).pc.VisitTag?
    requires d in At(states[b - 1].threads, t).pc.rmap
    ensures Watched(states, b, b, t, d)
  {
    hide Next;
    var s, v, c := states[b - 1], schedule[b - 1].0, schedule[b - 1].1;
    if v == t {
      DrainShapes(s, t, c, d);
    } else {
      OthersSame(s, v, c, t);
    }
  }

  lemma FirstDrained<T>(states: seq<State<T>>, schedule: seq<(Tid, Choice<T>)>, m: nat, b: nat, e: nat, t: Tid)
    requires Run(states, schedule) && OneScan(states, schedule, m, b, e, t)
    ensures m + 1 < b
    ensures states[m].rlist[0] < |states[m].slots| && states[m].slots[states[m].rlist[0]].data.Some?
    ensures At(states[m + 1].threads, t).pc.Drain?
    ensures states[m].slots[states[m].rlist[0]].data.value in At(states[m + 1].threads, t).pc.rmap
  {
    hide Sound, Safe, Logged, Counted, Next, Visiting;
    RunInv(states, schedule, m);
    RecordHere(states[m]);
    DrainTaken(states[m], t, schedule[m].1);
  }

  /** Whatever the schedule, when a scan ends each address it drained has been deleted, or some
      active slot has held it since the scan found the list empty. */
  lemma ScanDeletes<T>(states: seq<State<T>>, schedule: seq<(Tid, Choice<T>)>, m: nat, b: nat, e: nat, t: Tid)
    requires Run(states, schedule) && OneScan(states, schedule, m, b, e, t)
    ensures states[m].rlist[0] < |states[m].slots| && states[m].slots[states[m].rlist[0]].data.Some?
    ensures var d := states[m].slots[states[m].rlist[0]].data.value;
            d in states[e].freed || HeldSince(states, b, e, d)
  {
    hide Sound, Safe, Logged, Counted, Watched, Next, Visiting, HeldSince;
    FirstDrained(states, schedule, m, b, e, t);
    var d := states[m].slots[states[m].rlist[0]].data.value;
    DrainedStays(states, schedule, m + 1, b - 1, t, d);
    VisitBegins(states, schedule, b, t, d);
    WatchedTo(states, schedule, b, e, t, d);
    WatchedEnd(states, b, e, t, d);
  }

  lemma WatchedEnd<T>(states: seq<State<T>>, b: nat, e: nat, t: Tid, d: Addr)
    requires e < |states| && Watched(states, b, e, t, d) && !Visiting(At(states[e].threads, t).pc)
    ensures Settled(states, b, e, d)
  {
    hide Settled;
  }
}
