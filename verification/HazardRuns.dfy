/** Whole runs of the hazard slots: any sequence of operations from the empty state. */
module HazardRuns {
  import opened Common
  import opened HazardState

  datatype Op<T> =
    | Acquire(h: nat)
    | Protect(h: nat, data: Option<T>)
    | Drop(h: nat)
    | Reclaim(h: nat)
    | Clear

  ghost predicate Next<T>(s: State<T>, op: Op<T>, limit: nat, t: State<T>) {
    match op
    case Acquire(h) => Offered(s.slots, h) && t == Acquired(s, h)
    case Protect(h, data) => h in s.held && h < |s.slots| && t == ProtectedBy(s, h, data)
    case Drop(h) => h in s.held && h < |s.slots| && t == Dropped(s, h)
    case Reclaim(h) =>
      && h in s.held && h < |s.slots|
      && (s.slots[h].data.Some? ==> s.slots[h].data.value !in s.pending)
      && Reclaimed(s, h, limit, t)
    case Clear => s.held == {} && t == Cleared(s)
  }

  ghost predicate Run<T>(states: seq<State<T>>, ops: seq<Op<T>>, limit: nat) {
    && |states| == |ops| + 1
    && states[0] == Empty()
    && forall i :: 0 <= i < |ops| ==> Next(states[i], ops[i], limit, states[i + 1])
  }

  lemma NextKeepsValid<T>(s: State<T>, op: Op<T>, limit: nat, t: State<T>)
    requires Valid(s) && Next(s, op, limit, t)
    ensures Valid(t)
  {
    hide Valid;
    match op
    case Acquire(h) => AcquireKeeps(s, h);
    case Protect(h, data) => ProtectKeeps(s, h, data);
    case Drop(h) => DropKeeps(s, h);
    case Reclaim(h) => RetireKeepsValid(s, h);
    case Clear => ClearKeeps(s);
  }

  /** In every reachable state each slot is held by one handle, retired with one record,
      inactive, or leaked, and every retired address is waiting, deleted or forgotten. */
  lemma {:induction false} RunValid<T>(states: seq<State<T>>, ops: seq<Op<T>>, limit: nat, i: nat)
    requires Run(states, ops, limit) && i < |states|
    ensures Valid(states[i])
  {
    if i == 0 {
      EmptyValid<T>();
    } else {
      RunValid(states, ops, limit, i - 1);
      NextKeepsValid(states[i - 1], ops[i - 1], limit, states[i]);
    }
  }

  /** Over any run an address is deleted at most as often as it was retired. */
  lemma RunDeletesRetired<T>(states: seq<State<T>>, ops: seq<Op<T>>, limit: nat, i: nat, d: T)
    requires Run(states, ops, limit) && i < |states|
    ensures multiset(states[i].freed)[d] <= states[i].retirements[d]
  {
    RunValid(states, ops, limit, i);
    assert (multiset(states[i].freed) + multiset(states[i].pending.Keys) + states[i].lost)[d]
        == states[i].retirements[d];
  }

  /** Only reclaim deletes, and what it deletes waits no longer and is held by no active
      slot. */
  lemma NextDeletesUnheld<T>(s: State<T>, op: Op<T>, limit: nat, t: State<T>, d: T)
    requires Valid(s) && Next(s, op, limit, t)
    ensures s.freed <= t.freed
    ensures d in t.freed[|s.freed|..] ==> op.Reclaim? && d !in t.pending && Unheld(t.slots, d)
  {
  }

  /** The operation stores into slot h, or gives it up. */
  predicate Touches<T>(op: Op<T>, h: nat) {
    op.Clear? || ((op.Protect? || op.Drop? || op.Reclaim?) && op.h == h)
  }

  /** An operation on other slots leaves a held slot and what it protects alone. */
  lemma NextKeepsHeld<T>(s: State<T>, op: Op<T>, limit: nat, t: State<T>, h: nat)
    requires Valid(s) && Next(s, op, limit, t) && h in s.held && !Touches(op, h)
    ensures h in t.held && h < |s.slots| && h < |t.slots| && t.slots[h] == s.slots[h]
    ensures s.freed <= t.freed
    ensures forall d :: s.slots[h].data == Some(d) ==> d !in t.freed[|s.freed|..]
  {
    hide Valid, WithRetired, Carried, Scanned, Actives;
    HeldActive(s, h);
    match op {
      case Acquire(g) =>
      case Protect(g, data) =>
      case Drop(g) =>
      case Reclaim(g) =>
        if t != Retired(s, g) {
          ScanKeepsHeld(Retired(s, g), t, h);
        }
    }
  }

  lemma ScanKeepsHeld<T>(s: State<T>, t: State<T>, h: nat)
    requires Scanned(s, t) && h in s.held && h < |s.slots| && s.slots[h].Active()
    ensures h in t.held && h < |t.slots| && t.slots[h] == s.slots[h] && s.freed <= t.freed
    ensures forall d :: s.slots[h].data == Some(d) ==> d !in t.freed[|s.freed|..]
  {
    hide Valid, Accounts, Actives, NullSlots, Addressed;
  }

  lemma HeldActive<T>(s: State<T>, h: nat)
    requires Valid(s) && h in s.held
    ensures h < |s.slots| && s.slots[h].Active()
  {
  }

  /** Over any run, what a handle protects stays protected, and is not deleted, until that
      handle protects another address or gives its slot up. */
  lemma {:induction false} ProtectionHolds<T>(states: seq<State<T>>, ops: seq<Op<T>>, limit: nat, i: nat, j: nat)
    requires Run(states, ops, limit) && i < j < |states|
    requires ops[i].Protect? && forall k :: i < k < j ==> !Touches(ops[k], ops[i].h)
    ensures var h, d := ops[i].h, ops[i].data;
            && h in states[j].held && h < |states[j].slots| && states[j].slots[h] == Clean(d)
            && states[i].freed <= states[j].freed
            && (d.Some? ==> d.value !in states[j].freed[|states[i].freed|..])
    decreases j
  {
    hide Touches, Valid, Next;
    if j == i + 1 {
      RunValid(states, ops, limit, i);
      ProtectHere(states[i], ops[i], limit, states[j]);
    } else {
      ProtectionHolds(states, ops, limit, i, j - 1);
      RunValid(states, ops, limit, j - 1);
      NextKeepsHeld(states[j - 1], ops[j - 1], limit, states[j], ops[i].h);
    }
  }

  lemma ProtectHere<T>(s: State<T>, op: Op<T>, limit: nat, t: State<T>)
    requires Valid(s) && Next(s, op, limit, t) && op.Protect?
    ensures op.h in t.held && op.h < |t.slots| && t.slots[op.h] == Clean(op.data) && t.freed == s.freed
  {
    ProtectKeeps(s, op.h, op.data);
  }

  /** After every reclaim of a run the waiting slots are fewer than the limit or no more than
      the active slots. */
  lemma NextReclaimBound<T>(s: State<T>, op: Op<T>, limit: nat, t: State<T>)
    requires Next(s, op, limit, t) && op.Reclaim?
    ensures |t.rlist| < limit || |t.rlist| <= |Actives(t.slots)|
  {
    ReclaimBound(s, op.h, limit, t);
  }

  lemma NextPool<T>(s: State<T>, op: Op<T>, limit: nat, t: State<T>)
    requires Valid(s) && Next(s, op, limit, t) && !op.Clear?
    ensures |s.slots| <= |t.slots|
    ensures |s.slots| < |t.slots| ==> Demand(t.slots) == |t.slots|
  {
    if op.Acquire? {
      AcquireKeeps(s, op.h);
    }
  }

  /** Between clears, that is from any state without slots on, the pool holds exactly as many
      slots as were ever in use at one time. */
  lemma {:induction false} PoolIsPeakDemand<T>(states: seq<State<T>>, ops: seq<Op<T>>, limit: nat, a: nat, i: nat)
    requires Run(states, ops, limit) && a <= i < |states| && states[a].slots == []
    requires forall k :: a <= k < i ==> !ops[k].Clear?
    ensures forall k :: a <= k <= i ==> Demand(states[k].slots) <= |states[i].slots|
    ensures exists k :: a <= k <= i && Demand(states[k].slots) == |states[i].slots|
    decreases i
  {
    hide Demand, Next, Valid;
    if i == a {
      EmptyDemand<T>();
    } else {
      PoolIsPeakDemand(states, ops, limit, a, i - 1);
      RunValid(states, ops, limit, i - 1);
      NextPool(states[i - 1], ops[i - 1], limit, states[i]);
      DemandBound(states[i].slots);
    }
  }

  lemma EmptyDemand<T>()
    ensures Demand<T>([]) == 0
  {
  }

  lemma DemandBound<T>(slots: seq<Slot<T>>)
    ensures Demand(slots) <= |slots|
  {
  }

  lemma HeldNotLeaked<T>(s: State<T>, h: nat)
    requires Valid(s) && h in s.held
    ensures h !in s.leaked
  {
  }

  /** No slot is lost by a reclaim exactly when the retired slot carries an address. */
  lemma LeakExactly<T>(s: State<T>, h: nat, limit: nat, t: State<T>)
    requires Valid(s) && Next(s, Reclaim(h), limit, t) && Addressed(s.slots, s.rlist)
    ensures s.slots[h].data.Some? <==> t.leaked == s.leaked && Addressed(t.slots, t.rlist)
  {
    hide Valid, Deleted, ActiveWithin, Actives, Unheld, WithRetired, Carried;
    HeldNotLeaked(s, h);
    var r := Retired(s, h);
    assert h in r.rlist;
    if s.slots[h].data.Some? {
      assert NullSlots(r.slots, r.rlist) == {};
    } else {
      assert h in NullSlots(r.slots, r.rlist);
    }
  }

  /** A lost slot stays lost until everything is cleared. */
  lemma LeakForever<T>(s: State<T>, op: Op<T>, limit: nat, t: State<T>, h: nat)
    requires Valid(s) && Next(s, op, limit, t) && !op.Clear? && h in s.leaked
    ensures h in t.leaked && h !in t.held
  {
    if op.Acquire? {
      AcquireKeeps(s, op.h);
    }
  }
}
