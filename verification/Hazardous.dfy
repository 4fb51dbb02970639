/** The class behind the hazard slots (LF_hazardous.hpp), one operation at a time. */
module Hazard {
  import opened Common
  import opened HazardState
  import HazardScan

  class Hazardous<T(==)> {
    const limit: nat
    var slots: seq<Slot<T>>
    var rlist: seq<nat>
    var isBusy: bool
    var freed: seq<T>
    /** The state with its history; its first three fields are the fields above. */
    ghost var view: State<T>

    ghost predicate Valid()
      reads this
    {
      && !isBusy
      && HazardState.Valid(view)
      && view.slots == slots && view.rlist == rlist && view.freed == freed
    }

    constructor (limit: nat)
      ensures Valid() && this.limit == limit && view == Empty()
    {
      this.limit := limit;
      slots, rlist, isBusy, freed := [], [], false, [];
      view := Empty();
      EmptyValid<T>();
    }

    method FindFree() returns (h: Option<nat>)
      modifies this`slots
      ensures h.None? ==> slots == old(slots) && Offered(slots, |slots|)
      ensures h.Some? ==>
                && h.value < |old(slots)| && Offered(old(slots), h.value)
                && slots == old(slots)[h.value := Clean(None)]
    {
      var i := 0;
      while i != |slots|
        invariant 0 <= i <= |slots|
        invariant slots == old(slots)
        invariant forall j :: 0 <= j < i ==> !slots[j].inactive
      {
        if slots[i].inactive {
          slots := slots[i := slots[i].(retired := false, inactive := false)];
          slots := slots[i := slots[i].(data := None)];
          return Some(i);
        }
        i := i + 1;
      }
      return None;
    }

    method MakeHazard() returns (h: nat)
      requires Valid()
      modifies this
      ensures Valid()
      ensures Offered(old(slots), h) && view == Acquired(old(view), h)
    {
      hide HazardState.Valid, Demand;
      var free := FindFree();
      if free.Some? {
        h := free.value;
      } else {
        h := |slots|;
        slots := slots + [Clean(None)];
      }
      AcquireKeeps(view, h);
      view := Acquired(view, h);
    }

    method Protect(h: nat, data: Option<T>)
      requires Valid() && h in view.held
      modifies this
      ensures Valid()
      ensures h < |old(slots)| && view == ProtectedBy(old(view), h, data)
    {
      HeldInRange(view, h);
      ProtectKeeps(view, h, data);
      hide HazardState.Valid;
      slots := slots[h := slots[h].(data := data)];
      view := ProtectedBy(view, h, data);
    }

    method Drop(h: nat)
      requires Valid() && h in view.held
      modifies this
      ensures Valid()
      ensures h < |old(slots)| && view == Dropped(old(view), h)
    {
      HeldInRange(view, h);
      DropKeeps(view, h);
      hide HazardState.Valid;
      slots := slots[h := slots[h].(inactive := true)];
      view := Dropped(view, h);
    }

    method Reclaim(h: nat)
      requires Valid() && h in view.held
      requires h < |slots| && slots[h].data.Some? ==> slots[h].data.value !in view.pending
      modifies this
      ensures Valid()
      ensures h < |old(slots)| && Reclaimed(old(view), h, limit, view)
    {
      HeldInRange(view, h);
      RetireKeepsValid(view, h);
      hide HazardState.Valid, Scanned;
      slots := slots[h := slots[h].(retired := true)];
      rlist := [h] + rlist;
      view := Retired(view, h);
      CheckLimit();
    }

    method CheckLimit()
      requires Valid()
      modifies this
      ensures Valid()
      ensures if |old(rlist)| >= limit then Scanned(old(view), view) else view == old(view)
    {
      hide HazardState.Valid, Scanned;
      if |rlist| >= limit {
        var wasBusy := isBusy;
        isBusy := true;
        if !wasBusy {
          slots, rlist, freed, view := HazardScan.Scan(slots, rlist, freed, view);
          isBusy := false;
        }
      }
    }

    /** Nothing may be held. */
    method Clear()
      requires Valid() && view.held == {}
      modifies this
      ensures Valid()
      ensures view == Cleared(old(view))
    {
      ClearKeeps(view);
      hide HazardState.Valid;
      slots, rlist := [], [];
      view := Cleared(view);
    }
  }
}
