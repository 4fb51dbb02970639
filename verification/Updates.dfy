/** What the client promises about the updates it receives (client/client.cpp), told on the
    sequence of responses alone. */
module Updates {
  import opened Common
  import opened Bits
  import opened SplitOrder

  /** What the result of a response holds for send_command. */
  datatype Payload<M> = NoResult | NoMessage | Message(message: M)

  datatype Response<M> = Response(ok: bool, updateId: Option<nat>, payload: Payload<M>)

  predicate Accepted<M>(r: Response<M>) {
    r.ok && r.updateId.Some?
  }

  /** The next offset an accepted response leads to: its update_id plus one, in a size_t. */
  function NextId(id: nat): nat {
    (id + 1) % Pow2(64)
  }

  function Key<M>(r: Response<M>): nat
    requires r.updateId.Some?
  {
    NextId(r.updateId.value)
  }

  /** A size_t stored in an int64_t. */
  function Signed(w: nat): int {
    if w < Pow2(63) then w else w - Pow2(64)
  }

  // ---------------------------------------------------------------- the specification

  /** The table entry of each accepted response. */
  function SeenKeys<M>(rs: seq<Response<M>>): set<nat> {
    if rs == [] then {}
    else
      var last := rs[|rs| - 1];
      SeenKeys(rs[..|rs| - 1]) + if Accepted(last) then {Canon(Key(last))} else {}
  }

  /** The accepted keys, latest first. */
  function Stack<M>(rs: seq<Response<M>>): seq<nat> {
    if rs == [] then []
    else
      var last := rs[|rs| - 1];
      (if Accepted(last) then [Key(last)] else []) + Stack(rs[..|rs| - 1])
  }

  /** The last response of rs is handed to send_command. */
  predicate DispatchesLast<M>(rs: seq<Response<M>>)
    requires rs != []
  {
    var last := rs[|rs| - 1];
    Accepted(last) && Canon(Key(last)) !in SeenKeys(rs[..|rs| - 1]) && last.payload.Message?
  }

  /** The positions of the responses handed to send_command, in order. */
  function Dispatches<M>(rs: seq<Response<M>>): seq<nat> {
    if rs == [] then []
    else Dispatches(rs[..|rs| - 1]) + if DispatchesLast(rs) then [|rs| - 1] else []
  }

  function OffsetAfter<M>(rs: seq<Response<M>>): int {
    if Stack(rs) == [] then -1 else Signed(Stack(rs)[0])
  }

  // ---------------------------------------------------------------- what it means

  lemma {:induction false} SeenMeans<M>(rs: seq<Response<M>>, c: nat)
    ensures c in SeenKeys(rs) <==> exists i :: 0 <= i < |rs| && Accepted(rs[i]) && Canon(Key(rs[i])) == c
  {
    hide Canon;
    if rs != [] {
      var before := rs[..|rs| - 1];
      SeenMeans(before, c);
      assert forall i :: 0 <= i < |rs| - 1 ==> before[i] == rs[i];
      if c in SeenKeys(before) {
        var i :| 0 <= i < |before| && Accepted(before[i]) && Canon(Key(before[i])) == c;
        assert Accepted(rs[i]) && Canon(Key(rs[i])) == c;
      }
    }
  }

  lemma SubsetSize(a: set<nat>, b: set<nat>)
    requires a <= b
    ensures |a| <= |b|
  {
    assert b == a + (b - a);
  }

  lemma {:induction false} SeenGrows<M>(rs: seq<Response<M>>, more: seq<Response<M>>)
    ensures SeenKeys(rs) <= SeenKeys(rs + more) && |SeenKeys(rs)| <= |SeenKeys(rs + more)|
  {
    hide Canon;
    if more == [] {
      assert rs + more == rs;
    } else {
      SeenGrows(rs, more[..|more| - 1]);
      assert (rs + more)[..|rs + more| - 1] == rs + more[..|more| - 1];
      SubsetSize(SeenKeys(rs), SeenKeys(rs + more));
    }
  }

  /** Response k is the first accepted one with its key. */
  ghost predicate First<M>(rs: seq<Response<M>>, k: nat) {
    && k < |rs| && Accepted(rs[k])
    && forall i :: 0 <= i < k && Accepted(rs[i]) ==> Canon(Key(rs[i])) != Canon(Key(rs[k]))
  }

  /** Exactly the first accepted response with a key is dispatched, and only if it holds a
      message. */
  lemma {:induction false} DispatchedExactly<M>(rs: seq<Response<M>>, k: nat)
    ensures k in Dispatches(rs) <==> First(rs, k) && rs[k].payload.Message?
  {
    hide Canon;
    if rs != [] {
      var n := |rs| - 1;
      var before := rs[..n];
      DispatchedExactly(before, k);
      assert forall i :: 0 <= i < n ==> before[i] == rs[i];
      if k < n {
        assert First(before, k) <==> First(rs, k);
      } else if k == n && Accepted(rs[n]) {
        SeenMeans(before, Canon(Key(rs[n])));
        if Canon(Key(rs[n])) in SeenKeys(before) {
          var i :| 0 <= i < n && Accepted(before[i]) && Canon(Key(before[i])) == Canon(Key(rs[n]));
          assert Accepted(rs[i]);
        }
      }
    }
  }

  lemma {:induction false} DispatchesRise<M>(rs: seq<Response<M>>)
    ensures forall i, j :: 0 <= i < j < |Dispatches(rs)| ==> Dispatches(rs)[i] < Dispatches(rs)[j]
    ensures forall i :: 0 <= i < |Dispatches(rs)| ==> Dispatches(rs)[i] < |rs|
  {
    if rs != [] {
      DispatchesRise(rs[..|rs| - 1]);
    }
  }

  /** Each update_id is dispatched at most once, in the order of arrival. */
  lemma AtMostOnce<M>(rs: seq<Response<M>>, i: nat, j: nat)
    requires i < j < |Dispatches(rs)|
    ensures var p, q := Dispatches(rs)[i], Dispatches(rs)[j];
            && p < q < |rs| && Accepted(rs[p]) && Accepted(rs[q])
            && rs[p].updateId != rs[q].updateId
  {
    var p, q := Dispatches(rs)[i], Dispatches(rs)[j];
    DispatchesRise(rs);
    DispatchedExactly(rs, p);
    DispatchedExactly(rs, q);
    hide Canon, NextId, Dispatches;
  }

  /** Before any accepted update the offset is -1. */
  lemma {:induction false} OffsetBefore<M>(rs: seq<Response<M>>)
    requires forall i :: 0 <= i < |rs| ==> !Accepted(rs[i])
    ensures OffsetAfter(rs) == -1
  {
    if rs != [] {
      OffsetBefore(rs[..|rs| - 1]);
    }
  }

  /** After that it belongs to the latest accepted update, whatever came behind it. */
  lemma {:induction false} OffsetLatest<M>(rs: seq<Response<M>>, k: nat)
    requires k < |rs| && Accepted(rs[k]) && forall i :: k < i < |rs| ==> !Accepted(rs[i])
    ensures OffsetAfter(rs) == Signed(NextId(rs[k].updateId.value))
  {
    hide Signed, NextId;
    if k < |rs| - 1 {
      OffsetLatest(rs[..|rs| - 1], k);
    }
  }

  lemma DoublePow2()
    ensures Pow2(64) == 2 * Pow2(63) && Pow2(63) > 1
  {
  }

  /** The offset is exactly one more than the update_id, as stored in a size_t, when and only
      when that still fits a signed word. */
  lemma OffsetIsNext(id: nat)
    requires id < Pow2(64)
    ensures Signed(NextId(id)) == id + 1 <==> id + 1 < Pow2(63)
  {
    hide Pow2;
    DoublePow2();
    if id + 1 < Pow2(64) {
      SmallMod(id + 1, Pow2(64));
    } else {
      SelfMod(Pow2(64));
    }
  }

  predicate IsInt64(i: int) {
    0 <= i + Pow2(63) < Pow2(64)
  }

  /** An int64_t stored in a size_t. */
  function Stored(i: int): (w: nat)
    requires IsInt64(i)
    ensures w < Pow2(64) && Signed(w) == i
  {
    if i >= 0 then i else i + Pow2(64)
  }

  /** Read as the signed number it was received as, every update_id but the largest is followed
      by its successor. */
  lemma OffsetIsSuccessor(i: int)
    requires IsInt64(i)
    ensures Signed(NextId(Stored(i))) == i + 1 <==> i != Pow2(63) - 1
  {
    hide Pow2;
    DoublePow2();
    if i != -1 {
      SmallMod(Stored(i) + 1, Pow2(64));
    } else {
      SelfMod(Pow2(64));
    }
  }

  lemma SmallMod(a: nat, m: nat)
    requires a < m
    ensures a % m == a
  {
  }

  lemma SelfMod(m: nat)
    requires m > 0
    ensures m % m == 0
  {
  }

  lemma HalfMod(a: nat, m: nat)
    requires m <= a < 2 * m
    ensures a % m == a - m
  {
    DivModOf(1, a - m, m);
  }

  // ---------------------------------------------------------------- ids the set takes for one

  /** What the set keeps of an update_id. */
  lemma KeptOfId(id: nat)
    requires id < Pow2(64)
    ensures id % Pow2(63) < Pow2(63)
    ensures Canon(NextId(id)) == if id % Pow2(63) + 1 == Pow2(63) then 0 else id % Pow2(63) + 1
  {
    hide Pow2, LowBits;
    DoublePow2();
    var m := Pow2(63);
    LowBitsMod(NextId(id), 63);
    if id < m {
      SmallMod(id, m);
    } else {
      HalfMod(id, m);
    }
    if id + 1 == 2 * m {
      SelfMod(2 * m);
      SmallMod(0, m);
    } else {
      SmallMod(id + 1, 2 * m);
      if id + 1 < m {
        SmallMod(id + 1, m);
      } else {
        HalfMod(id + 1, m);
      }
    }
  }

  /** The set takes two update_ids for one exactly when they differ in bit 63 at most. */
  lemma KeysAreIds(a: nat, b: nat)
    requires a < Pow2(64) && b < Pow2(64)
    ensures Canon(NextId(a)) == Canon(NextId(b)) <==> a % Pow2(63) == b % Pow2(63)
  {
    hide Pow2, Canon, NextId;
    KeptOfId(a);
    KeptOfId(b);
  }

  predicate Words(ids: set<nat>) {
    forall id :: id in ids ==> id < Pow2(64)
  }

  ghost predicate IdsApart(ids: set<nat>) {
    forall a, b :: a in ids && b in ids && a % Pow2(63) == b % Pow2(63) ==> a == b
  }

  ghost predicate AcceptedIn<M>(rs: seq<Response<M>>, ids: set<nat>) {
    forall i :: 0 <= i < |rs| && Accepted(rs[i]) ==> rs[i].updateId.value in ids
  }

  /** Response k is the first accepted one with its update_id, and holds a message. */
  ghost predicate NewUpdate<M>(rs: seq<Response<M>>, k: nat) {
    && k < |rs| && Accepted(rs[k]) && rs[k].payload.Message?
    && forall i :: 0 <= i < k && Accepted(rs[i]) ==> rs[i].updateId != rs[k].updateId
  }

  lemma ApartDispatched<M>(rs: seq<Response<M>>, ids: set<nat>, k: nat)
    requires Words(ids) && IdsApart(ids) && AcceptedIn(rs, ids)
    ensures k in Dispatches(rs) <==> NewUpdate(rs, k)
  {
    hide Canon, NextId, Pow2, Dispatches;
    DispatchedExactly(rs, k);
    if k < |rs| && Accepted(rs[k]) {
      forall i | 0 <= i < k && Accepted(rs[i])
        ensures Canon(Key(rs[i])) == Canon(Key(rs[k])) <==> rs[i].updateId == rs[k].updateId
      {
        KeysAreIds(rs[i].updateId.value, rs[k].updateId.value);
      }
    }
  }

  function Update<M>(id: nat, m: M): Response<M> {
    Response(true, Some(id), Message(m))
  }

  /** Of two updates the first is dispatched, and the second exactly when the ids differ in more
      than bit 63. */
  lemma PairDispatched<M>(a: nat, b: nat, m: M)
    requires a < Pow2(64) && b < Pow2(64)
    ensures 0 in Dispatches([Update(a, m), Update(b, m)])
    ensures 1 in Dispatches([Update(a, m), Update(b, m)]) <==> a % Pow2(63) != b % Pow2(63)
  {
    hide Canon, NextId, Pow2, Dispatches;
    var rs := [Update(a, m), Update(b, m)];
    DispatchedExactly(rs, 0);
    DispatchedExactly(rs, 1);
    KeysAreIds(a, b);
    assert Accepted(rs[0]) && Accepted(rs[1]) && Key(rs[0]) == NextId(a) && Key(rs[1]) == NextId(b);
  }

  /** Over all responses that carry these ids, exactly the new updates are dispatched. */
  ghost predicate NewUpdatesDispatched<M(!new)>(ids: set<nat>) {
    forall rs: seq<Response<M>>, k: nat :: AcceptedIn(rs, ids) ==> (k in Dispatches(rs) <==> NewUpdate(rs, k))
  }

  /** That holds for a set of ids if and only if no two of them differ in bit 63 alone; for ids
      below 2^63 it holds. */
  lemma DispatchIff<M(!new)>(ids: set<nat>, m: M)
    requires Words(ids)
    ensures NewUpdatesDispatched<M>(ids) <==> IdsApart(ids)
    ensures (forall id :: id in ids ==> id < Pow2(63)) ==> NewUpdatesDispatched<M>(ids)
  {
    hide Dispatches, NewUpdate, Pow2, Words;
    if IdsApart(ids) {
      forall rs: seq<Response<M>>, k: nat | AcceptedIn(rs, ids)
        ensures k in Dispatches(rs) <==> NewUpdate(rs, k)
      {
        ApartDispatched(rs, ids, k);
      }
    } else {
      var a, b :| a in ids && b in ids && a % Pow2(63) == b % Pow2(63) && a != b;
      SecondLost(ids, a, b, m);
    }
    if forall id :: id in ids ==> id < Pow2(63) {
      forall id | id in ids
        ensures id % Pow2(63) == id
      {
        SmallMod(id, Pow2(63));
      }
    }
  }

  lemma SecondLost<M(!new)>(ids: set<nat>, a: nat, b: nat, m: M)
    requires Words(ids) && a in ids && b in ids && a % Pow2(63) == b % Pow2(63) && a != b
    ensures !NewUpdatesDispatched<M>(ids)
  {
    hide Dispatches, Pow2;
    var rs := [Update(a, m), Update(b, m)];
    PairDispatched(a, b, m);
    assert AcceptedIn(rs, ids) && NewUpdate(rs, 1);
  }
}
