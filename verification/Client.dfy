/** The client's update de-duplication (client/client.cpp): a set of handled updates and a
    stack of next offsets behind one coroutine. */
module Client {
  import opened Common
  import opened Bits
  import opened SplitOrder
  import opened TableState
  import opened TableBuckets
  import opened HashTables
  import TableRuns
  import opened Updates

  /** How one getUpdates ends: with a response, with a request the server rejects, or with
      another exception. A rejected request yields a response object without an update_id
      whose ok is whatever it happens to be. */
  datatype Outcome<M> = Answer(response: Response<M>) | BadRequest(ok: bool) | Failure

  function Parsed<M>(o: Outcome<M>): seq<Response<M>> {
    match o
    case Answer(r) => [r]
    case BadRequest(ok) => [Response(ok, None, NoResult)]
    case Failure => []
  }

  /** The responses parsed for these outcomes. */
  function Responses<M>(outcomes: seq<Outcome<M>>): seq<Response<M>> {
    if outcomes == [] then [] else Responses(outcomes[..|outcomes| - 1]) + Parsed(outcomes[|outcomes| - 1])
  }

  lemma ResponsesNext<M>(outcomes: seq<Outcome<M>>, i: nat)
    requires i < |outcomes|
    ensures Responses(outcomes[..i + 1]) == Responses(outcomes[..i]) + Parsed(outcomes[i])
    ensures |Parsed(outcomes[i])| <= 1
  {
    assert outcomes[..i + 1][..i] == outcomes[..i];
  }

  /** The messages dispatched for these responses. */
  function Messages<M>(rs: seq<Response<M>>): seq<M> {
    if rs == [] then []
    else Messages(rs[..|rs| - 1]) + if DispatchesLast(rs) then [rs[|rs| - 1].payload.message] else []
  }

  /** They are those of the responses at the dispatched positions. */
  lemma {:induction false} MessagesAre<M>(rs: seq<Response<M>>)
    ensures |Messages(rs)| == |Dispatches(rs)|
    ensures forall i :: 0 <= i < |Dispatches(rs)| ==>
              && Dispatches(rs)[i] < |rs| && rs[Dispatches(rs)[i]].payload == Message(Messages(rs)[i])
  {
    if rs != [] {
      MessagesAre(rs[..|rs| - 1]);
    }
  }

  /** What one more response does to what is remembered. */
  lemma OneMore<M>(rs: seq<Response<M>>, r: Response<M>)
    ensures var now := rs + [r];
            && SeenKeys(now) == SeenKeys(rs) + (if Accepted(r) then {Canon(Key(r))} else {})
            && Stack(now) == (if Accepted(r) then [Key(r)] else []) + Stack(rs)
            && (DispatchesLast(now) <==>
                  Accepted(r) && Canon(Key(r)) !in SeenKeys(rs) && r.payload.Message?)
            && Messages(now) == Messages(rs) + if DispatchesLast(now) then [r.payload.message] else []
  {
    hide Canon;
    assert (rs + [r])[..|rs|] == rs;
  }

  lemma WordKey<M>(r: Response<M>)
    requires r.updateId.Some?
    ensures Key(r) < Pow2(64) && (r.ok ==> Accepted(r))
  {
    hide Pow2;
    DoublePow2();
  }

  lemma KeysAfter(was: map<nat, nat>, now: map<nat, nat>, c: nat, isNew: bool)
    requires isNew <==> c !in was
    requires now == if isNew then was[c := 0] else was
    ensures now.Keys == was.Keys + {c}
  {
  }

  class TgSession<M> {
    /** LF_set<size_t>: its insert stores a default value under the key. */
    const updatedSet: HashTable
    /** LF_stack<size_t>, top first. */
    var updateStack: seq<nat>
    /** The messages handed to send_command, in order. */
    var sent: seq<M>
    /** The responses parsed so far. */
    ghost var history: seq<Response<M>>

    ghost predicate Remembers()
      reads this, updatedSet
    {
      && Model(updatedSet.nodes).Keys == SeenKeys(history)
      && updateStack == Stack(history)
      && sent == Messages(history)
    }

    ghost predicate Valid()
      reads this, updatedSet, updatedSet.segArr, updatedSet.list, updatedSet.list.chain, updatedSet.list.alloc
    {
      updatedSet.Valid() && Remembers()
    }

    constructor ()
      ensures Valid() && history == [] && updatedSet.loadFactor == 2
      ensures fresh(updatedSet) && fresh(updatedSet.segArr) && fresh(updatedSet.list) && fresh(updatedSet.list.alloc)
      ensures fresh(updatedSet.repr)
    {
      hide *;
      updatedSet := new HashTable(2);
      updateStack, sent, history := [], [], [];
      new;
      RemembersNothing();
    }

    lemma RemembersNothing()
      requires updatedSet.Valid() && updatedSet.nodes == map[]
      requires updateStack == [] && sent == [] && history == []
      ensures Valid()
    {
      hide HashTable.Valid;
    }

    /** update_id. */
    method UpdateId(res: Response<M>)
      modifies this`updateStack
      ensures updateStack == (if res.updateId.Some? then [Key(res)] else []) + old(updateStack)
    {
      if res.updateId.Some? {
        var newId := NextId(res.updateId.value);
        updateStack := [newId] + updateStack;
      }
    }

    /** The offset that prepare_getUpdates puts into the request. */
    method Offset(isLast: bool) returns (offset: int)
      requires Remembers()
      ensures offset == if isLast then -1 else OffsetAfter(history)
    {
      if updateStack == [] || isLast {
        offset := -1;
      } else {
        offset := Signed(updateStack[0]);
      }
    }

    lemma Room()
      requires Valid()
      ensures updatedSet.Valid() && Model(updatedSet.nodes).Keys == SeenKeys(history)
      ensures |SeenKeys(history)| < updatedSet.loadFactor * MAX_BUCKETS ==> !updatedSet.Full()
    {
      hide HashTable.Valid, HashTable.Full, Pow2, Canon;
      TableRuns.FullMeans(updatedSet);
      TableRuns.ModelFacts(updatedSet.nodes);
    }

    /** What is remembered after an accepted response, and after one that is not. */
    lemma Settled(was: seq<Response<M>>, r: Response<M>, keys: set<nat>)
      requires updatedSet.Valid() && history == was + [r] && SeenKeys(was) == keys
      requires if r.ok && r.updateId.Some?
               then && Model(updatedSet.nodes).Keys == keys + {Canon(Key(r))}
                    && updateStack == [Key(r)] + Stack(was)
                    && sent == Messages(was) + (if Canon(Key(r)) !in keys && r.payload.Message?
                                                then [r.payload.message] else [])
               else Model(updatedSet.nodes).Keys == keys && updateStack == Stack(was) && sent == Messages(was)
      ensures Valid()
    {
      hide HashTable.Valid, Model, Canon, NextId, Pow2;
      OneMore(was, r);
    }

    lemma Remembered()
      requires Valid()
      ensures Model(updatedSet.nodes).Keys == SeenKeys(history)
      ensures updateStack == Stack(history) && sent == Messages(history) && Remembers()
    {
      hide HashTable.Valid, Model;
    }

    /** parse_result. A send_command that throws is caught and changes nothing here. */
    method ParseResult(res: Response<M>)
      requires Valid() && (Accepted(res) ==> !updatedSet.Full())
      modifies this, updatedSet, updatedSet.segArr, updatedSet.list, updatedSet.repr`next, updatedSet.repr`tag,
               updatedSet.list.alloc
      ensures Valid() && history == old(history) + [res]
      ensures old(updatedSet.repr) <= updatedSet.repr && fresh(updatedSet.repr - old(updatedSet.repr))
    {
      hide *;
      Room();
      Remembered();
      ghost var was, keys := history, SeenKeys(history);
      history := history + [res];
      if !res.ok {
        Settled(was, res, keys);
        return;
      }
      if res.updateId.None? {
        Settled(was, res, keys);
        return;
      }
      WordKey(res);
      UpdateId(res);
      var id := updateStack[0];
      var isNew := SessionInsert(this, id);
      if !isNew {
        Settled(was, res, keys);
        return;
      }
      match res.payload {
        case NoResult =>
        case NoMessage =>
        case Message(m) => sent := sent + [m];
      }
      Settled(was, res, keys);
    }
  }

  /** LF_set::insert: whether the id is new to the set. */
  method SetInsert(set_: HashTable, id: nat) returns (isNew: bool)
    requires set_.Valid() && id < Pow2(64) && !set_.Full()
    modifies set_, set_.segArr, set_.list, set_.repr`next, set_.repr`tag, set_.list.alloc
    ensures set_.Valid() && old(set_.repr) <= set_.repr && fresh(set_.repr - old(set_.repr))
    ensures isNew <==> Canon(id) !in old(Model(set_.nodes).Keys)
    ensures Model(set_.nodes).Keys == old(Model(set_.nodes).Keys) + {Canon(id)}
  {
    TableRuns.ModelFacts(set_.nodes);
    ghost var m := Model(set_.nodes);
    hide HashTable.Valid, HashTable.Full, Model, Canon, Pow2, Grown, Overloaded;
    isNew := set_.Insert(id, 0);
    KeysAfter(m, Model(set_.nodes), Canon(id), isNew);
  }

  /** The same on a session's set, which leaves the rest of the session alone. */
  method SessionInsert<M>(s: TgSession<M>, id: nat) returns (isNew: bool)
    requires s.updatedSet.Valid() && id < Pow2(64) && !s.updatedSet.Full()
    modifies s.updatedSet, s.updatedSet.segArr, s.updatedSet.list, s.updatedSet.repr`next, s.updatedSet.repr`tag,
             s.updatedSet.list.alloc
    ensures s.updatedSet.Valid()
    ensures old(s.updatedSet.repr) <= s.updatedSet.repr && fresh(s.updatedSet.repr - old(s.updatedSet.repr))
    ensures isNew <==> Canon(id) !in old(Model(s.updatedSet.nodes).Keys)
    ensures Model(s.updatedSet.nodes).Keys == old(Model(s.updatedSet.nodes).Keys) + {Canon(id)}
    ensures s.updateStack == old(s.updateStack) && s.sent == old(s.sent) && s.history == old(s.history)
  {
    hide *;
    isNew := SetInsert(s.updatedSet, id);
  }

  /** What the offset of request i must be after the responses rs. */
  ghost predicate OffsetsRight<M>(offsets: seq<int>, outcomes: seq<Outcome<M>>, rs: seq<Response<M>>) {
    |offsets| <= |outcomes| &&
    forall i :: 0 <= i < |offsets| ==> offsets[i] == OffsetAfter(rs + Responses(outcomes[..i]))
  }

  lemma OffsetsNext<M>(offsets: seq<int>, outcomes: seq<Outcome<M>>, rs: seq<Response<M>>, offset: int)
    requires OffsetsRight(offsets, outcomes, rs) && |offsets| < |outcomes|
    requires offset == OffsetAfter(rs + Responses(outcomes[..|offsets|]))
    ensures OffsetsRight(offsets + [offset], outcomes, rs)
  {
    hide OffsetAfter;
  }

  /** Request i belongs to a handshake: it is the first, or the one before it failed. */
  predicate Connecting<M>(outcomes: seq<Outcome<M>>, i: nat)
    requires i <= |outcomes|
  {
    i == 0 || outcomes[i - 1].Failure?
  }

  lemma ServeStart<M>(outcomes: seq<Outcome<M>>, rs: seq<Response<M>>)
    ensures OffsetsRight([], outcomes, rs) && rs + Responses(outcomes[..0]) == rs
  {
  }

  lemma HistoryNext<M>(rs: seq<Response<M>>, outcomes: seq<Outcome<M>>, i: nat, r: Response<M>)
    requires i < |outcomes|
    requires match outcomes[i]
             case Answer(a) => r == a
             case BadRequest(ok) => r == Response(ok, None, NoResult)
             case Failure => true
    ensures rs + Responses(outcomes[..i + 1])
         == rs + Responses(outcomes[..i]) + if outcomes[i].Failure? then [] else [r]
  {
    ResponsesNext(outcomes, i);
  }

  lemma {:induction false} ResponsesPrefix<M>(outcomes: seq<Outcome<M>>, i: nat) returns (more: seq<Response<M>>)
    requires i <= |outcomes|
    ensures Responses(outcomes) == Responses(outcomes[..i]) + more
  {
    hide Parsed;
    if i == |outcomes| {
      assert outcomes[..i] == outcomes;
      more := [];
    } else {
      var n := |outcomes| - 1;
      more := ResponsesPrefix(outcomes[..n], i);
      assert outcomes[..n][..i] == outcomes[..i];
      more := more + Parsed(outcomes[n]);
    }
  }

  /** The keys seen after i outcomes are no more than those seen in the end. */
  lemma SeenSoFar<M>(rs: seq<Response<M>>, outcomes: seq<Outcome<M>>, i: nat)
    requires i <= |outcomes|
    ensures |SeenKeys(rs + Responses(outcomes[..i]))| <= |SeenKeys(rs + Responses(outcomes))|
  {
    hide SeenKeys, Responses;
    var more := ResponsesPrefix(outcomes, i);
    var some := Responses(outcomes[..i]);
    assert rs + (some + more) == rs + some + more;
    SeenGrows(rs + some, more);
  }

  /** handshake and start_waiting, for the outcomes of the successive getUpdates: a failure
      makes the next request part of a new handshake, and a failure there ends the program. */
  method Serve<M>(s: TgSession<M>, outcomes: seq<Outcome<M>>) returns (offsets: seq<int>, terminated: bool)
    requires s.Valid()
    requires |SeenKeys(s.history + Responses(outcomes))| < s.updatedSet.loadFactor * MAX_BUCKETS
    modifies s, s.updatedSet, s.updatedSet.segArr, s.updatedSet.list, s.updatedSet.repr`next, s.updatedSet.repr`tag,
             s.updatedSet.list.alloc
    ensures s.Valid()
    ensures |offsets| <= |outcomes| && (!terminated ==> |offsets| == |outcomes|)
    ensures terminated ==>
              offsets != [] && outcomes[|offsets| - 1].Failure? && Connecting(outcomes, |offsets| - 1)
    ensures forall i :: 0 <= i < |offsets| - (if terminated then 1 else 0) && outcomes[i].Failure? ==>
              !Connecting(outcomes, i)
    ensures s.history == old(s.history) + Responses(outcomes[..|offsets|])
    ensures OffsetsRight(offsets, outcomes, old(s.history))
  {
    hide HashTable.Valid, HashTable.Full, TgSession.Valid, TgSession.Remembers, Responses, OffsetAfter, OffsetsRight,
         Pow2, Model, SeenKeys;
    var connecting := true;
    offsets, terminated := [], false;
    ServeStart(outcomes, s.history);
    while |offsets| < |outcomes|
      invariant s.Valid() && |offsets| <= |outcomes| && !terminated
      invariant connecting == Connecting(outcomes, |offsets|)
      invariant forall i :: 0 <= i < |offsets| && outcomes[i].Failure? ==> !Connecting(outcomes, i)
      invariant s.history == old(s.history) + Responses(outcomes[..|offsets|])
      invariant OffsetsRight(offsets, outcomes, old(s.history))
      invariant old(s.updatedSet.repr) <= s.updatedSet.repr && fresh(s.updatedSet.repr - old(s.updatedSet.repr))
    {
      s.Remembered();
      s.Room();
      SeenSoFar(old(s.history), outcomes, |offsets|);
      var offset := s.Offset(false);
      OffsetsNext(offsets, outcomes, old(s.history), offset);
      var outcome := outcomes[|offsets|];
      offsets := offsets + [offset];
      match outcome {
        case Answer(r) =>
          HistoryNext(old(s.history), outcomes, |offsets| - 1, r);
          s.ParseResult(r);
          connecting := false;
        case BadRequest(ok) =>
          var r := Response(ok, None, NoResult);
          HistoryNext(old(s.history), outcomes, |offsets| - 1, r);
          s.ParseResult(r);
          connecting := false;
        case Failure =>
          HistoryNext(old(s.history), outcomes, |offsets| - 1, Response(false, None, NoResult));
          assert s.history == old(s.history) + Responses(outcomes[..|offsets|]);
          if connecting {
            terminated := true;
            return;
          }
          connecting := true;
      }
    }
  }

  // ---------------------------------------------------------------- told on the outcomes alone

  /** getUpdates failed right at the start, or right after another failure. */
  predicate Fatal<M>(outcomes: seq<Outcome<M>>, i: nat) {
    i < |outcomes| && outcomes[i].Failure? && (i == 0 || outcomes[i - 1].Failure?)
  }

  /** The outcome brings an update, which the client accepts. */
  predicate Brings<M>(o: Outcome<M>) {
    o.Answer? && o.response.ok && o.response.updateId.Some?
  }

  function IdOf<M>(o: Outcome<M>): nat
    requires Brings(o)
  {
    o.response.updateId.value
  }

  ghost predicate WordIds<M>(outcomes: seq<Outcome<M>>) {
    forall i :: 0 <= i < |outcomes| && Brings(outcomes[i]) ==> IdOf(outcomes[i]) < Pow2(64)
  }

  /** No outcome before the last brings its id, bit 63 aside. */
  ghost predicate NewId<M>(outcomes: seq<Outcome<M>>)
    requires outcomes != []
  {
    var n := |outcomes| - 1;
    && Brings(outcomes[n])
    && forall i :: 0 <= i < n && Brings(outcomes[i]) ==>
         IdOf(outcomes[i]) % Pow2(63) != IdOf(outcomes[n]) % Pow2(63)
  }

  /** The messages that come with a new id. */
  ghost function NewMessages<M>(outcomes: seq<Outcome<M>>): seq<M> {
    if outcomes == [] then []
    else
      var o := outcomes[|outcomes| - 1];
      NewMessages(outcomes[..|outcomes| - 1])
      + if NewId(outcomes) && o.response.payload.Message? then [o.response.payload.message] else []
  }

  /** The offset after the latest update. */
  ghost function LatestOffset<M>(outcomes: seq<Outcome<M>>): int {
    if outcomes == [] then -1
    else
      var o := outcomes[|outcomes| - 1];
      if Brings(o) then Signed(NextId(IdOf(o))) else LatestOffset(outcomes[..|outcomes| - 1])
  }

  /** A key has been seen exactly when an outcome brought an id with it. */
  lemma {:induction false} SeenOf<M>(outcomes: seq<Outcome<M>>, c: nat)
    ensures c in SeenKeys(Responses(outcomes)) <==> Brought(outcomes, c)
  {
    hide Canon, NextId, SeenKeys, Brought, Brings;
    if outcomes == [] {
      SeenNothing<M>();
    } else {
      SeenOf(outcomes[..|outcomes| - 1], c);
      ParsedMore(outcomes);
      BroughtMore(outcomes, c);
    }
  }

  ghost predicate Brought<M>(outcomes: seq<Outcome<M>>, c: nat) {
    exists i :: 0 <= i < |outcomes| && Brings(outcomes[i]) && Canon(NextId(IdOf(outcomes[i]))) == c
  }

  lemma BroughtMore<M>(outcomes: seq<Outcome<M>>, c: nat)
    requires outcomes != []
    ensures var o := outcomes[|outcomes| - 1];
            Brought(outcomes, c)
            <==> Brought(outcomes[..|outcomes| - 1], c) || (Brings(o) && Canon(NextId(IdOf(o))) == c)
  {
    hide Canon, NextId, Brings;
    var n := |outcomes| - 1;
    var before := outcomes[..n];
    if Brought(before, c) {
      var i :| 0 <= i < n && Brings(before[i]) && Canon(NextId(IdOf(before[i]))) == c;
      assert outcomes[i] == before[i];
    }
    if Brought(outcomes, c) {
      var i :| 0 <= i < |outcomes| && Brings(outcomes[i]) && Canon(NextId(IdOf(outcomes[i]))) == c;
      assert i < n ==> outcomes[i] == before[i];
    }
  }

  lemma SeenNothing<M>()
    ensures Responses<M>([]) == [] && SeenKeys<M>([]) == {}
    ensures forall c: nat :: !Brought<M>([], c)
  {
  }

  /** What the last outcome adds to the keys, the messages and the offset. */
  lemma ParsedMore<M>(outcomes: seq<Outcome<M>>)
    requires outcomes != []
    ensures var o, before := outcomes[|outcomes| - 1], Responses(outcomes[..|outcomes| - 1]);
            var now := Responses(outcomes);
            if Brings(o)
            then
              && SeenKeys(now) == SeenKeys(before) + {Canon(NextId(IdOf(o)))}
              && OffsetAfter(now) == Signed(NextId(IdOf(o)))
              && Messages(now) == Messages(before)
                 + if Canon(NextId(IdOf(o))) !in SeenKeys(before) && o.response.payload.Message?
                   then [o.response.payload.message] else []
            else
              && SeenKeys(now) == SeenKeys(before) && OffsetAfter(now) == OffsetAfter(before)
              && Messages(now) == Messages(before)
  {
    hide Canon, NextId, Signed, SeenKeys, Messages, OffsetAfter, Pow2;
    var o, before := outcomes[|outcomes| - 1], Responses(outcomes[..|outcomes| - 1]);
    match o {
      case Answer(r) => ResponseMore(before, r);
      case BadRequest(ok) => ResponseMore(before, Response(ok, None, NoResult));
      case Failure => assert before + [] == before;
    }
  }

  lemma ResponseMore<M>(before: seq<Response<M>>, r: Response<M>)
    ensures var now := before + [r];
            if Accepted(r)
            then
              && SeenKeys(now) == SeenKeys(before) + {Canon(Key(r))} && OffsetAfter(now) == Signed(Key(r))
              && Messages(now) == Messages(before)
                 + if Canon(Key(r)) !in SeenKeys(before) && r.payload.Message? then [r.payload.message] else []
            else
              && SeenKeys(now) == SeenKeys(before) && OffsetAfter(now) == OffsetAfter(before)
              && Messages(now) == Messages(before)
  {
    OneMore(before, r);
    hide Canon, NextId, Signed, Messages, SeenKeys, Stack, Pow2, DispatchesLast;
  }

  /** The last outcome's key has not been seen exactly when its id is new. */
  lemma NewIsUnseen<M>(outcomes: seq<Outcome<M>>)
    requires outcomes != [] && WordIds(outcomes) && Brings(outcomes[|outcomes| - 1])
    ensures Canon(NextId(IdOf(outcomes[|outcomes| - 1]))) !in SeenKeys(Responses(outcomes[..|outcomes| - 1]))
       <==> NewId(outcomes)
  {
    hide Canon, NextId, Pow2, SeenKeys, Responses, Brings;
    var n := |outcomes| - 1;
    SeenOf(outcomes[..n], Canon(NextId(IdOf(outcomes[n]))));
    forall i | 0 <= i < n && Brings(outcomes[i])
      ensures Canon(NextId(IdOf(outcomes[i]))) == Canon(NextId(IdOf(outcomes[n])))
         <==> IdOf(outcomes[i]) % Pow2(63) == IdOf(outcomes[n]) % Pow2(63)
    {
      KeysAreIds(IdOf(outcomes[i]), IdOf(outcomes[n]));
    }
    assert forall i :: 0 <= i < n ==> outcomes[..n][i] == outcomes[i];
  }

  /** What is sent and requested, told on the outcomes alone. */
  lemma {:induction false} ToldOnOutcomes<M>(outcomes: seq<Outcome<M>>)
    requires WordIds(outcomes)
    ensures Messages(Responses(outcomes)) == NewMessages(outcomes)
    ensures OffsetAfter(Responses(outcomes)) == LatestOffset(outcomes)
  {
    hide Canon, NextId, Signed, Pow2, SeenKeys, NewId;
    if outcomes == [] {
      assert OffsetAfter<M>([]) == -1 && Messages<M>([]) == [];
    } else {
      var n := |outcomes| - 1;
      assert forall i :: 0 <= i < n ==> outcomes[..n][i] == outcomes[i];
      ToldOnOutcomes(outcomes[..n]);
      ParsedMore(outcomes);
      if Brings(outcomes[n]) {
        NewIsUnseen(outcomes);
      } else {
        NotNew(outcomes);
      }
    }
  }

  lemma NotNew<M>(outcomes: seq<Outcome<M>>)
    requires outcomes != [] && !Brings(outcomes[|outcomes| - 1])
    ensures !NewId(outcomes)
  {
  }

  /** A new client, whatever getUpdates brings. It sends exactly the messages that come with a
      new id; each request carries the offset after the latest update before it; and it goes on
      until the first fatal failure, or to the end if there is none. */
  method RunNew<M>(outcomes: seq<Outcome<M>>) returns (sent: seq<M>, offsets: seq<int>, terminated: bool)
    requires WordIds(outcomes) && |SeenKeys(Responses(outcomes))| < 2 * MAX_BUCKETS
    ensures terminated <==> exists i :: 0 <= i < |outcomes| && Fatal(outcomes, i)
    ensures terminated ==> 1 <= |offsets| && Fatal(outcomes, |offsets| - 1)
    ensures terminated ==> forall i :: 0 <= i < |offsets| - 1 ==> !Fatal(outcomes, i)
    ensures !terminated ==> |offsets| == |outcomes|
    ensures |offsets| <= |outcomes| && sent == NewMessages(outcomes[..|offsets|])
    ensures forall i :: 0 <= i < |offsets| ==> offsets[i] == LatestOffset(outcomes[..i])
  {
    hide *;
    var s := new TgSession<M>();
    assert [] + Responses(outcomes) == Responses(outcomes);
    offsets, terminated := Serve(s, outcomes);
    s.Remembered();
    sent := s.sent;
    var parsed := Responses(outcomes[..|offsets|]);
    assert [] + parsed == parsed;
    OffsetsFromStart(offsets, outcomes);
    PrefixesTold(outcomes, |offsets|);
    FatalIs(outcomes);
  }

  lemma PrefixesTold<M>(outcomes: seq<Outcome<M>>, n: nat)
    requires WordIds(outcomes) && n <= |outcomes|
    ensures Messages(Responses(outcomes[..n])) == NewMessages(outcomes[..n])
    ensures forall i :: 0 <= i <= n ==> OffsetAfter(Responses(outcomes[..i])) == LatestOffset(outcomes[..i])
  {
    hide Messages, Responses, NewMessages, OffsetAfter, LatestOffset;
    forall i | 0 <= i <= n
      ensures OffsetAfter(Responses(outcomes[..i])) == LatestOffset(outcomes[..i])
      ensures Messages(Responses(outcomes[..i])) == NewMessages(outcomes[..i])
    {
      ToldOnOutcomes(outcomes[..i]);
    }
  }

  lemma FatalIs<M>(outcomes: seq<Outcome<M>>)
    ensures forall i :: 0 <= i < |outcomes| ==>
              (Fatal(outcomes, i) <==> outcomes[i].Failure? && Connecting(outcomes, i))
  {
  }

  lemma OffsetsFromStart<M>(offsets: seq<int>, outcomes: seq<Outcome<M>>)
    requires OffsetsRight(offsets, outcomes, [])
    ensures |offsets| <= |outcomes|
    ensures forall i :: 0 <= i < |offsets| ==> offsets[i] == OffsetAfter(Responses(outcomes[..i]))
  {
    hide OffsetAfter, Responses;
    forall i | 0 <= i < |offsets|
      ensures offsets[i] == OffsetAfter(Responses(outcomes[..i]))
    {
      assert [] + Responses(outcomes[..i]) == Responses(outcomes[..i]);
    }
  }
}
