/** The live part of a chain of nodes of which some are dead but still linked. */
module LiveNodes {
  import opened Common

  /** The nodes of chain that are not dead, in order. */
  ghost function Live<T>(chain: seq<T>, dead: set<T>): seq<T> {
    if chain == [] then []
    else if chain[0] in dead then Live(chain[1..], dead)
    else [chain[0]] + Live(chain[1..], dead)
  }

  lemma LiveStep<T>(first: T, rest: seq<T>, dead: set<T>)
    ensures Live([first] + rest, dead) == (if first in dead then [] else [first]) + Live(rest, dead)
  {
    assert ([first] + rest)[1..] == rest;
  }

  lemma LiveNone<T>(dead: set<T>)
    ensures Live<T>([], dead) == []
  {
  }

  lemma {:induction false} LiveConcat<T>(a: seq<T>, b: seq<T>, dead: set<T>)
    ensures Live(a + b, dead) == Live(a, dead) + Live(b, dead)
  {
    hide Live;
    if a == [] {
      assert a + b == b;
      LiveNone<T>(dead);
    } else {
      LiveConcat(a[1..], b, dead);
      LiveStep(a[0], a[1..] + b, dead);
      LiveStep(a[0], a[1..], dead);
      assert a + b == [a[0]] + (a[1..] + b) && a == [a[0]] + a[1..];
    }
  }

  lemma {:induction false} LiveMember<T>(chain: seq<T>, dead: set<T>, x: T)
    ensures x in Live(chain, dead) <==> x in chain && x !in dead
  {
    if chain != [] {
      LiveMember(chain[1..], dead, x);
      assert x in chain <==> x == chain[0] || x in chain[1..];
    }
  }

  ghost predicate LastIs<T>(chain: seq<T>, dead: set<T>, x: T) {
    var l := Live(chain, dead);
    l != [] && l[|l| - 1] == x
  }

  lemma {:induction false} LiveSame<T>(chain: seq<T>, dead: set<T>, dead': set<T>)
    requires forall x :: x in chain ==> (x in dead <==> x in dead')
    ensures Live(chain, dead) == Live(chain, dead')
  {
    if chain != [] {
      assert chain[0] in chain && forall x :: x in chain[1..] ==> x in chain;
      LiveSame(chain[1..], dead, dead');
    }
  }

  /** The live sequence around a live node. */
  lemma LiveAround<T>(chain: seq<T>, dead: set<T>, p: nat)
    requires p < |chain| && chain[p] !in dead
    ensures Live(chain, dead) == Live(chain[..p], dead) + [chain[p]] + Live(chain[p + 1..], dead)
  {
    assert chain == chain[..p] + [chain[p]] + chain[p + 1..];
    LiveConcat(chain[..p] + [chain[p]], chain[p + 1..], dead);
    LiveConcat(chain[..p], [chain[p]], dead);
    assert Live([chain[p]], dead) == [chain[p]] + Live([chain[p]][1..], dead);
  }

  lemma {:induction false} AllLive<T>(chain: seq<T>, dead: set<T>)
    requires forall i :: 0 <= i < |chain| ==> chain[i] !in dead
    ensures Live(chain, dead) == chain
  {
    if chain != [] {
      AllLive(chain[1..], dead);
    }
  }

  lemma LivePassed<T>(chain: seq<T>, dead: set<T>, a: nat, b: nat)
    requires a <= b <= |chain| && forall i :: a <= i < b ==> chain[i] !in dead
    ensures Live(chain[a..], dead) == chain[a..b] + Live(chain[b..], dead)
  {
    hide Live;
    assert chain[a..] == chain[a..b] + chain[b..];
    LiveConcat(chain[a..b], chain[b..], dead);
    AllLive(chain[a..b], dead);
  }

  /** The live nodes from p on start with the one at p, or there are none behind the end. */
  lemma LiveFront<T>(chain: seq<T>, dead: set<T>, p: nat)
    requires p <= |chain| && (p < |chain| ==> chain[p] !in dead)
    ensures var l := Live(chain[p..], dead);
            if p < |chain| then l != [] && l[0] == chain[p] else l == []
  {
  }

  /** Chains with the same live nodes and the same first nodes have the same live rest. */
  lemma LiveRest<T>(was: seq<T>, now: seq<T>, dead: set<T>, k: nat)
    requires k <= |was| && k <= |now| && was[..k] == now[..k] && Live(was, dead) == Live(now, dead)
    ensures Live(was[k..], dead) == Live(now[k..], dead)
  {
    LiveConcat(was[..k], was[k..], dead);
    LiveConcat(now[..k], now[k..], dead);
    assert was == was[..k] + was[k..] && now == now[..k] + now[k..];
    var a, b, c := Live(was[..k], dead), Live(was[k..], dead), Live(now[k..], dead);
    assert b == (a + b)[|a|..] && c == (a + c)[|a|..];
  }

  /** chain without the node at p. */
  ghost function Without<T>(chain: seq<T>, p: nat): seq<T>
    requires p < |chain|
  {
    chain[..p] + chain[p + 1..]
  }

  /** chain with x between p and p + 1. */
  ghost function With<T>(chain: seq<T>, p: nat, x: T): seq<T>
    requires p < |chain|
  {
    chain[..p + 1] + [x] + chain[p + 1..]
  }

  /** Unlinking a dead node changes no live node. */
  lemma UnlinkDead<T>(chain: seq<T>, dead: set<T>, p: nat)
    requires p < |chain| && chain[p] in dead
    ensures Live(Without(chain, p), dead) == Live(chain, dead)
  {
    assert chain == chain[..p] + ([chain[p]] + chain[p + 1..]);
    LiveConcat(chain[..p], [chain[p]] + chain[p + 1..], dead);
    LiveConcat([chain[p]], chain[p + 1..], dead);
    LiveConcat(chain[..p], chain[p + 1..], dead);
    assert Live([chain[p]], dead) == Live([chain[p]][1..], dead) == [];
  }

  lemma WithoutFacts<T>(chain: seq<T>, p: nat)
    requires p < |chain| && Distinct(chain)
    ensures Distinct(Without(chain, p))
    ensures forall x :: x in Without(chain, p) <==> x in chain && x != chain[p]
  {
    var w := Without(chain, p);
    forall x | x in chain && x != chain[p]
      ensures x in w
    {
      var i :| 0 <= i < |chain| && chain[i] == x;
      assert if i < p then w[i] == x else w[i - 1] == x;
    }
  }

  lemma WithFacts<T>(chain: seq<T>, p: nat, x: T)
    requires p < |chain| && Distinct(chain) && x !in chain
    ensures Distinct(With(chain, p, x))
    ensures forall y :: y in With(chain, p, x) <==> y in chain || y == x
  {
    var w := With(chain, p, x);
    forall y | y in chain
      ensures y in w
    {
      var i :| 0 <= i < |chain| && chain[i] == y;
      assert if i <= p then w[i] == y else w[i + 1] == y;
    }
  }

  /** A new node after the live node at p. */
  lemma InsertLive<T>(chain: seq<T>, dead: set<T>, p: nat, x: T)
    requires p < |chain| && chain[p] !in dead && x !in dead
    ensures Live(With(chain, p, x), dead)
         == Live(chain[..p], dead) + [chain[p], x] + Live(chain[p + 1..], dead)
  {
    var w := With(chain, p, x);
    LiveAround(w, dead, p);
    LiveAround(w[p + 1..], dead, 0);
    assert w[..p] == chain[..p] && w[p + 1..][..0] == [];
    assert w[p + 1..][1..] == chain[p + 1..];
  }

  /** The new node is the last live one exactly when it follows the old last one. */
  lemma InsertLast<T>(chain: seq<T>, dead: set<T>, p: nat, x: T, last: T)
    requires p < |chain| && Distinct(chain) && chain[p] !in dead
    requires x !in chain && x !in dead && LastIs(chain, dead, last)
    ensures |Live(With(chain, p, x), dead)| == |Live(chain, dead)| + 1
    ensures LastIs(With(chain, p, x), dead, if last == chain[p] then x else last)
  {
    InsertLive(chain, dead, p, x);
    LiveAround(chain, dead, p);
    AfterLast(chain, dead, p, last);
  }

  lemma AfterLast<T>(chain: seq<T>, dead: set<T>, p: nat, last: T)
    requires p < |chain| && Distinct(chain) && chain[p] !in dead && LastIs(chain, dead, last)
    ensures last == chain[p] <==> Live(chain[p + 1..], dead) == []
  {
    var rest := Live(chain[p + 1..], dead);
    LiveAround(chain, dead, p);
    if rest != [] {
      assert last == rest[|rest| - 1];
      LiveMember(chain[p + 1..], dead, last);
    }
  }

  /** Killing the node after the live node at p takes it out of the live sequence. */
  lemma KillLive<T>(chain: seq<T>, dead: set<T>, p: nat)
    requires p + 1 < |chain| && Distinct(chain) && chain[p] !in dead && chain[p + 1] !in dead
    ensures Live(chain, dead) == Live(chain[..p], dead) + [chain[p], chain[p + 1]] + Live(chain[p + 2..], dead)
    ensures Live(chain, dead + {chain[p + 1]}) == Live(chain[..p], dead) + [chain[p]] + Live(chain[p + 2..], dead)
  {
    hide Live;
    var dead' := dead + {chain[p + 1]};
    LiveAround(chain, dead, p);
    LiveAround(chain, dead', p);
    LiveSame(chain[..p], dead, dead');
    LiveSame(chain[p + 2..], dead, dead');
    assert chain[p + 1..] == [chain[p + 1]] + chain[p + 2..];
    LiveStep(chain[p + 1], chain[p + 2..], dead);
    LiveStep(chain[p + 1], chain[p + 2..], dead');
  }

  lemma KillLast<T>(chain: seq<T>, dead: set<T>, p: nat, last: T)
    requires p + 1 < |chain| && Distinct(chain) && chain[p] !in dead && chain[p + 1] !in dead
    requires LastIs(chain, dead, last)
    ensures |Live(chain, dead + {chain[p + 1]})| == |Live(chain, dead)| - 1
    ensures LastIs(chain, dead + {chain[p + 1]}, if last == chain[p + 1] then chain[p] else last)
  {
    KillLive(chain, dead, p);
    AfterLast(chain, dead, p + 1, last);
  }
}
