/** Grid positions, 4-adjacency and walks through a set of allowed cells:
    the connectivity vocabulary of the area invariants and the flood fills. */
module Walks {

  datatype Pos = Pos(x: nat, y: nat)

  /** p and q are horizontal or vertical neighbours. */
  predicate Adjacent(p: Pos, q: Pos)
  {
    (p.x == q.x && (p.y + 1 == q.y || q.y + 1 == p.y)) ||
    (p.y == q.y && (p.x + 1 == q.x || q.x + 1 == p.x))
  }

  /** A non-empty sequence of positions, all in S, each adjacent to the next. */
  ghost predicate IsWalk(S: set<Pos>, w: seq<Pos>)
  {
    && |w| > 0
    && (forall i :: 0 <= i < |w| ==> w[i] in S)
    && (forall i :: 0 <= i < |w| - 1 ==> Adjacent(w[i], w[i + 1]))
  }

  /** a reaches b by a walk inside S. */
  ghost predicate Linked(S: set<Pos>, a: Pos, b: Pos)
  {
    exists w {:trigger IsWalk(S, w)} :: IsWalk(S, w) && w[0] == a && w[|w| - 1] == b
  }

  /** The part of S that a reaches inside S (empty when a is not in S). */
  ghost function Reach(S: set<Pos>, a: Pos): (R: set<Pos>)
    ensures R <= S
    ensures forall q :: q in R <==> q in S && Linked(S, a, q)
  {
    set q | q in S && Linked(S, a, q)
  }

  /** T is closed in S: no step inside S leaves T. */
  ghost predicate Closed(S: set<Pos>, T: set<Pos>)
  {
    forall p, q :: p in T && q in S && Adjacent(p, q) ==> q in T
  }

  lemma LinkedRefl(S: set<Pos>, a: Pos)
    requires a in S
    ensures Linked(S, a, a)
  {
    assert IsWalk(S, [a]);
  }

  lemma LinkedStep(S: set<Pos>, a: Pos, b: Pos)
    requires a in S && b in S && Adjacent(a, b)
    ensures Linked(S, a, b)
  {
    assert IsWalk(S, [a, b]);
  }

  lemma LinkedEnds(S: set<Pos>, a: Pos, b: Pos)
    requires Linked(S, a, b)
    ensures a in S && b in S
  {
    var w :| IsWalk(S, w) && w[0] == a && w[|w| - 1] == b;
  }

  lemma LinkedSymmetric(S: set<Pos>, a: Pos, b: Pos)
    requires Linked(S, a, b)
    ensures Linked(S, b, a)
  {
    var w :| IsWalk(S, w) && w[0] == a && w[|w| - 1] == b;
    var r := Reversed(w);
    forall i | 0 <= i < |r| - 1
      ensures Adjacent(r[i], r[i + 1])
    {
      var j := |w| - 2 - i;
      assert r[i] == w[j + 1] && r[i + 1] == w[j];
      assert Adjacent(w[j], w[j + 1]);
    }
    assert IsWalk(S, r);
  }

  function Reversed(w: seq<Pos>): (r: seq<Pos>)
    ensures |r| == |w|
    ensures forall i :: 0 <= i < |w| ==> r[i] == w[|w| - 1 - i]
  {
    seq(|w|, i requires 0 <= i < |w| => w[|w| - 1 - i])
  }

  lemma LinkedTrans(S: set<Pos>, a: Pos, b: Pos, c: Pos)
    requires Linked(S, a, b) && Linked(S, b, c)
    ensures Linked(S, a, c)
  {
    var w1 :| IsWalk(S, w1) && w1[0] == a && w1[|w1| - 1] == b;
    var w2 :| IsWalk(S, w2) && w2[0] == b && w2[|w2| - 1] == c;
    var w := w1 + w2[1..];
    assert forall i :: |w1| <= i < |w| ==> w[i] == w2[i - |w1| + 1];
    assert IsWalk(S, w);
  }

  /** A walk inside S stays inside any larger set. */
  lemma LinkedMono(S: set<Pos>, T: set<Pos>, a: Pos, b: Pos)
    requires Linked(S, a, b) && S <= T
    ensures Linked(T, a, b)
  {
    var w :| IsWalk(S, w) && w[0] == a && w[|w| - 1] == b;
    assert IsWalk(T, w);
  }

  /** Every walk from a cell of a closed set stays in it. */
  lemma {:induction false} WalkStaysClosed(S: set<Pos>, T: set<Pos>, w: seq<Pos>, k: nat)
    requires IsWalk(S, w) && Closed(S, T) && w[0] in T && k < |w|
    ensures w[k] in T
  {
    if k > 0 {
      WalkStaysClosed(S, T, w, k - 1);
      assert Adjacent(w[k - 1], w[k]);
    }
  }

  /** A closed set containing a contains everything a reaches. */
  lemma ReachInClosed(S: set<Pos>, T: set<Pos>, a: Pos)
    requires Closed(S, T) && a in T
    ensures Reach(S, a) <= T
  {
    forall q | q in Reach(S, a)
      ensures q in T
    {
      var w :| IsWalk(S, w) && w[0] == a && w[|w| - 1] == q;
      WalkStaysClosed(S, T, w, |w| - 1);
    }
  }

  /** What a reaches is closed in S. */
  lemma ReachClosed(S: set<Pos>, a: Pos)
    ensures Closed(S, Reach(S, a))
  {
    forall p, q | p in Reach(S, a) && q in S && Adjacent(p, q)
      ensures q in Reach(S, a)
    {
      LinkedStep(S, p, q);
      LinkedTrans(S, a, p, q);
    }
  }

  /** Linked cells reach the same cells. */
  lemma ReachSame(S: set<Pos>, a: Pos, b: Pos)
    requires Linked(S, a, b)
    ensures Reach(S, a) == Reach(S, b)
  {
    LinkedSymmetric(S, a, b);
    forall q | q in Reach(S, b) ensures q in Reach(S, a) { LinkedTrans(S, a, b, q); }
    forall q | q in Reach(S, a) ensures q in Reach(S, b) { LinkedTrans(S, b, a, q); }
  }

  /** A reached cell is linked to a inside the reached set itself. */
  lemma LinkedWithinReach(S: set<Pos>, a: Pos, q: Pos)
    requires q in Reach(S, a)
    ensures Linked(Reach(S, a), a, q)
  {
    var w :| IsWalk(S, w) && w[0] == a && w[|w| - 1] == q;
    forall i | 0 <= i < |w|
      ensures w[i] in Reach(S, a)
    {
      var pre := w[..i + 1];
      assert IsWalk(S, pre);
    }
    assert IsWalk(Reach(S, a), w);
  }

  /** Reaching inside a smaller set reaches inside the larger one too. */
  lemma ReachMono(S: set<Pos>, T: set<Pos>, a: Pos)
    requires S <= T
    ensures Reach(S, a) <= Reach(T, a)
  {
    forall q | q in Reach(S, a) ensures q in Reach(T, a) { LinkedMono(S, T, a, q); }
  }

  /** A cell of S with no neighbour in S reaches only itself. */
  lemma IsolatedLinked(S: set<Pos>, c: Pos, b: Pos)
    requires c in S
    requires forall q :: q in S ==> !Adjacent(c, q)
    requires Linked(S, c, b)
    ensures b == c
  {
    LinkedEnds(S, c, b);
    assert Closed(S, {c});
    ReachInClosed(S, {c}, c);
    assert b in Reach(S, c);
  }

  /** The cells D met so far by a flood from p through S: all reached from p,
      and closed in S everywhere except at p itself. */
  ghost predicate FloodSoFar(S: set<Pos>, p: Pos, D: set<Pos>)
  {
    && p in D && D <= Reach(S, p)
    && forall q, r :: q in D && q != p && r in S && Adjacent(q, r) ==> r in D
  }

  /** Flooding one more neighbour n of p through what is left of S keeps the
      flood sound and closed, and takes n in when n is in S. */
  lemma FloodStep(S: set<Pos>, p: Pos, D: set<Pos>, n: Pos)
    requires FloodSoFar(S, p, D) && Adjacent(p, n)
    ensures FloodSoFar(S, p, D + Reach(S - D, n))
    ensures n in S ==> n in D + Reach(S - D, n)
  {
    var Nn := Reach(S - D, n);
    if n in S - D {
      LinkedRefl(S - D, n);
      LinkedStep(S, p, n);
      ReachSame(S, p, n);
      ReachMono(S - D, S, n);
    }
    ReachClosed(S - D, n);
    forall q, r | q in D + Nn && q != p && r in S && Adjacent(q, r)
      ensures r in D + Nn
    {
      if q in Nn && r !in D {
        assert r in S - D;
      }
    }
  }

  /** A flood that has tried every neighbour of p in S has reached all that p reaches. */
  lemma FloodDone(S: set<Pos>, p: Pos, D: set<Pos>)
    requires FloodSoFar(S, p, D)
    requires forall r :: r in S && Adjacent(p, r) ==> r in D
    ensures D == Reach(S, p)
  {
    assert Closed(S, D);
    ReachInClosed(S, D, p);
  }

  /** The flood starts at p alone. */
  lemma FloodStart(S: set<Pos>, p: Pos)
    requires p in S
    ensures FloodSoFar(S, p, {p})
  {
    LinkedRefl(S, p);
  }
}
