/** What the flood fills do to the board, stated on values: which fields they
    rewrite and how, and how the set of fields a flood can still enter
    shrinks as it goes. */
module Floods {
  import opened Walks
  import opened Grid
  import opened Forest

  /** A field after RemoveUnionOnAdjacent has passed: its own root, of size
      one, marked visited; the owner is kept. */
  function Singleton(c: Cell, q: Pos): Cell
  {
    c.(parentX := q.x, parentY := q.y, size := 1, visited := true)
  }

  /** b is b0 with exactly the fields of N made singletons. */
  ghost predicate ResetOn(b0: Board, b: Board, N: set<Pos>)
  {
    && SameShape(b0, b)
    && forall q {:trigger At(b, q)} :: InB(b0, q) ==> InB(b, q) && At(b, q) == if q in N then Singleton(At(b0, q), q) else At(b0, q)
  }

  /** b is b0 with exactly the visited flags of N cleared. */
  ghost predicate ClearedOn(b0: Board, b: Board, N: set<Pos>)
  {
    && SameShape(b0, b)
    && forall q {:trigger At(b, q)} :: InB(b0, q) ==> InB(b, q) && At(b, q) == if q in N then At(b0, q).(visited := false) else At(b0, q)
  }

  /** b agrees with b0 on owners, and the visited flags of N are set on top of those of b0. */
  ghost predicate MarkedOn(b0: Board, b: Board, N: set<Pos>)
  {
    && SameShape(b0, b)
    && forall q {:trigger At(b, q)} :: InB(b0, q) ==> InB(b, q) && At(b, q).playerNumber == At(b0, q).playerNumber && At(b, q).visited == (At(b0, q).visited || q in N)
  }

  /** The visited fields of player pl. */
  ghost function VisitedOf(b: Board, pl: nat): (r: set<Pos>)
    ensures forall q :: q in r <==> InB(b, q) && Owner(b, q) == pl && At(b, q).visited
  {
    set x: nat, y: nat | x < |b| && y < |b[x]| && b[x][y].playerNumber == pl && b[x][y].visited :: Pos(x, y)
  }

  /** Every visited field, whatever its owner. */
  ghost function AllVisited(b: Board): (r: set<Pos>)
    ensures forall q :: q in r <==> InB(b, q) && At(b, q).visited
  {
    set x: nat, y: nat | x < |b| && y < |b[x]| && b[x][y].visited :: Pos(x, y)
  }

  lemma ResetOnNone(b: Board)
    ensures ResetOn(b, b, {}) && ClearedOn(b, b, {}) && MarkedOn(b, b, {})
  {
  }

  /** Resetting the single field p. */
  lemma ResetOnPut(b0: Board, p: Pos)
    requires InB(b0, p)
    ensures ResetOn(b0, Put(b0, p, Singleton(At(b0, p), p)), {p})
  {
  }

  lemma ResetOnTrans(b0: Board, b1: Board, b2: Board, N1: set<Pos>, N2: set<Pos>)
    requires ResetOn(b0, b1, N1) && ResetOn(b1, b2, N2) && N1 !! N2
    ensures ResetOn(b0, b2, N1 + N2)
  {
    forall x | 0 <= x < |b0| ensures |b2[x]| == |b0[x]| {
      assert |b1[x]| == |b0[x]|;
    }
    forall q | InB(b0, q)
      ensures InB(b2, q) && At(b2, q) == if q in N1 + N2 then Singleton(At(b0, q), q) else At(b0, q)
    {
      assert InB(b1, q) && At(b1, q) == if q in N1 then Singleton(At(b0, q), q) else At(b0, q);
      assert At(b2, q) == if q in N2 then Singleton(At(b1, q), q) else At(b1, q);
    }
  }

  lemma ClearedOnTrans(b0: Board, b1: Board, b2: Board, N1: set<Pos>, N2: set<Pos>)
    requires ClearedOn(b0, b1, N1) && ClearedOn(b1, b2, N2) && N1 !! N2
    ensures ClearedOn(b0, b2, N1 + N2)
  {
    forall x | 0 <= x < |b0| ensures |b2[x]| == |b0[x]| {
      assert |b1[x]| == |b0[x]|;
    }
    forall q | InB(b0, q)
      ensures InB(b2, q) && At(b2, q) == if q in N1 + N2 then At(b0, q).(visited := false) else At(b0, q)
    {
      assert InB(b1, q) && At(b1, q) == if q in N1 then At(b0, q).(visited := false) else At(b0, q);
      assert At(b2, q) == if q in N2 then At(b1, q).(visited := false) else At(b1, q);
    }
  }

  lemma MarkedOnTrans(b0: Board, b1: Board, b2: Board, N1: set<Pos>, N2: set<Pos>)
    requires MarkedOn(b0, b1, N1) && MarkedOn(b1, b2, N2)
    ensures MarkedOn(b0, b2, N1 + N2)
  {
    forall x | 0 <= x < |b0| ensures |b2[x]| == |b0[x]| {
      assert |b1[x]| == |b0[x]|;
    }
    forall q | InB(b0, q)
      ensures InB(b2, q) && At(b2, q).playerNumber == At(b0, q).playerNumber && At(b2, q).visited == (At(b0, q).visited || q in N1 + N2)
    {
      assert InB(b1, q) && At(b1, q).playerNumber == At(b0, q).playerNumber && At(b1, q).visited == (At(b0, q).visited || q in N1);
      assert At(b2, q).playerNumber == At(b1, q).playerNumber && At(b2, q).visited == (At(b1, q).visited || q in N2);
    }
  }

  /** Making fields of pl's open set singletons closes them to later floods. */
  lemma ResetOpen(b0: Board, b: Board, pl: nat, N: set<Pos>)
    requires ResetOn(b0, b, N) && N <= Open(b0, pl)
    ensures Open(b, pl) == Open(b0, pl) - N
  {
    forall q | q in Open(b, pl) ensures q in Open(b0, pl) - N {
      assert q.x < |b0| && q.y < |b0[q.x]|;
    }
  }

  /** Marking fields of pl's open set closes them to later floods. */
  lemma MarkedOpen(b0: Board, b: Board, pl: nat, N: set<Pos>)
    requires MarkedOn(b0, b, N)
    ensures Open(b, pl) == Open(b0, pl) - N
  {
    forall q | q in Open(b, pl) ensures q in Open(b0, pl) - N {
      assert q.x < |b0| && q.y < |b0[q.x]|;
      assert At(b, q).playerNumber == At(b0, q).playerNumber;
    }
    forall q | q in Open(b0, pl) - N ensures q in Open(b, pl) {
      assert At(b, q).playerNumber == At(b0, q).playerNumber;
    }
  }

  /** Clearing visited flags of pl's fields takes them out of pl's visited set. */
  lemma ClearedVisited(b0: Board, b: Board, pl: nat, N: set<Pos>)
    requires ClearedOn(b0, b, N)
    ensures VisitedOf(b, pl) == VisitedOf(b0, pl) - N
    ensures AllVisited(b) == AllVisited(b0) - N
  {
    forall q | q in VisitedOf(b, pl) ensures q in VisitedOf(b0, pl) - N {
      assert q.x < |b0| && q.y < |b0[q.x]|;
    }
    forall q | q in VisitedOf(b0, pl) - N ensures q in VisitedOf(b, pl) {
      assert At(b, q) == At(b0, q);
    }
    ClearedAll(b0, b, N);
  }

  lemma ClearedAll(b0: Board, b: Board, N: set<Pos>)
    requires ClearedOn(b0, b, N)
    ensures AllVisited(b) == AllVisited(b0) - N
  {
    forall q | q in AllVisited(b) ensures q in AllVisited(b0) - N {
      assert q.x < |b0| && q.y < |b0[q.x]|;
    }
    forall q | q in AllVisited(b0) - N ensures q in AllVisited(b) {
      assert At(b, q) == At(b0, q);
    }
  }

  /** A flood from outside its set reaches nothing. */
  lemma ReachOutside(S: set<Pos>, n: Pos)
    requires n !in S
    ensures Reach(S, n) == {}
  {
    forall q | q in Reach(S, n) ensures false {
      LinkedEnds(S, n, q);
    }
  }

  /** Taking out a part that holds p leaves at most what taking out p alone leaves. */
  lemma ShrinksBelow(S: set<Pos>, D: set<Pos>, p: Pos)
    requires p in D
    ensures |S - D| <= |S - {p}|
  {
    var A := S - D;
    var B := S - {p};
    assert A <= B;
    assert B * A == A;
  }

  /** Taking out a non-empty part of a finite set makes it smaller. */
  lemma Shrinks(S: set<Pos>, D: set<Pos>, p: Pos)
    requires p in S && p in D
    ensures |S - D| < |S|
  {
    assert p in S * D;
  }

  /** A flood that tried the on-board neighbours of p, left, right, below and
      above, has tried every neighbour of p in S. */
  lemma TriedAround(b: Board, w: nat, h: nat, S: set<Pos>, p: Pos, D: set<Pos>)
    requires Rect(b, w, h) && forall q :: q in S ==> InB(b, q)
    requires p.x > 0 ==> (Pos(p.x - 1, p.y) in S ==> Pos(p.x - 1, p.y) in D)
    requires p.x + 1 < w ==> (Pos(p.x + 1, p.y) in S ==> Pos(p.x + 1, p.y) in D)
    requires p.y > 0 ==> (Pos(p.x, p.y - 1) in S ==> Pos(p.x, p.y - 1) in D)
    requires p.y + 1 < h ==> (Pos(p.x, p.y + 1) in S ==> Pos(p.x, p.y + 1) in D)
    ensures forall r :: r in S && Adjacent(p, r) ==> r in D
  {
    forall r | r in S && Adjacent(p, r) ensures r in D {
      assert InB(b, r);
    }
  }

  /** Marking the single field p. */
  lemma MarkedOnPut(b0: Board, p: Pos)
    requires InB(b0, p)
    ensures MarkedOn(b0, Put(b0, p, At(b0, p).(visited := true)), {p})
    ensures SameLinks(b0, Put(b0, p, At(b0, p).(visited := true)))
  {
  }

  /** Union steps after a marking keep owners and flags. */
  lemma MarkedOnLinks(b0: Board, b1: Board, b2: Board, N: set<Pos>)
    requires MarkedOn(b0, b1, N) && OnlyLinks(b1, b2)
    ensures MarkedOn(b0, b2, N)
  {
    forall x | 0 <= x < |b0| ensures |b2[x]| == |b0[x]| {
      assert |b1[x]| == |b0[x]|;
    }
    forall q | InB(b0, q)
      ensures InB(b2, q) && At(b2, q).playerNumber == At(b0, q).playerNumber && At(b2, q).visited == (At(b0, q).visited || q in N)
    {
      assert InB(b1, q) && At(b1, q).playerNumber == At(b0, q).playerNumber && At(b1, q).visited == (At(b0, q).visited || q in N);
      assert Owner(b2, q) == Owner(b1, q) && At(b2, q).visited == At(b1, q).visited;
    }
  }

  /** Clearing the single field p. */
  lemma ClearedOnPut(b0: Board, p: Pos)
    requires InB(b0, p)
    ensures ClearedOn(b0, Put(b0, p, At(b0, p).(visited := false)), {p})
  {
  }

  /** The fields RemoveVisited clears from p: none when p is off the board or
      not visited, otherwise p and the visited fields of pl a flood from p reaches. */
  ghost function Cleared(b: Board, pl: nat, p: Pos): set<Pos>
  {
    if InB(b, p) && At(b, p).visited then Reach(VisitedOf(b, pl) + {p}, p) else {}
  }

  /** Once the flood from p has cleared D, a recursive call at a neighbour n of
      pl clears what is left of the flood's set around n. */
  lemma ClearStep(b0: Board, b1: Board, pl: nat, p: Pos, D: set<Pos>, n: Pos)
    requires ClearedOn(b0, b1, D) && p in D && D <= VisitedOf(b0, pl) + {p}
    requires InB(b1, n) && Owner(b1, n) == pl
    ensures Cleared(b1, pl, n) == Reach(VisitedOf(b0, pl) + {p} - D, n)
  {
    ClearedVisited(b0, b1, pl, D);
    var V1 := VisitedOf(b1, pl);
    assert VisitedOf(b0, pl) + {p} - D == V1;
    if At(b1, n).visited {
      assert n in V1;
      assert V1 + {n} == V1;
    } else {
      ReachOutside(V1, n);
    }
  }
}
