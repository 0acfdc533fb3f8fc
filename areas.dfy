/** Areas: the maximal 4-connected groups of one player's fields. The engine
    counts them per player and keeps one union-find class per area. */
module Areas {
  import opened Walks
  import opened Grid
  import opened Forest

  /** a and c lie in one area: the same field, or two fields of one player
      joined by a walk through that player's fields. */
  ghost predicate SameArea(b: Board, a: Pos, c: Pos)
    requires InB(b, a) && InB(b, c)
  {
    a == c || (Owner(b, a) != 0 && Owner(b, c) == Owner(b, a) && Linked(Owned(b, Owner(b, a)), a, c))
  }

  /** The union-find classes are exactly the areas; an empty field is a class of its own. */
  ghost predicate Partition(b: Board)
    requires IsForest(b)
  {
    forall a, c {:trigger Find(b, a), Find(b, c)} :: InB(b, a) && InB(b, c) ==> (Find(b, a) == Find(b, c) <==> SameArea(b, a, c))
  }

  /** The areas (components) of a set of fields. */
  ghost function Comps(S: set<Pos>): set<set<Pos>>
  {
    set q | q in S :: Reach(S, q)
  }

  /** The areas of S that touch the field c. */
  ghost function CompsAround(S: set<Pos>, c: Pos): set<set<Pos>>
  {
    set n | n in S && Adjacent(c, n) :: Reach(S, n)
  }

  /** Two fields of S are linked exactly when they reach the same fields. */
  lemma LinkedIffSameReach(S: set<Pos>, a: Pos, c: Pos)
    requires a in S && c in S
    ensures Linked(S, a, c) <==> Reach(S, a) == Reach(S, c)
  {
    if Linked(S, a, c) {
      ReachSame(S, a, c);
    }
    if Reach(S, a) == Reach(S, c) {
      LinkedRefl(S, c);
      assert c in Reach(S, c);
    }
  }

  lemma ReachHasSelf(S: set<Pos>, a: Pos)
    requires a in S
    ensures a in Reach(S, a)
  {
    LinkedRefl(S, a);
  }

  /** A component not touching c is closed in S + {c}, so it is still a whole component there. */
  lemma ReachAwayFromCell(S: set<Pos>, c: Pos, q: Pos)
    requires c !in S && q in S && Reach(S, q) !in CompsAround(S, c)
    ensures Reach(S + {c}, q) == Reach(S, q)
  {
    var T := S + {c};
    var R := Reach(S, q);
    forall p, r | p in R && r in T && Adjacent(p, r)
      ensures r in R
    {
      if r == c {
        ReachSame(S, q, p);
        assert false;
      } else {
        ReachClosed(S, q);
      }
    }
    assert Closed(T, R);
    ReachHasSelf(S, q);
    ReachInClosed(T, R, q);
    ReachMono(S, T, q);
  }

  /** A component touching c is swallowed by the component of c in S + {c}. */
  lemma ReachNearCell(S: set<Pos>, c: Pos, q: Pos)
    requires c !in S && q in S && Reach(S, q) in CompsAround(S, c)
    ensures Reach(S + {c}, q) == Reach(S + {c}, c)
  {
    var T := S + {c};
    var n :| n in S && Adjacent(c, n) && Reach(S, n) == Reach(S, q);
    ReachHasSelf(S, q);
    assert Linked(S, n, q);
    LinkedSymmetric(S, n, q);
    LinkedMono(S, T, q, n);
    LinkedStep(T, n, c);
    LinkedTrans(T, q, n, c);
    ReachSame(T, q, c);
  }

  /** Adding a field c to S joins the areas touching c into one: the count
      drops by their number and grows by one. */
  lemma AddCell(S: set<Pos>, c: Pos)
    requires c !in S
    ensures CompsAround(S, c) <= Comps(S)
    ensures |Comps(S + {c})| == |Comps(S)| - |CompsAround(S, c)| + 1
  {
    var T := S + {c};
    var C := Reach(T, c);
    var A := CompsAround(S, c);
    var rest := Comps(S) - A;
    forall X | X in Comps(T) ensures X in {C} + rest {
      var q :| q in T && Reach(T, q) == X;
      if q != c {
        if Reach(S, q) in A {
          ReachNearCell(S, c, q);
        } else {
          ReachAwayFromCell(S, c, q);
        }
      }
    }
    forall X | X in {C} + rest ensures X in Comps(T) {
      if X == C {
        ReachHasSelf(T, c);
      } else {
        var q :| q in S && Reach(S, q) == X;
        ReachAwayFromCell(S, c, q);
      }
    }
    assert Comps(T) == {C} + rest;
    ReachHasSelf(T, c);
    assert C !in rest;
    assert A <= Comps(S);
  }

  /** Removing a field c of S: the areas of S - {c} are the old ones, less the
      area of c, plus the pieces it falls into around c. */
  lemma RemoveCell(S: set<Pos>, c: Pos)
    requires c in S
    ensures |Comps(S - {c})| == |Comps(S)| - 1 + |CompsAround(S - {c}, c)|
  {
    AddCell(S - {c}, c);
    assert S - {c} + {c} == S;
  }

  /** The distinct areas among the fields of N. */
  ghost function ReachOf(S: set<Pos>, N: set<Pos>): set<set<Pos>>
  {
    set n | n in N :: Reach(S, n)
  }

  lemma Absorb<T>(A: set<T>, x: T)
    requires x in A
    ensures A + {x} == A
  {
  }

  lemma ReachOfSplit(S: set<Pos>, N: set<Pos>, n: Pos)
    requires n in N
    ensures ReachOf(S, N) == ReachOf(S, N - {n}) + {Reach(S, n)}
  {
  }

  /** Finds and reaches identify the same fields of N. */
  ghost predicate SameImage(b: Board, S: set<Pos>, N: set<Pos>)
    requires IsForest(b)
  {
    && (forall n :: n in N ==> InB(b, n))
    && forall n1, n2 {:trigger Find(b, n1), Find(b, n2)} :: n1 in N && n2 in N ==>
         (Find(b, n1) == Find(b, n2) <==> Reach(S, n1) == Reach(S, n2))
  }

  /** When finds and reaches agree on which fields of N they identify, they
      count the same number of classes. */
  lemma {:induction false} SameImageCard(b: Board, S: set<Pos>, N: set<Pos>)
    requires IsForest(b) && SameImage(b, S, N)
    ensures |Roots(b, N)| == |ReachOf(S, N)|
    decreases |N|
  {
    if N != {} {
      var n :| n in N;
      SameImageSub(b, S, N, n);
      SameImageCard(b, S, N - {n});
      SameImageStep(b, S, N, n);
    }
  }

  lemma SameImageSub(b: Board, S: set<Pos>, N: set<Pos>, n: Pos)
    requires IsForest(b) && SameImage(b, S, N)
    ensures SameImage(b, S, N - {n})
  {
  }

  /** Taking n out of N takes one class out of both counts or none out of either. */
  lemma SameImageStep(b: Board, S: set<Pos>, N: set<Pos>, n: Pos)
    requires IsForest(b) && SameImage(b, S, N) && n in N
    ensures |Roots(b, N)| - |Roots(b, N - {n})| == |ReachOf(S, N)| - |ReachOf(S, N - {n})|
  {
    var N' := N - {n};
    RootsSplit(b, N, n);
    ReachOfSplit(S, N, n);
    CardAdd(Roots(b, N'), Find(b, n));
    CardAdd(ReachOf(S, N'), Reach(S, n));
    SharedClass(b, S, N, n);
  }

  lemma CardAdd<T>(A: set<T>, x: T)
    ensures |A + {x}| == if x in A then |A| else |A| + 1
  {
    if x in A {
      assert A + {x} == A;
    }
  }

  /** n shares its class with another field of N exactly when it shares its area. */
  lemma SharedClass(b: Board, S: set<Pos>, N: set<Pos>, n: Pos)
    requires IsForest(b) && SameImage(b, S, N) && n in N
    ensures Find(b, n) in Roots(b, N - {n}) <==> Reach(S, n) in ReachOf(S, N - {n})
  {
    var N' := N - {n};
    if Find(b, n) in Roots(b, N') {
      var m :| m in N' && InB(b, m) && Find(b, m) == Find(b, n);
      assert Reach(S, m) == Reach(S, n);
    }
    if Reach(S, n) in ReachOf(S, N') {
      var m :| m in N' && Reach(S, m) == Reach(S, n);
      assert Find(b, m) == Find(b, n);
      RootsHas(b, N', m);
    }
  }
}
