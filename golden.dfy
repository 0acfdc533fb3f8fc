/** What the golden move does to the areas of the player who loses a field:
    the area of the field falls apart into singletons, the field is emptied,
    and the floods from its neighbours join the pieces again, one class per
    area of what is left. */
module Golden {
  import opened Walks
  import opened Grid
  import opened Forest
  import opened Areas
  import opened Floods
  import opened UnionFind

  /** The area holding p: the fields of p's owner that p reaches. */
  ghost function AreaOf(b: Board, p: Pos): set<Pos>
    requires InB(b, p)
  {
    Reach(Owned(b, Owner(b, p)), p)
  }

  /** The field q of b0 once RemoveUnionOnAdjacent, RemoveVisited and
      ResetBoardElement have passed at p, when A is their flood: the fields of
      A are singletons again with their flags cleared, and p is an empty
      singleton. */
  function SplitCell(b0: Board, p: Pos, A: set<Pos>, q: Pos): Cell
    requires InB(b0, q)
  {
    if q == p then Cell(0, p.x, p.y, 1, false)
    else if q in A then At(b0, q).(parentX := q.x, parentY := q.y, size := 1, visited := false)
    else At(b0, q)
  }

  ghost predicate Split(b0: Board, b: Board, p: Pos, A: set<Pos>)
  {
    && SameShape(b0, b) && InB(b0, p)
    && forall q {:trigger At(b, q)} :: InB(b0, q) ==> (InB(b, q) && At(b, q) == SplitCell(b0, p, A, q))
  }

  /** The fields of A are roots of b, and every other field has the root it had in b0. */
  ghost predicate Rooted(b0: Board, b: Board, A: set<Pos>)
    requires IsForest(b0) && IsForest(b)
  {
    forall q {:trigger Find(b, q)} :: InB(b0, q) ==> InB(b, q) && Find(b, q) == if q in A then q else Find(b0, q)
  }

  /** The fields of S that a field of S reaches form a set in which it reaches them all. */
  lemma ReachOfReach(S: set<Pos>, p: Pos)
    requires p in S
    ensures Reach(Reach(S, p), p) == Reach(S, p)
  {
    ReachMono(Reach(S, p), S, p);
    forall q | q in Reach(S, p) ensures q in Reach(Reach(S, p), p) {
      LinkedWithinReach(S, p, q);
    }
  }

  /** With no flags set, a flood may enter every field of pl. */
  lemma OpenIsOwned(b: Board, pl: nat)
    requires NoneVisited(b)
    ensures Open(b, pl) == Owned(b, pl)
  {
  }

  /** The area of p is the union-find class of p. */
  lemma AreaIsClass(b: Board, p: Pos, q: Pos)
    requires IsForest(b) && Partition(b) && InB(b, p) && Owner(b, p) != 0 && InB(b, q)
    ensures q in AreaOf(b, p) <==> Find(b, q) == Find(b, p)
  {
    var S := Owned(b, Owner(b, p));
    if q in AreaOf(b, p) {
      LinkedSymmetric(S, p, q);
      assert SameArea(b, q, p);
    }
    if Find(b, q) == Find(b, p) {
      assert SameArea(b, q, p);
      if q == p {
        ReachHasSelf(S, p);
      } else {
        LinkedSymmetric(S, q, p);
      }
    }
  }

  /** Outside the area of p, neither a parent nor a root lies in it. */
  lemma OutsideArea(b: Board, p: Pos, q: Pos)
    requires IsForest(b) && Partition(b) && InB(b, p) && Owner(b, p) != 0 && InB(b, q)
    requires q !in AreaOf(b, p)
    ensures Parent(b, q) !in AreaOf(b, p) && Find(b, q) !in AreaOf(b, p)
  {
    AreaIsClass(b, p, q);
    AreaIsClass(b, p, Parent(b, q));
    AreaIsClass(b, p, Find(b, q));
    FindOfRoot(b, q);
    if Parent(b, q) != q {
      assert Find(b, Parent(b, q)) == Find(b, q);
    }
  }

  /** After RemoveUnionOnAdjacent on a board with no flags, the visited
      fields of pl are those it reset. */
  lemma ResetVisited(b0: Board, b1: Board, R: set<Pos>, pl: nat)
    requires NoneVisited(b0) && ResetOn(b0, b1, R) && R <= Owned(b0, pl)
    ensures VisitedOf(b1, pl) == R
  {
    forall q | q in VisitedOf(b1, pl) ensures q in R {
      assert InB(b0, q);
    }
    forall q | q in R ensures q in VisitedOf(b1, pl) {
      assert InB(b0, q) && At(b1, q) == Singleton(At(b0, q), q);
    }
  }

  /** RemoveUnionOnAdjacent and RemoveVisited at p, then ResetBoardElement,
      split the area of p as Split says. */
  lemma BrokenUp(b0: Board, b1: Board, b2: Board, b3: Board, p: Pos)
    requires NoneVisited(b0) && InB(b0, p) && Owner(b0, p) != 0
    requires ResetOn(b0, b1, Reach(Open(b0, Owner(b0, p)), p))
    requires ClearedOn(b1, b2, Cleared(b1, Owner(b0, p), p))
    requires InB(b2, p) && b3 == Put(b2, p, At(b2, p).(playerNumber := 0, parentX := p.x, parentY := p.y, size := 1))
    ensures Split(b0, b3, p, AreaOf(b0, p))
  {
    var o := Owner(b0, p);
    var A := AreaOf(b0, p);
    OpenIsOwned(b0, o);
    ReachHasSelf(Owned(b0, o), p);
    ResetVisited(b0, b1, A, o);
    assert A + {p} == A;
    ReachOfReach(Owned(b0, o), p);
    assert Cleared(b1, o, p) == A;
    forall q | InB(b0, q) ensures InB(b3, q) && At(b3, q) == SplitCell(b0, p, A, q) {
      assert InB(b1, q) && InB(b2, q);
    }
  }

  /** One field of the split board: the fields of the area are roots, the
      others keep their parent, which lies outside the area, and their size. */
  lemma SplitLinks(b0: Board, b: Board, p: Pos, q: Pos)
    requires IsForest(b0) && Partition(b0) && InB(b0, p) && Owner(b0, p) != 0
    requires Split(b0, b, p, AreaOf(b0, p)) && InB(b0, q)
    ensures InB(b, q) && At(b, q).size >= 1
    ensures q in AreaOf(b0, p) ==> Parent(b, q) == q
    ensures q !in AreaOf(b0, p) ==>
              && Parent(b, q) == Parent(b0, q) && Parent(b0, q) !in AreaOf(b0, p) && InB(b0, Parent(b0, q))
              && At(b, q).size == At(b0, q).size && At(b, Parent(b, q)).size == At(b0, Parent(b0, q)).size
  {
    var A := AreaOf(b0, p);
    ReachHasSelf(Owned(b0, Owner(b0, p)), p);
    assert At(b, q) == SplitCell(b0, p, A, q);
    if q !in A {
      OutsideArea(b0, p, q);
      assert At(b, Parent(b0, q)) == SplitCell(b0, p, A, Parent(b0, q));
    }
  }

  /** The split board is a forest in which the fields of the area are roots
      and every other field keeps its root. */
  lemma SplitForest(b0: Board, b: Board, p: Pos)
    requires IsForest(b0) && Partition(b0) && InB(b0, p) && Owner(b0, p) != 0
    requires Split(b0, b, p, AreaOf(b0, p))
    ensures IsForest(b)
    ensures Rooted(b0, b, AreaOf(b0, p))
  {
    var A := AreaOf(b0, p);
    forall q | InB(b, q)
      ensures At(b, q).size >= 1 && InB(b, Parent(b, q))
      ensures Parent(b, q) != q ==> At(b, Parent(b, q)).size > At(b, q).size
    {
      assert InB(b0, q);
      SplitLinks(b0, b, p, q);
    }
    SplitFinds(b0, b, p);
  }

  /** SplitForest for the roots. */
  lemma SplitFinds(b0: Board, b: Board, p: Pos)
    requires IsForest(b0) && Partition(b0) && InB(b0, p) && Owner(b0, p) != 0
    requires Split(b0, b, p, AreaOf(b0, p)) && IsForest(b)
    ensures Rooted(b0, b, AreaOf(b0, p))
  {
    var A := AreaOf(b0, p);
    SplitParents(b0, b, p);
    forall q | InB(b0, q) ensures InB(b, q) && Find(b, q) == if q in A then q else Find(b0, q) {
      FindReset(b0, b, A, q);
    }
  }

  /** After the split the fields of the area are roots and every other field
      keeps a parent outside the area. */
  lemma SplitParents(b0: Board, b: Board, p: Pos)
    requires IsForest(b0) && Partition(b0) && InB(b0, p) && Owner(b0, p) != 0
    requires Split(b0, b, p, AreaOf(b0, p)) && IsForest(b)
    ensures forall t :: InB(b0, t) && t !in AreaOf(b0, p) ==> Parent(b, t) == Parent(b0, t) && Parent(b0, t) !in AreaOf(b0, p)
    ensures forall t :: InB(b0, t) && t in AreaOf(b0, p) ==> InB(b, t) && IsRoot(b, t)
  {
    forall t | InB(b0, t)
      ensures t !in AreaOf(b0, p) ==> Parent(b, t) == Parent(b0, t) && Parent(b0, t) !in AreaOf(b0, p)
      ensures t in AreaOf(b0, p) ==> InB(b, t) && IsRoot(b, t)
    {
      SplitLinks(b0, b, p, t);
    }
  }

  /** The state of UnionNewAreas after some of its floods, for the player o
      that lost a field: P holds the pieces not joined yet, each of whose
      fields is still a class of its own, and every other class is an area. */
  ghost predicate Pending(b: Board, o: nat, P: set<Pos>)
  {
    && IsForest(b) && NoneVisited(b) && o != 0
    && P <= Owned(b, o)
    && (forall q :: q in P ==> Reach(Owned(b, o), q) <= P)
    && (forall a, c {:trigger Find(b, a), Find(b, c)} :: InB(b, a) && InB(b, c) ==>
          (Find(b, a) == Find(b, c) <==> if a in P || c in P then a == c else SameArea(b, a, c)))
  }

  /** A pending field is its own root, and no other field hangs below it. */
  lemma PendingRoots(b: Board, o: nat, P: set<Pos>, q: Pos)
    requires Pending(b, o, P) && InB(b, q)
    ensures q in P ==> Find(b, q) == q
    ensures q !in P ==> Find(b, q) !in P
  {
    FindOfRoot(b, q);
  }

  /** With nothing pending the classes are exactly the areas. */
  lemma PendingNone(b: Board, o: nat)
    requires Pending(b, o, {})
    ensures Partition(b)
  {
  }
  /** A field of S outside the area of p reaches, without p, just what it reaches with it. */
  lemma ReachAvoids(S: set<Pos>, p: Pos, a: Pos)
    requires p in S && a in S && a !in Reach(S, p)
    ensures Reach(S - {p}, a) == Reach(S, a)
  {
    var S3 := S - {p};
    ReachHasSelf(S, p);
    assert a in S3;
    if Reach(S3, a) in CompsAround(S3, p) {
      var n :| n in S3 && Adjacent(p, n) && Reach(S3, n) == Reach(S3, a);
      ReachHasSelf(S3, n);
      LinkedMono(S3, S, a, n);
      LinkedStep(S, n, p);
      LinkedTrans(S, a, n, p);
      LinkedSymmetric(S, a, p);
      assert false;
    }
    ReachAwayFromCell(S3, p, a);
    assert S3 + {p} == S;
  }

  /** The split board: p is empty and nothing else changed owner or carries a flag. */
  lemma SplitClaimed(b0: Board, b: Board, p: Pos)
    requires InB(b0, p) && Split(b0, b, p, AreaOf(b0, p)) && NoneVisited(b0)
    ensures Claimed(b0, b, p, 0) && NoneVisited(b)
  {
    var A := AreaOf(b0, p);
    forall q | InB(b0, q) ensures Owner(b, q) == if q == p then 0 else Owner(b0, q) {
      assert At(b, q) == SplitCell(b0, p, A, q);
    }
    forall q | InB(b, q) ensures !At(b, q).visited {
      assert InB(b0, q) && At(b, q) == SplitCell(b0, p, A, q);
    }
  }

  /** Start of UnionNewAreas, one pair of fields: the classes of the split
      board are the areas, except that the rest of the area of p is pending. */
  lemma StartPair(b0: Board, b: Board, p: Pos, a: Pos, c: Pos)
    requires IsForest(b0) && Partition(b0) && InB(b0, p) && Owner(b0, p) != 0 && IsForest(b)
    requires Claimed(b0, b, p, 0)
    requires Rooted(b0, b, AreaOf(b0, p))
    requires InB(b, a) && InB(b, c)
    ensures Find(b, a) == Find(b, c) <==>
              if a in AreaOf(b0, p) - {p} || c in AreaOf(b0, p) - {p} then a == c else SameArea(b, a, c)
  {
    var A := AreaOf(b0, p);
    assert InB(b0, a) && InB(b0, c);
    ReachHasSelf(Owned(b0, Owner(b0, p)), p);
    if a !in A {
      OutsideArea(b0, p, a);
    }
    if c !in A {
      OutsideArea(b0, p, c);
    }
    if a !in A && c !in A {
      OutsidePair(b0, b, p, a, c);
    }
  }

  /** StartPair away from the area of p: emptying p leaves every other area as it was. */
  lemma OutsidePair(b0: Board, b: Board, p: Pos, a: Pos, c: Pos)
    requires IsForest(b0) && Partition(b0) && InB(b0, p) && Owner(b0, p) != 0
    requires Claimed(b0, b, p, 0)
    requires InB(b0, a) && InB(b0, c) && a !in AreaOf(b0, p) && c !in AreaOf(b0, p)
    ensures InB(b, a) && InB(b, c) && (SameArea(b, a, c) <==> SameArea(b0, a, c))
  {
    var o := Owner(b0, p);
    var S := Owned(b0, o);
    ReachHasSelf(S, p);
    assert InB(b, a) && InB(b, c);
    if a != c && Owner(b, a) != 0 && Owner(b, c) == Owner(b, a) {
      var x := Owner(b, a);
      ClaimedOwned(b0, b, p, 0, x);
      if x == o {
        ReachAvoids(S, p, a);
      } else {
        assert Owned(b, x) == Owned(b0, x);
      }
    }
  }

  /** Start of UnionNewAreas: the rest of the area of p is pending, as fields
      of o closed under the areas o has now. */
  lemma PendingStart(b0: Board, b: Board, p: Pos)
    requires IsForest(b0) && Partition(b0) && NoneVisited(b0) && InB(b0, p) && Owner(b0, p) != 0
    requires IsForest(b) && Split(b0, b, p, AreaOf(b0, p))
    requires Rooted(b0, b, AreaOf(b0, p))
    ensures Claimed(b0, b, p, 0)
    ensures Pending(b, Owner(b0, p), AreaOf(b0, p) - {p})
  {
    var o := Owner(b0, p);
    var S := Owned(b0, o);
    var A := AreaOf(b0, p);
    SplitClaimed(b0, b, p);
    ClaimedOwned(b0, b, p, 0, o);
    StartClosed(b0, b, p);
    StartPairs(b0, b, p);
  }

  lemma StartClosed(b0: Board, b: Board, p: Pos)
    requires InB(b0, p) && Owner(b0, p) != 0 && Claimed(b0, b, p, 0)
    ensures forall q :: q in AreaOf(b0, p) - {p} ==> Reach(Owned(b, Owner(b0, p)), q) <= AreaOf(b0, p) - {p}
  {
    var o := Owner(b0, p);
    var S := Owned(b0, o);
    ClaimedOwned(b0, b, p, 0, o);
    forall q | q in AreaOf(b0, p) - {p} ensures Reach(S - {p}, q) <= AreaOf(b0, p) - {p} {
      ReachMono(S - {p}, S, q);
      ReachSame(S, p, q);
    }
  }

  lemma StartPairs(b0: Board, b: Board, p: Pos)
    requires IsForest(b0) && Partition(b0) && InB(b0, p) && Owner(b0, p) != 0 && IsForest(b)
    requires Claimed(b0, b, p, 0)
    requires Rooted(b0, b, AreaOf(b0, p))
    ensures forall a, c {:trigger Find(b, a), Find(b, c)} :: InB(b, a) && InB(b, c) ==>
              (Find(b, a) == Find(b, c) <==> if a in AreaOf(b0, p) - {p} || c in AreaOf(b0, p) - {p} then a == c else SameArea(b, a, c))
  {
    forall a, c {:trigger Find(b, a), Find(b, c)} | InB(b, a) && InB(b, c)
      ensures Find(b, a) == Find(b, c) <==> if a in AreaOf(b0, p) - {p} || c in AreaOf(b0, p) - {p} then a == c else SameArea(b, a, c)
    {
      StartPair(b0, b, p, a, c);
    }
  }
  /** Every root of b2 is that of b, except that the fields of E now share the root r. */
  ghost predicate Rejoined(b: Board, b2: Board, E: set<Pos>, r: Pos)
    requires IsForest(b) && IsForest(b2)
  {
    forall q {:trigger Find(b2, q)} :: InB(b, q) ==> InB(b2, q) && Find(b2, q) == if q in E then r else Find(b, q)
  }

  /** One flood of UnionNewAreas and the clearing after it, in the abstract:
      the piece E of the pending fields (an area of o, or nothing) is joined
      under r, and nothing else changes but the flags, which are all clear. */
  ghost predicate JoinedPiece(b: Board, b2: Board, o: nat, P: set<Pos>, E: set<Pos>, r: Pos)
  {
    && IsForest(b) && IsForest(b2) && NoneVisited(b2) && SameOwners(b, b2)
    && E <= P && (E != {} ==> r in E)
    && (forall x :: x in E ==> Reach(Owned(b, o), x) == E)
    && Rejoined(b, b2, E, r)
  }

  /** After joining a piece, one pair of fields: the classes are the areas
      except on what is still pending. */
  lemma AfterPiecePair(b: Board, b2: Board, o: nat, P: set<Pos>, E: set<Pos>, r: Pos, a: Pos, c: Pos)
    requires Pending(b, o, P) && JoinedPiece(b, b2, o, P, E, r)
    requires InB(b2, a) && InB(b2, c)
    ensures Find(b2, a) == Find(b2, c) <==> if a in P - E || c in P - E then a == c else SameArea(b2, a, c)
  {
    var S := Owned(b, o);
    assert InB(b, a) && InB(b, c);
    PendingRoots(b, o, P, a);
    PendingRoots(b, o, P, c);
    SameOwnersOwned(b, b2, o);
    assert SameArea(b2, a, c) == SameArea(b, a, c) by {
      if Owner(b, a) != 0 {
        SameOwnersOwned(b, b2, Owner(b, a));
      }
    }
    if a in E {
      assert Reach(S, a) == E;
    }
    if c in E {
      assert Reach(S, c) == E;
    }
    if a != c && Owner(b, a) == o && Owner(b, c) == o && Linked(S, a, c) {
      LinkedSymmetric(S, a, c);
    }
    if a in E && c in E {
      ReachHasSelf(S, c);
    }
  }

  /** After joining a piece the rest is still pending. */
  lemma AfterPiece(b: Board, b2: Board, o: nat, P: set<Pos>, E: set<Pos>, r: Pos)
    requires Pending(b, o, P) && JoinedPiece(b, b2, o, P, E, r)
    ensures Pending(b2, o, P - E)
  {
    var S := Owned(b, o);
    SameOwnersOwned(b, b2, o);
    forall q | q in P - E ensures Reach(S, q) <= P - E {
      forall x | x in Reach(S, q) ensures x !in E {
        if x in E {
          ReachHasSelf(S, q);
          ReachSame(S, q, x);
          assert false;
        }
      }
    }
    forall a, c {:trigger Find(b2, a), Find(b2, c)} | InB(b2, a) && InB(b2, c)
      ensures Find(b2, a) == Find(b2, c) <==> if a in P - E || c in P - E then a == c else SameArea(b2, a, c)
    {
      AfterPiecePair(b, b2, o, P, E, r, a, c);
    }
  }
  /** The fields a pending field reaches are all pending, and each is its own root. */
  lemma PendingPieceRoots(b: Board, o: nat, P: set<Pos>, n: Pos)
    requires Pending(b, o, P) && n in P
    ensures Reach(Owned(b, o), n) <= P
    ensures FloodJoin(b, n, Reach(Owned(b, o), n)) == Reach(Owned(b, o), n)
  {
    var C := Reach(Owned(b, o), n);
    ReachHasSelf(Owned(b, o), n);
    forall t | t in C ensures InB(b, t) && Find(b, t) == t {
      PendingRoots(b, o, P, t);
    }
    assert Roots(b, C) == C;
  }

  /** A flood from a field that is not pending stays in its area, which is one class. */
  lemma SettledPieceRoots(b: Board, o: nat, P: set<Pos>, n: Pos)
    requires Pending(b, o, P) && InB(b, n) && n !in P
    ensures FloodJoin(b, n, Reach(Owned(b, o), n)) == {Find(b, n)}
  {
    var S := Owned(b, o);
    var C := Reach(S, n);
    forall t | t in C ensures InB(b, t) && Find(b, t) == Find(b, n) {
      LinkedEnds(S, n, t);
      LinkedSymmetric(S, n, t);
      assert SameArea(b, n, t);
    }
    assert Roots(b, C) <= {Find(b, n)};
  }

  /** The join of one flood of UnionNewAreas: the area of n is joined when n is
      pending, and no class changes otherwise. */
  lemma PieceJoin(b: Board, b1: Board, o: nat, P: set<Pos>, n: Pos, r: Pos)
    requires Pending(b, o, P) && IsForest(b1) && SameShape(b, b1)
    requires InB(b, n) ==>
               && r in FloodJoin(b, n, Reach(Owned(b, o), n))
               && Merged(b, b1, FloodJoin(b, n, Reach(Owned(b, o), n)), r)
    requires !InB(b, n) ==> b1 == b
    ensures Rejoined(b, b1, if n in P then Reach(Owned(b, o), n) else {}, r)
    ensures n in P ==> r in Reach(Owned(b, o), n) && Reach(Owned(b, o), n) <= P
    ensures n in P ==> forall x :: x in Reach(Owned(b, o), n) ==> Reach(Owned(b, o), x) == Reach(Owned(b, o), n)
  {
    var S := Owned(b, o);
    var C := Reach(S, n);
    if n in P {
      PendingPieceRoots(b, o, P, n);
      forall q | InB(b, q) ensures InB(b1, q) && Find(b1, q) == if q in C then r else Find(b, q) {
        PendingRoots(b, o, P, q);
      }
      forall x | x in C ensures Reach(S, x) == C {
        ReachSame(S, n, x);
      }
    } else if InB(b, n) {
      SettledPieceRoots(b, o, P, n);
      forall q | InB(b, q) ensures InB(b1, q) && Find(b1, q) == Find(b, q) {
      }
    }
  }

  /** Clearing flags changes no link. */
  lemma ClearedLinks(b1: Board, b2: Board, N: set<Pos>)
    requires IsForest(b1) && ClearedOn(b1, b2, N)
    ensures IsForest(b2) && SameShape(b1, b2) && SameFind(b1, b2) && SameOwners(b1, b2)
  {
    assert SameLinks(b1, b2) by {
      forall q | InB(b1, q) ensures Parent(b2, q) == Parent(b1, q) && At(b2, q).size == At(b1, q).size {
        assert At(b2, q) == if q in N then At(b1, q).(visited := false) else At(b1, q);
      }
    }
    SameLinksFind(b1, b2);
    forall q | InB(b1, q) ensures Owner(b2, q) == Owner(b1, q) {
      assert At(b2, q) == if q in N then At(b1, q).(visited := false) else At(b1, q);
    }
  }

  /** The RemoveVisited after a flood of UnionNewAreas clears exactly what the
      flood marked. */
  lemma PieceClear(b: Board, b1: Board, b2: Board, o: nat, n: Pos)
    requires NoneVisited(b) && IsForest(b1)
    requires MarkedOn(b, b1, Reach(Owned(b, o), n)) && ClearedOn(b1, b2, Cleared(b1, o, n))
    ensures IsForest(b2) && NoneVisited(b2) && SameOwners(b, b2) && SameShape(b1, b2) && SameFind(b1, b2)
  {
    var C := Reach(Owned(b, o), n);
    MarkedVisited(b, b1, o, C);
    if n in Owned(b, o) {
      ReachHasSelf(Owned(b, o), n);
      assert C + {n} == C;
      ReachOfReach(Owned(b, o), n);
    } else {
      ReachOutside(Owned(b, o), n);
    }
    assert Cleared(b1, o, n) == C;
    ClearedLinks(b1, b2, C);
    forall q | InB(b2, q) ensures !At(b2, q).visited {
      assert InB(b1, q) && InB(b, q);
    }
    forall q | InB(b, q) ensures InB(b2, q) && Owner(b2, q) == Owner(b, q) {
      assert InB(b1, q) && At(b1, q).playerNumber == At(b, q).playerNumber;
    }
  }

  /** Marking part of pl's fields on a board with no flags makes them pl's visited fields. */
  lemma MarkedVisited(b: Board, b1: Board, pl: nat, C: set<Pos>)
    requires NoneVisited(b) && MarkedOn(b, b1, C) && C <= Owned(b, pl)
    ensures VisitedOf(b1, pl) == C
  {
    forall q | q in VisitedOf(b1, pl) ensures q in C {
      assert InB(b, q) && At(b1, q).visited == (At(b, q).visited || q in C);
    }
    forall q | q in C ensures q in VisitedOf(b1, pl) {
      assert InB(b, q) && InB(b1, q);
      assert At(b1, q).visited && At(b1, q).playerNumber == At(b, q).playerNumber;
    }
  }
  /** Clearing flags after a join keeps what the join did to the roots. */
  lemma RejoinedKept(b: Board, b1: Board, b2: Board, E: set<Pos>, r: Pos)
    requires IsForest(b) && IsForest(b1) && IsForest(b2) && SameShape(b, b1) && SameShape(b1, b2)
    requires Rejoined(b, b1, E, r) && SameFind(b1, b2)
    ensures Rejoined(b, b2, E, r)
  {
    forall q | InB(b, q) ensures InB(b2, q) && Find(b2, q) == if q in E then r else Find(b, q) {
      assert InB(b1, q) && Find(b1, q) == if q in E then r else Find(b, q);
    }
  }

  /** One UnionAllAdjacent from n with n as its seed, then RemoveVisited at n,
      as UnionNewAreas does them: the piece holding n is no longer pending. */
  lemma PieceStep(b: Board, b1: Board, b2: Board, o: nat, P: set<Pos>, n: Pos, r: Pos) returns (P': set<Pos>)
    requires Pending(b, o, P) && IsForest(b1)
    requires MarkedOn(b, b1, Reach(Open(b, o), n))
    requires InB(b, n) ==>
               && r in FloodJoin(b, n, Reach(Open(b, o), n))
               && Merged(b, b1, FloodJoin(b, n, Reach(Open(b, o), n)), r)
    requires !InB(b, n) ==> b1 == b
    requires ClearedOn(b1, b2, Cleared(b1, o, n))
    ensures Pending(b2, o, P') && P' <= P && SameOwners(b, b2)
    ensures InB(b, n) ==> n !in P'
  {
    var S := Owned(b, o);
    OpenIsOwned(b, o);
    var E := if n in P then Reach(S, n) else {};
    PieceJoin(b, b1, o, P, n, r);
    PieceClear(b, b1, b2, o, n);
    RejoinedKept(b, b1, b2, E, r);
    assert JoinedPiece(b, b2, o, P, E, r);
    AfterPiece(b, b2, o, P, E, r);
    P' := P - E;
    if n in P {
      ReachHasSelf(S, n);
    }
  }

  /** Once UnionNewAreas has flooded from every neighbour of p, nothing is
      pending: every piece of the old area of p touches p. */
  lemma PendingDone(b: Board, o: nat, P: set<Pos>, p: Pos)
    requires Pending(b, o, P) && p !in Owned(b, o)
    requires forall q :: q in P ==> q in Reach(Owned(b, o) + {p}, p)
    requires forall n :: InB(b, n) && Adjacent(p, n) ==> n !in P
    ensures P == {}
  {
    var S := Owned(b, o);
    if q :| q in P {
      if Reach(S, q) !in CompsAround(S, p) {
        ReachAwayFromCell(S, p, q);
        LinkedSymmetric(S + {p}, p, q);
        assert false;
      }
      var n :| n in S && Adjacent(p, n) && Reach(S, n) == Reach(S, q);
      ReachHasSelf(S, n);
      assert false;
    }
  }
}
