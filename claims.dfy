/** What placing a pawn on an empty field does to the areas: the classes that
    UnionAdjacent joins are exactly the area the field now belongs to, and the
    player's area count drops by the number of areas it touches, less one. */
module Claims {
  import opened Walks
  import opened Grid
  import opened Forest
  import opened Areas
  import opened UnionFind
  import opened GammaState

  /** The classes joined by UnionAdjacent at the empty field p are those of
      the fields in p's new area. */
  lemma JoinedRegion(b: Board, pl: nat, p: Pos, q: Pos)
    requires IsForest(b) && Partition(b) && InB(b, p) && Owner(b, p) == 0 && pl != 0 && InB(b, q)
    ensures Find(b, q) in JoinedAround(b, pl, p) <==> q in Reach(Owned(b, pl) + {p}, p)
  {
    var S := Owned(b, pl);
    var T := S + {p};
    var N := OwnedAround(b, pl, p);
    if Find(b, q) in JoinedAround(b, pl, p) {
      if Find(b, q) == Find(b, p) {
        assert SameArea(b, q, p);
        ReachHasSelf(T, p);
      } else {
        var n :| n in N && InB(b, n) && Find(b, n) == Find(b, q);
        assert SameArea(b, n, q);
        if n != q {
          LinkedIffSameReach(S, n, q);
        }
        assert Reach(S, q) in CompsAround(S, p);
        ReachNearCell(S, p, q);
        ReachHasSelf(T, q);
      }
    } else if q in Reach(T, p) {
      assert q != p && q in S;
      if Reach(S, q) in CompsAround(S, p) {
        var n :| n in S && Adjacent(p, n) && Reach(S, n) == Reach(S, q);
        LinkedIffSameReach(S, n, q);
        RootsHas(b, N, n);
        assert false;
      } else {
        ReachAwayFromCell(S, p, q);
        LinkedSymmetric(T, p, q);
        assert false;
      }
    }
  }

  /** After the claim of p by pl and the join of JoinedAround, the classes are
      again exactly the areas. */
  lemma ClaimPartition(b: Board, b': Board, pl: nat, p: Pos, r: Pos)
    requires IsForest(b) && Partition(b) && InB(b, p) && Owner(b, p) == 0 && pl != 0
    requires IsForest(b') && Claimed(b, b', p, pl)
    requires r in JoinedAround(b, pl, p) && Merged(b, b', JoinedAround(b, pl, p), r)
    ensures Partition(b')
  {
    forall a, c | InB(b', a) && InB(b', c)
      ensures Find(b', a) == Find(b', c) <==> SameArea(b', a, c)
    {
      ClaimPair(b, b', pl, p, r, a, c);
    }
  }

  /** ClaimPartition for one pair of fields. */
  lemma ClaimPair(b: Board, b': Board, pl: nat, p: Pos, r: Pos, a: Pos, c: Pos)
    requires IsForest(b) && Partition(b) && InB(b, p) && Owner(b, p) == 0 && pl != 0
    requires IsForest(b') && Claimed(b, b', p, pl)
    requires r in JoinedAround(b, pl, p) && Merged(b, b', JoinedAround(b, pl, p), r)
    requires InB(b', a) && InB(b', c)
    ensures Find(b', a) == Find(b', c) <==> SameArea(b', a, c)
  {
    var J := JoinedAround(b, pl, p);
    var T := Owned(b, pl) + {p};
    assert |b'[a.x]| == |b[a.x]| && |b'[c.x]| == |b[c.x]|;
    assert Find(b', a) == if Find(b, a) in J then r else Find(b, a);
    assert Find(b', c) == if Find(b, c) in J then r else Find(b, c);
    JoinedRegion(b, pl, p, a);
    JoinedRegion(b, pl, p, c);
    if a == c {
    } else if a in Reach(T, p) && c in Reach(T, p) {
      ClaimInside(b, b', pl, p, a, c);
    } else if a in Reach(T, p) {
      ClaimStraddle(b, b', pl, p, a, c);
    } else if c in Reach(T, p) {
      ClaimStraddle(b, b', pl, p, c, a);
    } else {
      assert Find(b, a) == Find(b, c) <==> SameArea(b, a, c);
      ClaimOutside(b, b', pl, p, a, c);
    }
  }

  /** Two fields of p's new area lie in one area after the claim. */
  lemma ClaimInside(b: Board, b': Board, pl: nat, p: Pos, a: Pos, c: Pos)
    requires InB(b, p) && pl != 0 && Claimed(b, b', p, pl)
    requires InB(b', a) && InB(b', c)
    requires a in Reach(Owned(b, pl) + {p}, p) && c in Reach(Owned(b, pl) + {p}, p)
    ensures SameArea(b', a, c)
  {
    var T := Owned(b, pl) + {p};
    ClaimedOwned(b, b', p, pl, pl);
    assert Owned(b', pl) == T;
    assert a in Owned(b', pl) && c in Owned(b', pl);
    LinkedSymmetric(T, p, a);
    LinkedTrans(T, a, p, c);
  }

  /** A field of p's new area and one outside it lie in different areas. */
  lemma ClaimStraddle(b: Board, b': Board, pl: nat, p: Pos, a: Pos, c: Pos)
    requires InB(b, p) && pl != 0 && Claimed(b, b', p, pl)
    requires InB(b', a) && InB(b', c)
    requires a in Reach(Owned(b, pl) + {p}, p) && c !in Reach(Owned(b, pl) + {p}, p)
    ensures !SameArea(b', a, c) && !SameArea(b', c, a)
  {
    var T := Owned(b, pl) + {p};
    ClaimedOwned(b, b', p, pl, pl);
    assert Owned(b', pl) == T;
    assert a in Owned(b', pl);
    if SameArea(b', a, c) {
      LinkedTrans(T, p, a, c);
    }
    if SameArea(b', c, a) {
      LinkedSymmetric(T, c, a);
      LinkedTrans(T, p, a, c);
    }
  }

  /** Two fields outside p's new area lie in one area after the claim exactly
      when they did before it. */
  lemma ClaimOutside(b: Board, b': Board, pl: nat, p: Pos, a: Pos, c: Pos)
    requires InB(b, p) && Owner(b, p) == 0 && pl != 0 && Claimed(b, b', p, pl)
    requires InB(b, a) && InB(b, c) && InB(b', a) && InB(b', c)
    requires a !in Reach(Owned(b, pl) + {p}, p) && c !in Reach(Owned(b, pl) + {p}, p)
    ensures SameArea(b', a, c) <==> SameArea(b, a, c)
  {
    var S := Owned(b, pl);
    var T := S + {p};
    ReachHasSelf(T, p);
    var o := Owner(b, a);
    ClaimedOwned(b, b', p, pl, o);
    if o == pl && Owner(b, c) == pl {
      if Reach(S, a) in CompsAround(S, p) {
        ReachNearCell(S, p, a);
        ReachHasSelf(T, a);
        assert false;
      }
      ReachAwayFromCell(S, p, a);
      assert Owned(b', pl) == T;
      assert c in Reach(T, a) <==> c in Reach(S, a);
      assert Linked(T, a, c) <==> Linked(S, a, c);
    } else if o != pl && o != 0 {
      assert p !in Owned(b, o);
      assert Owned(b', o) == Owned(b, o);
    }
  }

  /** The union-find roots of pl's fields around p count the areas of pl touching p. */
  lemma RootsCountAreas(b: Board, pl: nat, p: Pos)
    requires IsForest(b) && Partition(b) && pl != 0
    ensures |Roots(b, OwnedAround(b, pl, p))| == |CompsAround(Owned(b, pl), p)|
  {
    var S := Owned(b, pl);
    var N := OwnedAround(b, pl, p);
    forall n1, n2 | n1 in N && n2 in N
      ensures Find(b, n1) == Find(b, n2) <==> Reach(S, n1) == Reach(S, n2)
    {
      assert SameArea(b, n1, n2) <==> n1 == n2 || Linked(S, n1, n2);
      LinkedIffSameReach(S, n1, n2);
    }
    SameImageCard(b, S, N);
    assert ReachOf(S, N) == CompsAround(S, p);
  }

  /** The number of areas pl has once the empty field p is theirs. */
  ghost function AreasAfter(b: Board, pl: nat, p: Pos): nat
  {
    |Comps(Owned(b, pl) + {p})|
  }

  /** When gamma_move succeeds: p lies on the board and is empty, pl is one of
      the n players, and taking p leaves pl within the limit of areas. */
  ghost predicate MoveLegal(b: Board, n: nat, maxAreas: nat, pl: nat, p: Pos)
  {
    InB(b, p) && pl != 0 && pl <= n && Owner(b, p) == 0 && AreasAfter(b, pl, p) <= maxAreas
  }

  /** The players' counters once pl has taken a field and has areas areas. */
  function AfterClaim(ps: seq<Player>, pl: nat, areas: nat): (ps': seq<Player>)
    requires 1 <= pl <= |ps|
    ensures |ps'| == |ps| && ps'[pl - 1].busyFields == ps[pl - 1].busyFields + 1
    ensures ps'[pl - 1].numberOfAreas == areas && ps'[pl - 1].goldPossible == ps[pl - 1].goldPossible
    ensures forall i :: 0 <= i < |ps| && i != pl - 1 ==> ps'[i] == ps[i]
  {
    ps[pl - 1 := ps[pl - 1].(numberOfAreas := areas, busyFields := ps[pl - 1].busyFields + 1)]
  }

  /** Writing pl's updated counters into the array gives AfterClaim. */
  lemma AfterClaimIs(ps: seq<Player>, pl: nat, areas: nat, v: Player)
    requires 1 <= pl <= |ps| && v == ps[pl - 1].(numberOfAreas := areas, busyFields := ps[pl - 1].busyFields + 1)
    ensures ps[pl - 1 := v] == AfterClaim(ps, pl, areas)
  {
  }

  /** Taking the empty field p turns the k areas of pl around it, and p, into
      one: pl's count changes by 1 - k, where k never exceeds the count. */
  lemma MoveCount(b: Board, pl: nat, p: Pos)
    requires IsForest(b) && Partition(b) && InB(b, p) && Owner(b, p) == 0 && pl != 0
    ensures AreasAfter(b, pl, p) == |Comps(Owned(b, pl))| + 1 - |Roots(b, OwnedAround(b, pl, p))|
    ensures |Roots(b, OwnedAround(b, pl, p))| <= |Comps(Owned(b, pl))|
  {
    var S := Owned(b, pl);
    RootsCountAreas(b, pl, p);
    AddCell(S, p);
    SubsetCard(CompsAround(S, p), Comps(S));
  }

  lemma {:induction false} SubsetCard<T>(A: set<T>, B: set<T>)
    requires A <= B
    ensures |A| <= |B|
  {
    if A != {} {
      var x :| x in A;
      SubsetCard(A - {x}, B - {x});
    }
  }

  /** The area count of one player, read off Arranged. */
  lemma AreasOf(b: Board, w: nat, h: nat, n: nat, maxAreas: nat, ps: seq<Player>, pl: nat)
    requires Arranged(b, w, h, n, maxAreas, ps) && 1 <= pl <= n
    ensures ps[pl - 1].numberOfAreas == |Comps(Owned(b, pl))| <= maxAreas
  {
  }

  /** Path compression keeps every part of Arranged and every player's fields. */
  lemma ArrangedKept(b0: Board, b1: Board, w: nat, h: nat, n: nat, maxAreas: nat, ps: seq<Player>)
    requires Arranged(b0, w, h, n, maxAreas, ps)
    requires IsForest(b1) && OnlyParents(b0, b1) && SameFind(b0, b1)
    ensures Arranged(b1, w, h, n, maxAreas, ps)
    ensures forall o :: Owned(b1, o) == Owned(b0, o)
  {
    forall o ensures Owned(b1, o) == Owned(b0, o) {
      SameOwnersOwned(b0, b1, o);
    }
    forall a, c | InB(b1, a) && InB(b1, c)
      ensures Find(b1, a) == Find(b1, c) <==> SameArea(b1, a, c)
    {
      assert InB(b0, a) && InB(b0, c);
      assert Find(b1, a) == Find(b0, a) && Find(b1, c) == Find(b0, c);
      assert Owned(b1, Owner(b0, a)) == Owned(b0, Owner(b0, a));
    }
  }

  /** Compression keeps the roots of the neighbours, so a second
      NumOfUniqueAreas counts what the first did. */
  lemma RootsKept(b0: Board, b1: Board, pl: nat, p: Pos)
    requires IsForest(b0) && IsForest(b1) && OnlyParents(b0, b1) && SameFind(b0, b1)
    ensures Roots(b1, OwnedAround(b1, pl, p)) == Roots(b0, OwnedAround(b0, pl, p))
  {
    SameOwnersOwned(b0, b1, pl);
    assert OwnedAround(b1, pl, p) == OwnedAround(b0, pl, p);
  }

  /** Writing pl as the owner of p changes neither links nor flags. */
  lemma ClaimPut(b: Board, b': Board, p: Pos, pl: nat)
    requires InB(b, p) && b' == Put(b, p, At(b, p).(playerNumber := pl))
    ensures SameLinks(b, b') && Claimed(b, b', p, pl)
    ensures forall q :: InB(b, q) ==> At(b', q).visited == At(b, q).visited
  {
  }

  /** A claim after a change that kept the owners and flags is a claim. */
  lemma ClaimedAfter(b0: Board, b1: Board, b2: Board, p: Pos, pl: nat)
    requires OnlyParents(b0, b1) && Claimed(b1, b2, p, pl)
    requires forall q :: InB(b1, q) ==> At(b2, q).visited == At(b1, q).visited
    ensures Claimed(b0, b2, p, pl)
    ensures NoneVisited(b0) ==> NoneVisited(b2)
  {
    forall x | 0 <= x < |b0| ensures |b2[x]| == |b0[x]| {
      assert |b1[x]| == |b0[x]|;
    }
    forall q | InB(b0, q) ensures InB(b1, q) {
      assert |b1[q.x]| == |b0[q.x]|;
    }
  }

  /** gamma_move with no area of pl around p: p becomes a class of its own,
      owned by pl. */
  lemma LoneClaim(b0: Board, b1: Board, b2: Board, pl: nat, p: Pos)
    requires IsForest(b0) && IsForest(b1) && InB(b0, p) && NoneVisited(b0)
    requires OnlyParents(b0, b1) && SameFind(b0, b1)
    requires Roots(b0, OwnedAround(b0, pl, p)) == {}
    requires InB(b1, p) && b2 == Put(b1, p, At(b1, p).(playerNumber := pl))
    ensures IsForest(b2) && Claimed(b0, b2, p, pl) && NoneVisited(b2)
    ensures Find(b0, p) in JoinedAround(b0, pl, p) && Merged(b0, b2, JoinedAround(b0, pl, p), Find(b0, p))
  {
    ClaimPut(b1, b2, p, pl);
    ClaimedAfter(b0, b1, b2, p, pl);
    LoneJoin(b0, b1, b2, pl, p);
  }

  /** LoneClaim for the union-find links. */
  lemma LoneJoin(b0: Board, b1: Board, b2: Board, pl: nat, p: Pos)
    requires IsForest(b0) && IsForest(b1) && InB(b0, p) && SameShape(b0, b1) && SameFind(b0, b1) && SameLinks(b1, b2)
    requires Roots(b0, OwnedAround(b0, pl, p)) == {}
    ensures IsForest(b2) && SameShape(b0, b2)
    ensures Find(b0, p) in JoinedAround(b0, pl, p) && Merged(b0, b2, JoinedAround(b0, pl, p), Find(b0, p))
  {
    SameLinksFind(b1, b2);
    SameFindTrans(b0, b1, b2);
    LoneRoot(b0, b2, pl, p);
  }

  lemma LoneRoot(b0: Board, b: Board, pl: nat, p: Pos)
    requires IsForest(b0) && IsForest(b) && InB(b0, p) && SameShape(b0, b) && SameFind(b0, b)
    requires Roots(b0, OwnedAround(b0, pl, p)) == {}
    ensures Find(b0, p) in JoinedAround(b0, pl, p) && Merged(b0, b, JoinedAround(b0, pl, p), Find(b0, p))
  {
    LoneMerged(b0, b, JoinedAround(b0, pl, p), Find(b0, p));
  }

  /** Joining a single class changes no root. */
  lemma LoneMerged(b0: Board, b: Board, M: set<Pos>, r: Pos)
    requires IsForest(b0) && IsForest(b) && SameShape(b0, b) && SameFind(b0, b) && M == {r}
    ensures Merged(b0, b, M, r)
  {
    forall q | InB(b0, q)
      ensures InB(b, q) && Find(b, q) == if Find(b0, q) in M then r else Find(b0, q)
    {
      assert InB(b, q) && Find(b, q) == Find(b0, q);
    }
  }

  /** gamma_move joining p with pl's areas around it: after the two counts,
      the claim, UnionAdjacent and the repeated claim, p's class is the join of
      the classes around it. */
  lemma JoinClaim(b0: Board, b2: Board, b3: Board, b4: Board, b5: Board, pl: nat, p: Pos, r: Pos)
    requires IsForest(b0) && IsForest(b2) && InB(b0, p) && NoneVisited(b0)
    requires OnlyParents(b0, b2) && SameFind(b0, b2)
    requires InB(b2, p) && b3 == Put(b2, p, At(b2, p).(playerNumber := pl))
    requires IsForest(b3) && IsForest(b4) && OnlyLinks(b3, b4)
    requires r in JoinedAround(b3, pl, p) && Merged(b3, b4, JoinedAround(b3, pl, p), r)
    requires InB(b4, p) && b5 == Put(b4, p, At(b4, p).(playerNumber := pl))
    ensures IsForest(b5) && Claimed(b0, b5, p, pl) && NoneVisited(b5)
    ensures r in JoinedAround(b0, pl, p) && Merged(b0, b5, JoinedAround(b0, pl, p), r)
  {
    ClaimPut(b2, b3, p, pl);
    ClaimedAfter(b0, b2, b3, p, pl);
    JoinedKept(b0, b2, b3, pl, p);
    MergedAfterSame(b0, b3, b4, JoinedAround(b0, pl, p), r);
    ClaimedLinks(b0, b3, b4, p, pl);
    PutSame(b4, p, pl);
  }

  /** The claim keeps the roots and the neighbours UnionAdjacent joins. */
  lemma JoinedKept(b0: Board, b2: Board, b3: Board, pl: nat, p: Pos)
    requires IsForest(b0) && IsForest(b2) && InB(b0, p) && SameShape(b0, b2) && SameFind(b0, b2)
    requires SameLinks(b2, b3) && Claimed(b0, b3, p, pl)
    ensures IsForest(b3) && SameShape(b0, b3) && SameFind(b0, b3)
    ensures JoinedAround(b3, pl, p) == JoinedAround(b0, pl, p)
  {
    SameLinksFind(b2, b3);
    SameFindTrans(b0, b2, b3);
    AroundKept(b0, b3, pl, p);
    JoinedSame(b0, b3, pl, p);
  }

  /** Claiming p leaves pl's neighbours of p as they were. */
  lemma AroundKept(b0: Board, b: Board, pl: nat, p: Pos)
    requires Claimed(b0, b, p, pl)
    ensures OwnedAround(b, pl, p) == OwnedAround(b0, pl, p)
  {
    ClaimedOwned(b0, b, p, pl, pl);
  }

  lemma JoinedSame(b0: Board, b: Board, pl: nat, p: Pos)
    requires IsForest(b0) && IsForest(b) && InB(b0, p) && SameShape(b0, b) && SameFind(b0, b)
    requires OwnedAround(b, pl, p) == OwnedAround(b0, pl, p)
    ensures JoinedAround(b, pl, p) == JoinedAround(b0, pl, p)
  {
    var N := OwnedAround(b0, pl, p);
    forall t | t in N ensures InB(b, t) && InB(b0, t) && Find(b, t) == Find(b0, t) {
    }
    assert Roots(b, N) == Roots(b0, N);
  }

  /** A claim followed by a change of links only is still the claim. */
  lemma ClaimedLinks(b0: Board, b1: Board, b2: Board, p: Pos, pl: nat)
    requires Claimed(b0, b1, p, pl) && OnlyLinks(b1, b2)
    ensures Claimed(b0, b2, p, pl)
    ensures NoneVisited(b1) ==> NoneVisited(b2)
    ensures InB(b2, p) && Owner(b2, p) == pl
  {
    forall x | 0 <= x < |b0| ensures |b2[x]| == |b0[x]| {
      assert |b1[x]| == |b0[x]|;
    }
    forall q | InB(b0, q) ensures InB(b1, q) {
      assert |b1[q.x]| == |b0[q.x]|;
    }
  }

  /** Writing the owner a field already has changes nothing. */
  lemma PutSame(b: Board, p: Pos, pl: nat)
    requires InB(b, p) && Owner(b, p) == pl
    ensures Put(b, p, At(b, p).(playerNumber := pl)) == b
  {
    assert At(b, p).(playerNumber := pl) == b[p.x][p.y];
    assert b[p.x][p.y := b[p.x][p.y]] == b[p.x];
  }

  /** The board and the counters after a successful gamma_move. */
  lemma ClaimArranged(b0: Board, b: Board, w: nat, h: nat, n: nat, maxAreas: nat, ps: seq<Player>, free: nat, pl: nat, p: Pos)
    requires Arranged(b0, w, h, n, maxAreas, ps) && MoveLegal(b0, n, maxAreas, pl, p) && free < U64
    requires IsForest(b) && Partition(b) && Claimed(b0, b, p, pl) && NoneVisited(b)
    ensures Arranged(b, w, h, n, maxAreas, AfterClaim(ps, pl, AreasAfter(b0, pl, p)))
    ensures Counted(b0, n, ps, free) ==> Counted(b, n, AfterClaim(ps, pl, AreasAfter(b0, pl, p)), Dec64(free))
  {
    ClaimShape(b0, b, w, h, n, p, pl);
    var ps' := AfterClaim(ps, pl, AreasAfter(b0, pl, p));
    forall i | 0 <= i < n ensures ps'[i].numberOfAreas == |Comps(Owned(b, i + 1))| <= maxAreas {
      ClaimAreas(b0, b, w, h, n, maxAreas, ps, pl, p, i);
    }
    assert Arranged(b, w, h, n, maxAreas, ps');
    if Counted(b0, n, ps, free) {
      ClaimCounted(b0, b, n, ps, free, pl, p, AreasAfter(b0, pl, p));
    }
  }

  /** The claimed board keeps its shape, and its owners stay among the players. */
  lemma ClaimShape(b0: Board, b: Board, w: nat, h: nat, n: nat, p: Pos, pl: nat)
    requires Rect(b0, w, h) && Claimed(b0, b, p, pl) && pl <= n
    requires forall q :: InB(b0, q) ==> Owner(b0, q) <= n
    ensures Rect(b, w, h) && forall q :: InB(b, q) ==> Owner(b, q) <= n
  {
    forall x | 0 <= x < w ensures |b[x]| == h {
      assert |b0[x]| == h;
    }
    forall q | InB(b, q) ensures InB(b0, q) {
      assert |b0[q.x]| == |b[q.x]|;
    }
  }

  /** Only pl's area count changes, to its count after the claim. */
  lemma ClaimAreas(b0: Board, b: Board, w: nat, h: nat, n: nat, maxAreas: nat, ps: seq<Player>, pl: nat, p: Pos, i: nat)
    requires Arranged(b0, w, h, n, maxAreas, ps) && 1 <= pl <= n && InB(b0, p) && Owner(b0, p) == 0
    requires Claimed(b0, b, p, pl) && AreasAfter(b0, pl, p) <= maxAreas && i < n
    ensures AfterClaim(ps, pl, AreasAfter(b0, pl, p))[i].numberOfAreas == |Comps(Owned(b, i + 1))| <= maxAreas
  {
    AreasOf(b0, w, h, n, maxAreas, ps, i + 1);
    ClaimedOwned(b0, b, p, pl, i + 1);
    if i + 1 != pl {
      assert Owned(b0, i + 1) - {p} == Owned(b0, i + 1);
    }
  }

  /** Only pl's busy fields grow, by one, and one empty field is gone. */
  lemma ClaimCounted(b0: Board, b: Board, n: nat, ps: seq<Player>, free: nat, pl: nat, p: Pos, areas: nat)
    requires |ps| == n && 1 <= pl <= n && InB(b0, p) && Owner(b0, p) == 0 && Claimed(b0, b, p, pl)
    requires Counted(b0, n, ps, free) && free < U64
    ensures Counted(b, n, AfterClaim(ps, pl, areas), Dec64(free))
  {
    var ps' := AfterClaim(ps, pl, areas);
    forall i | 0 <= i < n ensures ps'[i].busyFields == |Owned(b, i + 1)| {
      ClaimBusy(b0, b, p, pl, i + 1);
    }
    ClaimFree(b0, b, p, pl);
    assert Dec64(free) == free - 1;
  }

  /** The claiming player has one field more, every other player the same fields. */
  lemma ClaimBusy(b0: Board, b: Board, p: Pos, pl: nat, o: nat)
    requires InB(b0, p) && Owner(b0, p) == 0 && o != 0 && Claimed(b0, b, p, pl)
    ensures |Owned(b, o)| == if o == pl then |Owned(b0, o)| + 1 else |Owned(b0, o)|
  {
    ClaimedOwned(b0, b, p, pl, o);
    if o != pl {
      assert Owned(b0, o) - {p} == Owned(b0, o);
    }
  }

  /** The claimed field was one of the empty fields, and is one no more. */
  lemma ClaimFree(b0: Board, b: Board, p: Pos, pl: nat)
    requires InB(b0, p) && Owner(b0, p) == 0 && pl != 0 && Claimed(b0, b, p, pl)
    ensures |Owned(b0, 0)| > 0 && |Owned(b, 0)| == |Owned(b0, 0)| - 1
  {
    ClaimedOwned(b0, b, p, pl, 0);
    assert p in Owned(b0, 0);
  }
}
