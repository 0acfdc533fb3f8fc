/** The golden move of gamma.c: taking a field from another player, which may
    split that player's area into several, and the probe that asks whether
    such a move exists anywhere on the board. */
module GammaGolden {
  import opened Walks
  import opened Grid
  import opened Forest
  import opened Areas
  import opened GammaState
  import opened Floods
  import opened UnionFind
  import opened Claims
  import opened Golden
  import opened Gamma

  /** x - 1 on a uint32_t: 0 wraps to the largest value, which lies off every board. */
  function Pred32(v: nat): nat
  {
    if v == 0 then 0xFFFF_FFFF else v - 1
  }

  /** The four neighbours UnionNewAreas floods from cover every neighbour of p. */
  lemma NeighbourCases(p: Pos, n: Pos)
    requires Adjacent(p, n)
    ensures n == Pos(Pred32(p.x), p.y) || n == Pos(p.x + 1, p.y) || n == Pos(p.x, Pred32(p.y)) || n == Pos(p.x, p.y + 1)
  {
  }

  /** Owners kept twice are kept. */
  lemma SameOwnersTrans(b0: Board, b1: Board, b2: Board)
    requires SameOwners(b0, b1) && SameOwners(b1, b2)
    ensures SameOwners(b0, b2)
  {
    forall q | InB(b0, q) ensures Owner(b2, q) == Owner(b0, q) {
      assert InB(b1, q);
    }
  }

  /** A claim followed by changes that keep every owner is the same claim. */
  lemma ClaimedSame(b0: Board, b1: Board, b2: Board, p: Pos, pl: nat)
    requires Claimed(b0, b1, p, pl) && SameOwners(b1, b2)
    ensures Claimed(b0, b2, p, pl)
  {
    forall q | InB(b0, q) ensures Owner(b2, q) == if q == p then pl else Owner(b0, q) {
      assert InB(b1, q);
    }
  }

  /** ResetBoardElement: the field p becomes empty and a union-find class of its
      own (its own parent, size one); its visited flag is kept. */
  method ResetBoardElement(g: Game, p: Pos)
    requires g.Mirror() && p.x < g.width && p.y < g.height
    modifies g.board, g`cells
    ensures g.Mirror()
    ensures g.cells == Put(old(g.cells), p, At(old(g.cells), p).(playerNumber := 0, parentX := p.x, parentY := p.y, size := 1))
  {
    assert InB(g.cells, p) && g.board[p.x, p.y] == At(g.cells, p);
    var c := g.board[p.x, p.y];
    SetCell(g, p, c.(playerNumber := 0, parentX := p.x, parentY := p.y, size := 1));
  }

  /** One of the four steps of UnionNewAreas: the flood that joins the fields of
      o around n into one class, then the flood that clears its marks. Whatever
      piece of the split area holds n is settled afterwards. */
  method FloodPieceAt(g: Game, o: nat, n: Pos, ghost P: set<Pos>) returns (ghost P': set<Pos>)
    requires g.Mirror() && Pending(g.cells, o, P)
    modifies g.board, g`cells
    ensures g.Mirror() && Pending(g.cells, o, P') && P' <= P && SameOwners(old(g.cells), g.cells)
    ensures InB(old(g.cells), n) ==> n !in P'
  {
    ghost var b := g.cells;
    ghost var r := UnionAllAdjacent(g, o, n, n);
    ghost var b1 := g.cells;
    RemoveVisited(g, o, n);
    P' := PieceStep(b, b1, g.cells, o, P, n, r);
  }

  /** UnionNewAreas: floods from each of the four neighbours of p (an off-board
      one does nothing), so that every piece of o's old area around p becomes
      one union-find class again. With P the pieces still pending, all of them
      next to p, the classes are the areas once more. */
  method UnionNewAreas(g: Game, o: nat, p: Pos, ghost P: set<Pos>)
    requires g.Mirror() && Pending(g.cells, o, P) && p.x < g.width && p.y < g.height
    requires p !in Owned(g.cells, o)
    requires forall q :: q in P ==> q in Reach(Owned(g.cells, o) + {p}, p)
    modifies g.board, g`cells
    ensures g.Mirror() && IsForest(g.cells) && NoneVisited(g.cells) && Partition(g.cells)
    ensures SameOwners(old(g.cells), g.cells)
  {
    ghost var b := g.cells;
    ghost var P1 := FloodPieceAt(g, o, Pos(Pred32(p.x), p.y), P);
    ghost var b1 := g.cells;
    ghost var P2 := FloodPieceAt(g, o, Pos(p.x + 1, p.y), P1);
    ghost var b2 := g.cells;
    ghost var P3 := FloodPieceAt(g, o, Pos(p.x, Pred32(p.y)), P2);
    ghost var b3 := g.cells;
    ghost var P4 := FloodPieceAt(g, o, Pos(p.x, p.y + 1), P3);
    ghost var b4 := g.cells;
    NewAreasDone(b, b1, b2, b3, b4, o, p, P, P1, P2, P3, P4);
  }

  /** After the four steps of UnionNewAreas no piece is pending any more. */
  lemma NewAreasDone(b: Board, b1: Board, b2: Board, b3: Board, b4: Board, o: nat, p: Pos,
                     P: set<Pos>, P1: set<Pos>, P2: set<Pos>, P3: set<Pos>, P4: set<Pos>)
    requires SameOwners(b, b1) && SameOwners(b1, b2) && SameOwners(b2, b3) && SameOwners(b3, b4)
    requires P4 <= P3 <= P2 <= P1 <= P && Pending(b4, o, P4)
    requires InB(b, Pos(Pred32(p.x), p.y)) ==> Pos(Pred32(p.x), p.y) !in P1
    requires InB(b1, Pos(p.x + 1, p.y)) ==> Pos(p.x + 1, p.y) !in P2
    requires InB(b2, Pos(p.x, Pred32(p.y))) ==> Pos(p.x, Pred32(p.y)) !in P3
    requires InB(b3, Pos(p.x, p.y + 1)) ==> Pos(p.x, p.y + 1) !in P4
    requires p !in Owned(b, o)
    requires forall q :: q in P ==> q in Reach(Owned(b, o) + {p}, p)
    ensures Partition(b4) && SameOwners(b, b4)
  {
    SameOwnersTrans(b, b1, b2);
    SameOwnersTrans(b, b2, b3);
    SameOwnersTrans(b, b3, b4);
    SameOwnersOwned(b, b4, o);
    forall n | InB(b4, n) && Adjacent(p, n) ensures n !in P4 {
      assert InB(b, n) && InB(b1, n) && InB(b2, n) && InB(b3, n);
      NeighbourCases(p, n);
    }
    PendingDone(b4, o, P4, p);
    PendingNone(b4, o);
  }

  /** Steps shared by gamma_golden_move and TestForGolden: the area of the
      owner o of p is broken into single fields, p is emptied and the pieces
      that are left are joined again. The owners are those of before, less p. */
  method SplitArea(g: Game, p: Pos) returns (o: nat)
    requires g.Mirror() && IsForest(g.cells) && Partition(g.cells) && NoneVisited(g.cells)
    requires p.x < g.width && p.y < g.height && Owner(g.cells, p) != 0
    modifies g.board, g`cells
    ensures o == Owner(old(g.cells), p)
    ensures g.Mirror() && IsForest(g.cells) && NoneVisited(g.cells) && Partition(g.cells)
    ensures Claimed(old(g.cells), g.cells, p, 0)
  {
    ghost var b0 := g.cells;
    assert InB(b0, p) && g.board[p.x, p.y] == At(b0, p);
    o := g.board[p.x, p.y].playerNumber;
    RemoveUnionOnAdjacent(g, o, p);
    ghost var b1 := g.cells;
    RemoveVisited(g, o, p);
    ghost var b2 := g.cells;
    assert InB(b2, p);
    ResetBoardElement(g, p);
    ghost var b3 := g.cells;
    BrokenUp(b0, b1, b2, b3, p);
    SplitForest(b0, b3, p);
    PendingStart(b0, b3, p);
    ClaimedOwned(b0, b3, p, 0, o);
    assert Owned(b3, o) + {p} == Owned(b0, o);
    UnionNewAreas(g, o, p, AreaOf(b0, p) - {p});
    ClaimedSame(b0, b3, g.cells, p, 0);
  }
  /** The number of areas the owner of p is left with once p is taken away. */
  ghost function AreasLeft(b: Board, p: Pos): nat
    requires InB(b, p)
  {
    |Comps(Owned(b, Owner(b, p)) - {p})|
  }

  /** Taking p from its owner for pl leaves both of them within maxAreas. */
  ghost predicate Stealable(b: Board, maxAreas: nat, pl: nat, p: Pos)
    requires InB(b, p)
  {
    AreasAfter(b, pl, p) <= maxAreas && AreasLeft(b, p) <= maxAreas
  }

  /** When gamma_golden_move succeeds: p lies on the board and belongs to
      another player, pl has not used the golden move, and the move keeps
      both players within the limit of areas. */
  ghost predicate GoldenLegal(b: Board, ps: seq<Player>, maxAreas: nat, pl: nat, p: Pos)
  {
    && InB(b, p) && 1 <= pl <= |ps| && Owner(b, p) != 0 && Owner(b, p) != pl
    && ps[pl - 1].goldPossible && Stealable(b, maxAreas, pl, p)
  }

  /** busy_fields-- on a uint64_t: zero wraps to the largest value. */
  function BusyDown(v: nat): nat
  {
    if v == 0 then U64 - 1 else v - 1
  }

  /** The counters after a golden move by pl on a field of o: o has left areas
      and one field less, pl has after areas, one field more and no golden
      move left. */
  function AfterGolden(ps: seq<Player>, pl: nat, o: nat, after: nat, left: nat): (ps': seq<Player>)
    requires 1 <= pl <= |ps| && 1 <= o <= |ps| && pl != o
    ensures |ps'| == |ps|
    ensures ps'[pl - 1] == Player(after, ps[pl - 1].busyFields + 1, false)
    ensures ps'[o - 1] == Player(left, BusyDown(ps[o - 1].busyFields), ps[o - 1].goldPossible)
    ensures forall i :: 0 <= i < |ps| && i != pl - 1 && i != o - 1 ==> ps'[i] == ps[i]
  {
    var ps1 := ps[o - 1 := ps[o - 1].(numberOfAreas := left)];
    var ps2 := AfterClaim(ps1, pl, after);
    var ps3 := ps2[pl - 1 := ps2[pl - 1].(goldPossible := false)];
    ps3[o - 1 := ps3[o - 1].(busyFields := BusyDown(ps3[o - 1].busyFields))]
  }

  /** Same owners, same verdict of Stealable. */
  lemma StealableSame(b: Board, b': Board, maxAreas: nat, pl: nat, p: Pos)
    requires SameOwners(b, b') && InB(b, p)
    ensures InB(b', p) && (Stealable(b', maxAreas, pl, p) <==> Stealable(b, maxAreas, pl, p))
  {
    SameOwnersOwned(b, b', pl);
    SameOwnersOwned(b, b', Owner(b, p));
  }

  /** The check of gamma_golden_move and TestForGolden before the split (no
      field of pl next to p while pl is at the limit) holds exactly when
      taking p would give pl too many areas. */
  lemma JoinCheck(b: Board, w: nat, h: nat, n: nat, maxAreas: nat, ps: seq<Player>, pl: nat, p: Pos)
    requires Arranged(b, w, h, n, maxAreas, ps) && 1 <= pl <= n && InB(b, p) && Owner(b, p) != pl
    ensures (|OwnedAround(b, pl, p)| == 0 && ps[pl - 1].numberOfAreas == maxAreas) <==> AreasAfter(b, pl, p) > maxAreas
  {
    var S := Owned(b, pl);
    AreasOf(b, w, h, n, maxAreas, ps, pl);
    AddCell(S, p);
    RootsCountAreas(b, pl, p);
    if t :| t in OwnedAround(b, pl, p) {
      assert Reach(S, t) in CompsAround(S, p);
    } else {
      assert Roots(b, OwnedAround(b, pl, p)) == {};
    }
  }

  /** The count of gamma_golden_move after the split: the k classes of o around
      p, less the one area they formed, on top of o's old count, are the areas
      o is left with. */
  lemma LeftCount(b0: Board, b: Board, p: Pos, k: int)
    requires InB(b0, p) && Owner(b0, p) != 0 && IsForest(b) && Partition(b)
    requires Owned(b, Owner(b0, p)) == Owned(b0, Owner(b0, p)) - {p}
    requires k == |Roots(b, OwnedAround(b, Owner(b0, p), p))|
    ensures k - 1 + |Comps(Owned(b0, Owner(b0, p)))| == AreasLeft(b0, p)
  {
    RootsCountAreas(b, Owner(b0, p), p);
    RemoveCell(Owned(b0, Owner(b0, p)), p);
  }

  /** Path compression keeps the classes, the owners and the flags. */
  lemma PartitionKept(b0: Board, b1: Board)
    requires IsForest(b0) && IsForest(b1) && OnlyParents(b0, b1) && SameFind(b0, b1)
    requires Partition(b0) && NoneVisited(b0)
    ensures Partition(b1) && NoneVisited(b1) && SameOwners(b0, b1)
  {
    SameShapeAllPos(b0, b1);
    forall o ensures Owned(b1, o) == Owned(b0, o) {
      SameOwnersOwned(b0, b1, o);
    }
    forall a, c {:trigger Find(b1, a), Find(b1, c)} | InB(b1, a) && InB(b1, c)
      ensures Find(b1, a) == Find(b1, c) <==> SameArea(b1, a, c)
    {
      assert InB(b0, a) && InB(b0, c);
      assert Find(b0, a) == Find(b0, c) <==> SameArea(b0, a, c);
    }
  }

  /** The board split for pl's golden move, with o's count set to what o is
      left with, keeps everything Arranged asks for. */
  lemma SplitArranged(b0: Board, b: Board, w: nat, h: nat, n: nat, maxAreas: nat, ps: seq<Player>, p: Pos, left: nat)
    requires Arranged(b0, w, h, n, maxAreas, ps) && InB(b0, p) && Owner(b0, p) != 0
    requires IsForest(b) && Partition(b) && NoneVisited(b) && Claimed(b0, b, p, 0)
    requires left == AreasLeft(b0, p) <= maxAreas
    ensures Arranged(b, w, h, n, maxAreas, ps[Owner(b0, p) - 1 := ps[Owner(b0, p) - 1].(numberOfAreas := left)])
  {
    ClaimShape(b0, b, w, h, n, p, 0);
    var ps1 := ps[Owner(b0, p) - 1 := ps[Owner(b0, p) - 1].(numberOfAreas := left)];
    assert |ps1| == n;
    forall i | 0 <= i < n ensures ps1[i].numberOfAreas == |Comps(Owned(b, i + 1))| <= maxAreas {
      SplitAreas(b0, b, w, h, n, maxAreas, ps, p, left, i);
    }
    assert Arranged(b, w, h, n, maxAreas, ps1);
  }

  /** Only o's area count changes, to what o is left with. */
  lemma SplitAreas(b0: Board, b: Board, w: nat, h: nat, n: nat, maxAreas: nat, ps: seq<Player>, p: Pos, left: nat, i: nat)
    requires Arranged(b0, w, h, n, maxAreas, ps) && InB(b0, p) && Owner(b0, p) != 0 && Claimed(b0, b, p, 0)
    requires left == AreasLeft(b0, p) <= maxAreas && i < n
    ensures ps[Owner(b0, p) - 1 := ps[Owner(b0, p) - 1].(numberOfAreas := left)][i].numberOfAreas
            == |Comps(Owned(b, i + 1))| <= maxAreas
  {
    var o := Owner(b0, p);
    AreasOf(b0, w, h, n, maxAreas, ps, i + 1);
    ClaimedOwned(b0, b, p, 0, i + 1);
    if i + 1 == o {
      assert Owned(b, o) == Owned(b0, o) - {p};
    } else {
      assert Owned(b, i + 1) == Owned(b0, i + 1);
    }
  }

  /** A board with the owners of b0, whose classes are its areas, is as Arranged
      as b0 and keeps its field counts. */
  lemma OwnersArranged(b0: Board, b: Board, w: nat, h: nat, n: nat, maxAreas: nat, ps: seq<Player>, free: nat)
    requires Arranged(b0, w, h, n, maxAreas, ps)
    requires IsForest(b) && Partition(b) && NoneVisited(b) && SameOwners(b0, b)
    ensures Arranged(b, w, h, n, maxAreas, ps)
    ensures Counted(b0, n, ps, free) ==> Counted(b, n, ps, free)
  {
    SameShapeAllPos(b0, b);
    forall o ensures Owned(b, o) == Owned(b0, o) {
      SameOwnersOwned(b0, b, o);
    }
    forall x | 0 <= x < w ensures |b[x]| == h {
      assert |b0[x]| == h;
    }
  }
  /** Taking p away and giving it back to its owner keeps every owner. */
  lemma ClaimedBack(b0: Board, b1: Board, b2: Board, p: Pos)
    requires InB(b0, p) && Claimed(b0, b1, p, 0) && Claimed(b1, b2, p, Owner(b0, p))
    ensures SameOwners(b0, b2)
  {
    forall q | InB(b0, q) ensures Owner(b2, q) == Owner(b0, q) {
      assert InB(b1, q);
    }
  }

  /** Taking p away from its owner and giving it to pl is one claim for pl. */
  lemma ClaimedTwice(b0: Board, b1: Board, b2: Board, p: Pos, pl: nat)
    requires InB(b0, p) && Claimed(b0, b1, p, 0) && Claimed(b1, b2, p, pl)
    ensures Claimed(b0, b2, p, pl)
  {
    forall q | InB(b0, q) ensures Owner(b2, q) == if q == p then pl else Owner(b0, q) {
      assert InB(b1, q);
    }
  }

  /** Emptying a field of someone else keeps pl's fields and what taking p would give pl. */
  lemma AfterSame(b0: Board, b: Board, pl: nat, p: Pos)
    requires InB(b0, p) && Owner(b0, p) != pl && pl != 0 && Claimed(b0, b, p, 0)
    ensures Owned(b, pl) == Owned(b0, pl) && AreasAfter(b, pl, p) == AreasAfter(b0, pl, p)
  {
    ClaimedOwned(b0, b, p, 0, pl);
    assert Owned(b0, pl) - {p} == Owned(b0, pl);
  }

  /** The rollback of gamma_golden_move and TestForGolden: p goes back to its
      owner o and UnionAdjacent joins it with the pieces around it, which are
      one area again. The owners are those of b0, before the split. */
  method Restore(g: Game, o: nat, p: Pos, ghost b0: Board)
    requires g.Mirror() && IsForest(g.cells) && Partition(g.cells) && NoneVisited(g.cells)
    requires p.x < g.width && p.y < g.height && InB(b0, p) && Claimed(b0, g.cells, p, 0) && o == Owner(b0, p) != 0
    modifies g.board, g`cells
    ensures g.Mirror() && IsForest(g.cells) && Partition(g.cells) && NoneVisited(g.cells)
    ensures SameOwners(b0, g.cells)
  {
    ghost var b5 := g.cells;
    assert InB(b5, p) && g.board[p.x, p.y] == At(b5, p);
    var c := g.board[p.x, p.y];
    SetCell(g, p, c.(playerNumber := o));
    ghost var b6 := g.cells;
    ClaimPut(b5, b6, p, o);
    SameLinksFind(b5, b6);
    ghost var r := UnionAdjacent(g, o, p);
    ghost var b7 := g.cells;
    ClaimedLinks(b5, b6, b7, p, o);
    PutSame(b7, p, o);
    JoinClaim(b5, b5, b6, b7, b7, o, p, r);
    ClaimPartition(b5, b7, o, p, r);
    ClaimedBack(b0, b5, b7, p);
  }

  /** Writing a player's counters without its area count keeps Arranged. */
  lemma CountersArranged(b: Board, w: nat, h: nat, n: nat, maxAreas: nat, ps: seq<Player>, i: nat, v: Player)
    requires Arranged(b, w, h, n, maxAreas, ps) && i < |ps| && v.numberOfAreas == ps[i].numberOfAreas
    ensures Arranged(b, w, h, n, maxAreas, ps[i := v])
  {
  }

  /** After a golden move by pl on a field of o, the counters of AfterGolden
      count the fields when the old ones did. */
  lemma GoldenCounted(b0: Board, b: Board, n: nat, ps0: seq<Player>, free: nat, pl: nat, p: Pos, after: nat, left: nat)
    requires |ps0| == n && 1 <= pl <= n && InB(b0, p) && 1 <= Owner(b0, p) <= n && Owner(b0, p) != pl
    requires Claimed(b0, b, p, pl) && Counted(b0, n, ps0, free)
    ensures Counted(b, n, AfterGolden(ps0, pl, Owner(b0, p), after, left), free)
  {
    var ps := AfterGolden(ps0, pl, Owner(b0, p), after, left);
    forall i | 0 <= i < n ensures ps[i].busyFields == |Owned(b, i + 1)| {
      GoldenBusy(b0, b, n, ps0, pl, p, after, left, i);
    }
    KeptFields(b0, b, p, pl, 0);
  }

  /** One player's busy-field counter after a golden move. */
  lemma GoldenBusy(b0: Board, b: Board, n: nat, ps0: seq<Player>, pl: nat, p: Pos, after: nat, left: nat, i: nat)
    requires |ps0| == n && 1 <= pl <= n && InB(b0, p) && 1 <= Owner(b0, p) <= n && Owner(b0, p) != pl
    requires Claimed(b0, b, p, pl) && i < n && ps0[i].busyFields == |Owned(b0, i + 1)|
    ensures AfterGolden(ps0, pl, Owner(b0, p), after, left)[i].busyFields == |Owned(b, i + 1)|
  {
    var o := Owner(b0, p);
    var ps := AfterGolden(ps0, pl, o, after, left);
    if i + 1 == o {
      assert ps[i].busyFields == BusyDown(ps0[i].busyFields);
      LostField(b0, b, p, pl);
    } else if i + 1 == pl {
      assert ps[i].busyFields == ps0[i].busyFields + 1;
      ClaimedOwned(b0, b, p, pl, pl);
    } else {
      assert ps[i] == ps0[i];
      KeptFields(b0, b, p, pl, i + 1);
    }
  }

  /** The owner of p has one field less. */
  lemma LostField(b0: Board, b: Board, p: Pos, pl: nat)
    requires InB(b0, p) && Claimed(b0, b, p, pl) && Owner(b0, p) != pl
    ensures |Owned(b, Owner(b0, p))| == BusyDown(|Owned(b0, Owner(b0, p))|)
  {
    ClaimedOwned(b0, b, p, pl, Owner(b0, p));
    assert p in Owned(b0, Owner(b0, p));
  }

  /** A player other than pl and the owner of p keeps its fields. */
  lemma KeptFields(b0: Board, b: Board, p: Pos, pl: nat, k: nat)
    requires InB(b0, p) && Claimed(b0, b, p, pl) && k != pl && k != Owner(b0, p)
    ensures Owned(b, k) == Owned(b0, k)
  {
    ClaimedOwned(b0, b, p, pl, k);
    assert p !in Owned(b0, k);
  }

  /** Steps 1 to 5 of gamma_golden_move and TestForGolden: the split, then the
      number of areas the owner o of p has afterwards, as gamma.c computes it
      from NumOfUniqueAreas and o's old count. */
  method SplitCount(g: Game, p: Pos) returns (o: nat, left: int)
    requires g.Sound() && p.x < g.width && p.y < g.height && Owner(g.cells, p) != 0
    modifies g.board, g`cells
    ensures o == Owner(old(g.cells), p) && left == AreasLeft(old(g.cells), p)
    ensures g.Mirror() && IsForest(g.cells) && NoneVisited(g.cells) && Partition(g.cells)
    ensures Claimed(old(g.cells), g.cells, p, 0)
  {
    ghost var b0 := g.cells;
    AreasOf(b0, g.width, g.height, g.numberOfPlayers, g.maxAreas, g.players[..], Owner(b0, p));
    o := SplitArea(g, p);
    ghost var b4 := g.cells;
    var unique := NumOfUniqueAreas(g, o, p);
    PartitionKept(b4, g.cells);
    ClaimedSame(b0, b4, g.cells, p, 0);
    ClaimedOwned(b0, b4, p, 0, o);
    LeftCount(b0, b4, p, unique);
    left := unique - 1 + g.players[o - 1].numberOfAreas;
  }

  /** Step 6 of gamma_golden_move, once the split is legal: o's count becomes
      left, gamma_move gives p to pl, pl's golden move is used up, o loses a
      field and the empty fields are as many as before. */
  method Commit(g: Game, pl: nat, o: nat, p: Pos, left: nat, ghost b0: Board)
    requires g.Mirror() && g.freeFields < U64 && IsForest(g.cells) && Partition(g.cells) && NoneVisited(g.cells)
    requires Arranged(b0, g.width, g.height, g.numberOfPlayers, g.maxAreas, g.players[..])
    requires 1 <= pl <= g.numberOfPlayers && InB(b0, p) && o == Owner(b0, p) && o != 0 && o != pl
    requires Claimed(b0, g.cells, p, 0)
    requires left == AreasLeft(b0, p) <= g.maxAreas && AreasAfter(b0, pl, p) <= g.maxAreas
    modifies g.board, g`cells, g.players, g`freeFields
    ensures g.Sound() && g.freeFields == old(g.freeFields)
    ensures Claimed(b0, g.cells, p, pl)
    ensures g.players[..] == AfterGolden(old(g.players[..]), pl, o, AreasAfter(b0, pl, p), left)
    ensures Counted(b0, g.numberOfPlayers, old(g.players[..]), old(g.freeFields)) ==>
              Counted(g.cells, g.numberOfPlayers, g.players[..], g.freeFields)
  {
    ghost var ps0 := g.players[..];
    TakeField(g, pl, o, p, left, b0);
    ghost var ps5 := g.players[..];
    UseGolden(g, pl, o);
    IncDec64(old(g.freeFields));
    GoldenPlayers(ps0, ps0[o - 1 := ps0[o - 1].(numberOfAreas := left)], ps5,
                  ps5[pl - 1 := ps5[pl - 1].(goldPossible := false)], g.players[..], pl, o, AreasAfter(b0, pl, p), left);
    if Counted(b0, g.numberOfPlayers, ps0, old(g.freeFields)) {
      GoldenCounted(b0, g.cells, g.numberOfPlayers, ps0, old(g.freeFields), pl, p, AreasAfter(b0, pl, p), left);
    }
  }

  /** o's count becomes left, then gamma_move gives p to pl; it cannot fail,
      since the checks of the golden move imply MoveLegal on the split board. */
  method TakeField(g: Game, pl: nat, o: nat, p: Pos, left: nat, ghost b0: Board)
    requires g.Mirror() && g.freeFields < U64 && IsForest(g.cells) && Partition(g.cells) && NoneVisited(g.cells)
    requires Arranged(b0, g.width, g.height, g.numberOfPlayers, g.maxAreas, g.players[..])
    requires 1 <= pl <= g.numberOfPlayers && InB(b0, p) && o == Owner(b0, p) && o != 0 && o != pl
    requires Claimed(b0, g.cells, p, 0)
    requires left == AreasLeft(b0, p) <= g.maxAreas && AreasAfter(b0, pl, p) <= g.maxAreas
    modifies g.board, g`cells, g.players, g`freeFields
    ensures g.Sound() && g.freeFields == Dec64(old(g.freeFields))
    ensures Claimed(b0, g.cells, p, pl)
    ensures g.players[..] == AfterClaim(old(g.players[..])[o - 1 := old(g.players[o - 1]).(numberOfAreas := left)],
                                        pl, AreasAfter(b0, pl, p))
  {
    ghost var b5 := g.cells;
    CountSplit(g, o, p, left, b0);
    AfterSame(b0, b5, pl, p);
    var moved := Move(g, pl, p);
    assert moved;
    ClaimedTwice(b0, b5, g.cells, p, pl);
  }

  /** o's area count becomes left, the count of the split board. */
  method CountSplit(g: Game, o: nat, p: Pos, left: nat, ghost b0: Board)
    requires g.Mirror() && g.freeFields < U64 && IsForest(g.cells) && Partition(g.cells) && NoneVisited(g.cells)
    requires Arranged(b0, g.width, g.height, g.numberOfPlayers, g.maxAreas, g.players[..])
    requires InB(b0, p) && o == Owner(b0, p) && o != 0 && Claimed(b0, g.cells, p, 0)
    requires left == AreasLeft(b0, p) <= g.maxAreas
    modifies g.players
    ensures g.Sound() && g.players[..] == old(g.players[..])[o - 1 := old(g.players[o - 1]).(numberOfAreas := left)]
  {
    SplitArranged(b0, g.cells, g.width, g.height, g.numberOfPlayers, g.maxAreas, g.players[..], p, left);
    SetPlayer(g, o - 1, g.players[o - 1].(numberOfAreas := left));
  }

  /** pl's golden move is used up and the owner o loses a field from its count
      (a 64-bit decrement); the empty fields go back up by one. */
  method UseGolden(g: Game, pl: nat, o: nat)
    requires g.Sound() && 1 <= pl <= g.numberOfPlayers && 1 <= o <= g.numberOfPlayers && pl != o
    modifies g.players, g`freeFields
    ensures g.Sound() && g.freeFields == Inc64(old(g.freeFields))
    ensures g.players[..] == old(g.players[..])[pl - 1 := old(g.players[pl - 1]).(goldPossible := false)]
                                               [o - 1 := old(g.players[o - 1]).(busyFields := BusyDown(old(g.players[o - 1]).busyFields))]
  {
    SetCounters(g, pl - 1, g.players[pl - 1].(goldPossible := false));
    SetCounters(g, o - 1, g.players[o - 1].(busyFields := BusyDown(g.players[o - 1].busyFields)));
    g.freeFields := Inc64(g.freeFields);
  }

  /** Writes the counters of one player other than its area count. */
  method SetCounters(g: Game, i: nat, v: Player)
    requires g.Sound() && i < g.players.Length && v.numberOfAreas == g.players[i].numberOfAreas
    modifies g.players
    ensures g.Sound() && g.players[..] == old(g.players[..])[i := v]
  {
    CountersArranged(g.cells, g.width, g.height, g.numberOfPlayers, g.maxAreas, g.players[..], i, v);
    SetPlayer(g, i, v);
  }

  /** The four writes of the players' counters in gamma_golden_move make AfterGolden. */
  lemma GoldenPlayers(ps0: seq<Player>, ps1: seq<Player>, ps5: seq<Player>, ps6: seq<Player>, ps7: seq<Player>,
                      pl: nat, o: nat, after: nat, left: nat)
    requires 1 <= pl <= |ps0| && 1 <= o <= |ps0| && pl != o
    requires ps1 == ps0[o - 1 := ps0[o - 1].(numberOfAreas := left)]
    requires ps5 == AfterClaim(ps1, pl, after)
    requires ps6 == ps5[pl - 1 := ps5[pl - 1].(goldPossible := false)]
    requires ps7 == ps6[o - 1 := ps6[o - 1].(busyFields := BusyDown(ps6[o - 1].busyFields))]
    ensures ps7 == AfterGolden(ps0, pl, o, after, left)
  {
  }

  /** gamma_golden_move: pl takes the field p of another player when
      GoldenLegal holds. The owner's area is split and joined again around p;
      when the owner would be left with too many areas the board is put back
      (same owners) and nothing else changes. */
  method GoldenMove(g: Game, pl: nat, p: Pos) returns (ok: bool)
    requires g.Sound() && pl <= g.numberOfPlayers
    modifies g.board, g`cells, g.players, g`freeFields
    ensures g.Sound() && g.freeFields == old(g.freeFields)
    ensures ok <==> GoldenLegal(old(g.cells), old(g.players[..]), g.maxAreas, pl, p)
    ensures ok ==> && Claimed(old(g.cells), g.cells, p, pl)
                   && g.players[..] == AfterGolden(old(g.players[..]), pl, Owner(old(g.cells), p),
                                                   AreasAfter(old(g.cells), pl, p), AreasLeft(old(g.cells), p))
    ensures !ok ==> SameOwners(old(g.cells), g.cells) && g.players[..] == old(g.players[..])
    ensures old(g.Valid()) ==> g.Valid()
  {
    ok := false;
    if p.x < g.width && p.y < g.height && pl != 0 {
      assert InB(g.cells, p) && g.board[p.x, p.y] == At(g.cells, p);
      var owner := g.board[p.x, p.y].playerNumber;
      if owner != 0 && owner != pl && g.players[pl - 1].goldPossible {
        ok := Steal(g, pl, p);
      }
    }
  }

  /** The rest of gamma_golden_move once p is a field of another player and pl
      still has its golden move: it succeeds exactly when Stealable holds. */
  method Steal(g: Game, pl: nat, p: Pos) returns (ok: bool)
    requires g.Sound() && 1 <= pl <= g.numberOfPlayers && p.x < g.width && p.y < g.height
    requires Owner(g.cells, p) != 0 && Owner(g.cells, p) != pl
    modifies g.board, g`cells, g.players, g`freeFields
    ensures g.Sound() && g.freeFields == old(g.freeFields)
    ensures ok <==> Stealable(old(g.cells), g.maxAreas, pl, p)
    ensures ok ==> && Claimed(old(g.cells), g.cells, p, pl)
                   && g.players[..] == AfterGolden(old(g.players[..]), pl, Owner(old(g.cells), p),
                                                   AreasAfter(old(g.cells), pl, p), AreasLeft(old(g.cells), p))
    ensures !ok ==> SameOwners(old(g.cells), g.cells) && g.players[..] == old(g.players[..])
    ensures old(g.Valid()) ==> g.Valid()
  {
    ghost var b0 := g.cells;
    var adjacent := NumberOfAdjacent(g, pl, p);
    JoinCheck(b0, g.width, g.height, g.numberOfPlayers, g.maxAreas, g.players[..], pl, p);
    if adjacent == 0 && g.players[pl - 1].numberOfAreas == g.maxAreas {
      return false;
    }
    var o, left := SplitCount(g, p);
    if left > g.maxAreas {
      Restore(g, o, p, b0);
      OwnersArranged(b0, g.cells, g.width, g.height, g.numberOfPlayers, g.maxAreas, g.players[..], g.freeFields);
      return false;
    }
    Commit(g, pl, o, p, left, b0);
    return true;
  }

  /** TestForGolden: could pl take the field p of another player? The split
      of gamma_golden_move is carried out and then always undone, so the
      owners stay as they are. */
  method TestForGolden(g: Game, p: Pos, pl: nat) returns (ok: bool)
    requires g.Sound() && 1 <= pl <= g.numberOfPlayers && p.x < g.width && p.y < g.height
    requires Owner(g.cells, p) != 0 && Owner(g.cells, p) != pl
    modifies g.board, g`cells
    ensures g.Sound() && SameOwners(old(g.cells), g.cells)
    ensures ok <==> Stealable(old(g.cells), g.maxAreas, pl, p)
    ensures old(g.Valid()) ==> g.Valid()
  {
    ghost var b0 := g.cells;
    var adjacent := NumberOfAdjacent(g, pl, p);
    JoinCheck(b0, g.width, g.height, g.numberOfPlayers, g.maxAreas, g.players[..], pl, p);
    ok := false;
    if !(adjacent == 0 && g.players[pl - 1].numberOfAreas == g.maxAreas) {
      var o, left := SplitCount(g, p);
      Restore(g, o, p, b0);
      OwnersArranged(b0, g.cells, g.width, g.height, g.numberOfPlayers, g.maxAreas, g.players[..], g.freeFields);
      ok := left <= g.maxAreas;
    }
  }

  /** A field on which pl could make its golden move, leaving aside whether
      pl still has it. */
  ghost predicate Target(b: Board, maxAreas: nat, pl: nat, q: Pos)
  {
    InB(b, q) && Owner(b, q) != 0 && Owner(b, q) != pl && Stealable(b, maxAreas, pl, q)
  }

  /** With its golden move unused, pl may make it exactly where Target holds. */
  lemma LegalTargets(b: Board, ps: seq<Player>, maxAreas: nat, pl: nat)
    requires 1 <= pl <= |ps| && ps[pl - 1].goldPossible
    ensures (exists q :: GoldenLegal(b, ps, maxAreas, pl, q)) <==> exists q :: Target(b, maxAreas, pl, q)
  {
    if q :| Target(b, maxAreas, pl, q) {
      assert GoldenLegal(b, ps, maxAreas, pl, q);
    }
    if q :| GoldenLegal(b, ps, maxAreas, pl, q) {
      assert Target(b, maxAreas, pl, q);
    }
  }

  /** gamma_golden_possible: whether pl can make a golden move somewhere.
      The board is probed, field by field, and every probe is undone. */
  method GoldenPossible(g: Game, pl: nat) returns (ok: bool)
    requires g.Sound()
    modifies g.board, g`cells
    ensures g.Sound() && SameOwners(old(g.cells), g.cells)
    ensures ok <==> exists q :: GoldenLegal(old(g.cells), g.players[..], g.maxAreas, pl, q)
    ensures old(g.Valid()) ==> g.Valid()
  {
    ok := false;
    if pl != 0 && pl <= g.numberOfPlayers && g.players[pl - 1].goldPossible {
      LegalTargets(g.cells, g.players[..], g.maxAreas, pl);
      ok := ScanBoard(g, pl);
    }
  }

  /** The loops of gamma_golden_possible: column after column, until a
      TestForGolden succeeds. */
  method ScanBoard(g: Game, pl: nat) returns (ok: bool)
    requires g.Sound() && 1 <= pl <= g.numberOfPlayers
    modifies g.board, g`cells
    ensures g.Sound() && SameOwners(old(g.cells), g.cells)
    ensures ok <==> exists q :: Target(old(g.cells), g.maxAreas, pl, q)
    ensures old(g.Valid()) ==> g.Valid()
  {
    ghost var b0 := g.cells;
    ok := false;
    var i := 0;
    while i < g.width && !ok
      invariant i <= g.width && g.Sound() && SameOwners(b0, g.cells)
      invariant old(g.Valid()) ==> g.Valid()
      invariant ok ==> exists q :: Target(b0, g.maxAreas, pl, q)
      invariant !ok ==> forall q :: InB(b0, q) && q.x < i ==> !Target(b0, g.maxAreas, pl, q)
    {
      ok := ScanColumn(g, pl, i, b0);
      i := i + 1;
    }
    assert !ok ==> forall q :: InB(b0, q) ==> q.x < i;
  }

  /** The inner loop of gamma_golden_possible over the fields of column i. */
  method ScanColumn(g: Game, pl: nat, i: nat, ghost b0: Board) returns (ok: bool)
    requires g.Sound() && 1 <= pl <= g.numberOfPlayers && i < g.width && SameOwners(b0, g.cells)
    modifies g.board, g`cells
    ensures g.Sound() && SameOwners(b0, g.cells)
    ensures old(g.Valid()) ==> g.Valid()
    ensures ok ==> exists q :: Target(b0, g.maxAreas, pl, q)
    ensures !ok ==> forall y: nat :: y < g.height ==> !Target(b0, g.maxAreas, pl, Pos(i, y))
  {
    ok := false;
    var j := 0;
    while j < g.height && !ok
      invariant j <= g.height && g.Sound() && SameOwners(b0, g.cells)
      invariant old(g.Valid()) ==> g.Valid()
      invariant ok ==> exists q :: Target(b0, g.maxAreas, pl, q)
      invariant !ok ==> forall y: nat :: y < j ==> !Target(b0, g.maxAreas, pl, Pos(i, y))
    {
      ok := Probe(g, pl, Pos(i, j), b0);
      j := j + 1;
    }
  }

  /** One field of gamma_golden_possible: TestForGolden runs only on a field
      of another player. */
  method Probe(g: Game, pl: nat, q: Pos, ghost b0: Board) returns (ok: bool)
    requires g.Sound() && 1 <= pl <= g.numberOfPlayers && q.x < g.width && q.y < g.height && SameOwners(b0, g.cells)
    modifies g.board, g`cells
    ensures g.Sound() && SameOwners(b0, g.cells)
    ensures old(g.Valid()) ==> g.Valid()
    ensures ok <==> Target(b0, g.maxAreas, pl, q)
  {
    ghost var b1 := g.cells;
    assert InB(b1, q) && g.board[q.x, q.y] == At(b1, q);
    assert InB(b0, q) && Owner(b0, q) == Owner(b1, q);
    ok := false;
    var owner := g.board[q.x, q.y].playerNumber;
    if owner != 0 && owner != pl {
      ok := TestForGolden(g, q, pl);
      StealableSame(b0, b1, g.maxAreas, pl, q);
    }
    SameOwnersTrans(b0, b1, g.cells);
  }
}
