/** The game engine (gamma.c): creation, the ordinary and the golden move,
    the counters it reports and the flood that undoes the visited marks. */
module Gamma {
  import opened Walks
  import opened Grid
  import opened Forest
  import opened Areas
  import opened GammaState
  import opened Floods
  import opened UnionFind
  import opened Claims

  /** gamma_new: no game when a dimension, the number of players or the
      limit of areas is zero; otherwise an empty board on which every field
      is free. free_fields_under_max_areas receives width * height computed
      in 32 bits, so the counters agree with the board when that product fits. */
  method GameNew(w: nat, h: nat, n: nat, areas: nat) returns (g: Game?)
    ensures g == null <==> w == 0 || h == 0 || areas == 0 || n == 0
    ensures g != null ==> && fresh(g) && g.Sound()
                          && g.width == w && g.height == h && g.numberOfPlayers == n && g.maxAreas == areas
                          && g.cells == InitialBoard(w, h) && g.freeFields == (w * h) % 0x1_0000_0000
                          && g.players[..] == seq(n, i => Player(0, 0, true))
    ensures g != null && w * h < 0x1_0000_0000 ==> g.Valid()
  {
    if w == 0 || h == 0 || areas == 0 || n == 0 {
      return null;
    }
    g := new Game(w, h, n, areas);
    InitialArranged(w, h, n, areas);
  }

  /** A flood clearing from p has cleared D: ClearedOn from b0 on D, and every
      field of D visited in b0 (p first of all). */
  ghost predicate Clearing(b0: Board, b: Board, pl: nat, p: Pos, D: set<Pos>)
  {
    && InB(b0, p) && At(b0, p).visited
    && FloodSoFar(VisitedOf(b0, pl) + {p}, p, D) && ClearedOn(b0, b, D)
  }

  /** The flood still has visited fields in front of it: fewer than at its start. */
  lemma ClearingShrinks(b0: Board, b: Board, pl: nat, p: Pos, D: set<Pos>)
    requires Clearing(b0, b, pl, p, D)
    ensures |AllVisited(b)| < |AllVisited(b0)|
  {
    ClearedVisited(b0, b, pl, D);
    Shrinks(AllVisited(b0), D, p);
  }

  /** RemoveVisited: from a visited field p, clears the visited flag of p and of
      every visited field of pl a flood from p reaches through them; an
      off-board or unvisited p changes nothing. Only the flags change. */
  method RemoveVisited(g: Game, pl: nat, p: Pos)
    requires g.Mirror()
    modifies g.board, g`cells
    ensures g.Mirror()
    ensures ClearedOn(old(g.cells), g.cells, Cleared(old(g.cells), pl, p))
    decreases |AllVisited(g.cells)|, 0
  {
    ghost var b0 := g.cells;
    if !(p.x < g.width && p.y < g.height) {
      ResetOnNone(b0);
      return;
    }
    var c := g.board[p.x, p.y];
    assert c == At(b0, p);
    if !c.visited {
      ResetOnNone(b0);
      return;
    }
    SetCell(g, p, c.(visited := false));
    ghost var S := VisitedOf(b0, pl) + {p};
    ghost var D: set<Pos> := {p};
    ClearedOnPut(b0, p);
    FloodStart(S, p);
    if p.x > 0 {
      ClearingShrinks(b0, g.cells, pl, p, D);
      D := ClearIfOwned(g, pl, p, Pos(p.x - 1, p.y), b0, D);
    }
    if p.x + 1 < g.width {
      ClearingShrinks(b0, g.cells, pl, p, D);
      D := ClearIfOwned(g, pl, p, Pos(p.x + 1, p.y), b0, D);
    }
    if p.y > 0 {
      ClearingShrinks(b0, g.cells, pl, p, D);
      D := ClearIfOwned(g, pl, p, Pos(p.x, p.y - 1), b0, D);
    }
    if p.y + 1 < g.height {
      ClearingShrinks(b0, g.cells, pl, p, D);
      D := ClearIfOwned(g, pl, p, Pos(p.x, p.y + 1), b0, D);
    }
    ClearingDone(b0, g.cells, g.width, g.height, pl, p, D);
  }

  /** A clearing flood that has tried every on-board neighbour of p has cleared
      exactly what RemoveVisited promises. */
  lemma ClearingDone(b0: Board, b: Board, w: nat, h: nat, pl: nat, p: Pos, D: set<Pos>)
    requires Rect(b0, w, h) && Clearing(b0, b, pl, p, D)
    requires p.x > 0 ==> (Pos(p.x - 1, p.y) in VisitedOf(b0, pl) ==> Pos(p.x - 1, p.y) in D)
    requires p.x + 1 < w ==> (Pos(p.x + 1, p.y) in VisitedOf(b0, pl) ==> Pos(p.x + 1, p.y) in D)
    requires p.y > 0 ==> (Pos(p.x, p.y - 1) in VisitedOf(b0, pl) ==> Pos(p.x, p.y - 1) in D)
    requires p.y + 1 < h ==> (Pos(p.x, p.y + 1) in VisitedOf(b0, pl) ==> Pos(p.x, p.y + 1) in D)
    ensures ClearedOn(b0, b, Cleared(b0, pl, p))
  {
    var S := VisitedOf(b0, pl) + {p};
    TriedAround(b0, w, h, S, p, D);
    FloodDone(S, p, D);
  }

  /** One guarded recursive call of RemoveVisited, from p towards its on-board
      neighbour n; D holds the fields cleared so far. */
  method ClearIfOwned(g: Game, pl: nat, p: Pos, n: Pos, ghost b0: Board, ghost D: set<Pos>) returns (ghost D': set<Pos>)
    requires g.Mirror() && InB(b0, n) && Adjacent(p, n) && Clearing(b0, g.cells, pl, p, D)
    modifies g.board, g`cells
    ensures g.Mirror() && Clearing(b0, g.cells, pl, p, D') && D <= D'
    ensures n in VisitedOf(b0, pl) ==> n in D'
    decreases |AllVisited(g.cells)|, 1
  {
    ghost var b1 := g.cells;
    assert InB(b1, n) && g.board[n.x, n.y] == At(b1, n);
    if g.board[n.x, n.y].playerNumber == pl {
      ClearStepOn(b0, b1, pl, p, D, n);
      RemoveVisited(g, pl, n);
      D' := ClearedFurther(b0, b1, g.cells, pl, p, D, n);
    } else {
      D' := D;
      assert Owner(b0, n) != pl;
    }
  }

  /** Before the recursive call at n: what it will clear is what is left of the
      flood's set around n. */
  lemma ClearStepOn(b0: Board, b1: Board, pl: nat, p: Pos, D: set<Pos>, n: Pos)
    requires Clearing(b0, b1, pl, p, D) && InB(b1, n) && Owner(b1, n) == pl
    ensures Cleared(b1, pl, n) == Reach(VisitedOf(b0, pl) + {p} - D, n)
  {
    ClearStep(b0, b1, pl, p, D, n);
  }

  /** After the recursive call at n: the flood has cleared D and what n reaches. */
  lemma ClearedFurther(b0: Board, b1: Board, b2: Board, pl: nat, p: Pos, D: set<Pos>, n: Pos) returns (D': set<Pos>)
    requires Clearing(b0, b1, pl, p, D) && Adjacent(p, n)
    requires ClearedOn(b1, b2, Reach(VisitedOf(b0, pl) + {p} - D, n))
    ensures D' == D + Reach(VisitedOf(b0, pl) + {p} - D, n)
    ensures Clearing(b0, b2, pl, p, D') && D <= D'
    ensures n in VisitedOf(b0, pl) ==> n in D'
  {
    var S := VisitedOf(b0, pl) + {p};
    ClearedOnTrans(b0, b1, b2, D, Reach(S - D, n));
    FloodStep(S, p, D, n);
    D' := D + Reach(S - D, n);
  }

  /** gamma_move: player pl takes the empty field p when pl is a player and the
      move keeps pl within the limit of areas; otherwise nothing but the
      compression of union-find paths happens. */
  method Move(g: Game, pl: nat, p: Pos) returns (ok: bool)
    requires g.Sound()
    modifies g.board, g`cells, g.players, g`freeFields
    ensures g.Sound()
    ensures ok <==> MoveLegal(old(g.cells), g.numberOfPlayers, g.maxAreas, pl, p)
    ensures ok ==> && Claimed(old(g.cells), g.cells, p, pl)
                   && g.players[..] == AfterClaim(old(g.players[..]), pl, AreasAfter(old(g.cells), pl, p))
                   && g.freeFields == Dec64(old(g.freeFields))
    ensures !ok ==> OnlyParents(old(g.cells), g.cells) && g.players[..] == old(g.players[..]) && g.freeFields == old(g.freeFields)
    ensures old(g.Valid()) ==> g.Valid()
  {
    ghost var b0 := g.cells;
    if !(p.x < g.width && p.y < g.height) || pl == 0 {
      return false;
    }
    assert InB(b0, p) && g.board[p.x, p.y] == At(b0, p);
    if g.board[p.x, p.y].playerNumber != 0 || g.board[p.x, p.y].playerNumber == pl {
      return false;
    }
    if pl > g.numberOfPlayers {
      return false;
    }
    MoveCount(b0, pl, p);
    AreasOf(b0, g.width, g.height, g.numberOfPlayers, g.maxAreas, g.players[..], pl);
    var k := NumOfUniqueAreas(g, pl, p);
    if k == 0 {
      ok := MoveAlone(g, pl, p, b0);
    } else {
      MoveJoin(g, pl, p, k, b0);
      ok := true;
    }
  }

  /** The branch of gamma_move for a field with no area of pl around it. */
  method MoveAlone(g: Game, pl: nat, p: Pos, ghost b0: Board) returns (ok: bool)
    requires g.Mirror() && g.freeFields < U64 && IsForest(b0) && IsForest(g.cells)
    requires Arranged(b0, g.width, g.height, g.numberOfPlayers, g.maxAreas, g.players[..])
    requires OnlyParents(b0, g.cells) && SameFind(b0, g.cells)
    requires InB(b0, p) && Owner(b0, p) == 0 && 1 <= pl <= g.numberOfPlayers
    requires Roots(b0, OwnedAround(b0, pl, p)) == {}
    requires AreasAfter(b0, pl, p) == g.players[pl - 1].numberOfAreas + 1
    modifies g.board, g`cells, g.players, g`freeFields
    ensures g.Sound()
    ensures ok <==> MoveLegal(b0, g.numberOfPlayers, g.maxAreas, pl, p)
    ensures ok ==> && Claimed(b0, g.cells, p, pl)
                   && g.players[..] == AfterClaim(old(g.players[..]), pl, AreasAfter(b0, pl, p))
                   && g.freeFields == Dec64(old(g.freeFields))
    ensures !ok ==> OnlyParents(b0, g.cells) && g.players[..] == old(g.players[..]) && g.freeFields == old(g.freeFields)
    ensures Counted(b0, g.numberOfPlayers, old(g.players[..]), old(g.freeFields)) ==>
              Counted(g.cells, g.numberOfPlayers, g.players[..], g.freeFields)
  {
    ghost var ps := g.players[..];
    var player := g.players[pl - 1];
    if player.numberOfAreas + 1 > g.maxAreas {
      ArrangedKept(b0, g.cells, g.width, g.height, g.numberOfPlayers, g.maxAreas, ps);
      return false;
    }
    ClaimAlone(g, pl, p, b0);
    ClaimCounters(g, pl, p, player.(numberOfAreas := player.numberOfAreas + 1, busyFields := player.busyFields + 1), b0);
    ok := true;
  }

  /** The board side of MoveAlone: p changes owner and stays a class of its own. */
  method ClaimAlone(g: Game, pl: nat, p: Pos, ghost b0: Board)
    requires g.Mirror() && IsForest(b0) && IsForest(g.cells) && InB(b0, p) && NoneVisited(b0)
    requires Partition(b0) && Owner(b0, p) == 0 && pl != 0
    requires OnlyParents(b0, g.cells) && SameFind(b0, g.cells)
    requires Roots(b0, OwnedAround(b0, pl, p)) == {}
    modifies g.board, g`cells
    ensures g.Mirror() && IsForest(g.cells) && Claimed(b0, g.cells, p, pl) && NoneVisited(g.cells)
    ensures Partition(g.cells)
  {
    ghost var b1 := g.cells;
    var c := g.board[p.x, p.y];
    assert InB(b1, p) && c == At(b1, p);
    SetCell(g, p, c.(playerNumber := pl));
    LoneClaim(b0, b1, g.cells, pl, p);
    ClaimPartition(b0, g.cells, pl, p, Find(b0, p));
  }

  /** The branch of gamma_move that joins p with the k areas of pl around it. */
  method MoveJoin(g: Game, pl: nat, p: Pos, k: int, ghost b0: Board)
    requires g.Mirror() && g.freeFields < U64 && IsForest(b0) && IsForest(g.cells)
    requires Arranged(b0, g.width, g.height, g.numberOfPlayers, g.maxAreas, g.players[..])
    requires OnlyParents(b0, g.cells) && SameFind(b0, g.cells)
    requires MoveLegal(b0, g.numberOfPlayers, g.maxAreas, pl, p)
    requires k == |Roots(b0, OwnedAround(b0, pl, p))| && k > 0
    requires AreasAfter(b0, pl, p) == g.players[pl - 1].numberOfAreas + 1 - k
    modifies g.board, g`cells, g.players, g`freeFields
    ensures g.Sound()
    ensures Claimed(b0, g.cells, p, pl)
    ensures g.players[..] == AfterClaim(old(g.players[..]), pl, AreasAfter(b0, pl, p))
    ensures g.freeFields == Dec64(old(g.freeFields))
    ensures Counted(b0, g.numberOfPlayers, old(g.players[..]), old(g.freeFields)) ==>
              Counted(g.cells, g.numberOfPlayers, g.players[..], g.freeFields)
  {
    ghost var ps := g.players[..];
    var player := g.players[pl - 1];
    var unique := JoinAround(g, pl, p, b0);
    ClaimCounters(g, pl, p, player.(numberOfAreas := player.numberOfAreas - (unique - 1), busyFields := player.busyFields + 1), b0);
  }

  /** The counters of a successful gamma_move once p is pl's: pl's new record v
      and one empty field less. */
  method ClaimCounters(g: Game, pl: nat, p: Pos, v: Player, ghost b0: Board)
    requires g.Mirror() && g.freeFields < U64 && IsForest(b0) && IsForest(g.cells)
    requires Arranged(b0, g.width, g.height, g.numberOfPlayers, g.maxAreas, g.players[..])
    requires MoveLegal(b0, g.numberOfPlayers, g.maxAreas, pl, p)
    requires Claimed(b0, g.cells, p, pl) && NoneVisited(g.cells) && Partition(g.cells)
    requires v == g.players[pl - 1].(numberOfAreas := AreasAfter(b0, pl, p), busyFields := g.players[pl - 1].busyFields + 1)
    modifies g.players, g`freeFields
    ensures g.Sound()
    ensures g.players[..] == AfterClaim(old(g.players[..]), pl, AreasAfter(b0, pl, p))
    ensures g.freeFields == Dec64(old(g.freeFields))
    ensures Counted(b0, g.numberOfPlayers, old(g.players[..]), old(g.freeFields)) ==>
              Counted(g.cells, g.numberOfPlayers, g.players[..], g.freeFields)
  {
    ghost var ps, areas, counted := g.players[..], AreasAfter(b0, pl, p), Counted(b0, g.numberOfPlayers, g.players[..], g.freeFields);
    ClaimArranged(b0, g.cells, g.width, g.height, g.numberOfPlayers, g.maxAreas, ps, g.freeFields, pl, p);
    CountClaim(g, pl, v, areas, counted);
  }

  /** The counters of a successful gamma_move: pl's new record v (its area
      count areas and one more busy field) and one empty field less. */
  method CountClaim(g: Game, pl: nat, v: Player, ghost areas: nat, ghost counted: bool)
    requires g.Mirror() && g.freeFields < U64 && 1 <= pl <= g.players.Length
    requires v == g.players[pl - 1].(numberOfAreas := areas, busyFields := g.players[pl - 1].busyFields + 1)
    requires Arranged(g.cells, g.width, g.height, g.numberOfPlayers, g.maxAreas, AfterClaim(g.players[..], pl, areas))
    requires counted ==> Counted(g.cells, g.numberOfPlayers, AfterClaim(g.players[..], pl, areas), Dec64(g.freeFields))
    modifies g.players, g`freeFields
    ensures g.Sound()
    ensures g.players[..] == AfterClaim(old(g.players[..]), pl, areas)
    ensures g.freeFields == Dec64(old(g.freeFields))
    ensures counted ==> Counted(g.cells, g.numberOfPlayers, g.players[..], g.freeFields)
  {
    AfterClaimIs(g.players[..], pl, areas, v);
    SetArranged(g, pl - 1, v);
    g.freeFields := Dec64(g.freeFields);
  }

  /** The board side of MoveJoin: count the areas around p again, take p and
      join it with them. */
  method JoinAround(g: Game, pl: nat, p: Pos, ghost b0: Board) returns (unique: int)
    requires g.Mirror() && IsForest(b0) && IsForest(g.cells) && InB(b0, p) && NoneVisited(b0)
    requires Partition(b0) && Owner(b0, p) == 0 && pl != 0
    requires OnlyParents(b0, g.cells) && SameFind(b0, g.cells)
    modifies g.board, g`cells
    ensures g.Mirror() && IsForest(g.cells) && Claimed(b0, g.cells, p, pl) && NoneVisited(g.cells)
    ensures Partition(g.cells)
    ensures unique == |Roots(b0, OwnedAround(b0, pl, p))|
  {
    ghost var b1 := g.cells;
    unique := NumOfUniqueAreas(g, pl, p);
    RootsKept(b0, b1, pl, p);
    ghost var b2 := g.cells;
    OnlyParentsTrans(b0, b1, b2);
    var c := g.board[p.x, p.y];
    CellAt(g, p);
    SetCell(g, p, c.(playerNumber := pl));
    ghost var b3 := g.cells;
    ClaimPut(b2, b3, p, pl);
    SameLinksFind(b2, b3);
    ghost var r := UnionAdjacent(g, pl, p);
    ghost var b4 := g.cells;
    c := g.board[p.x, p.y];
    CellAt(g, p);
    SetCell(g, p, c.(playerNumber := pl));
    JoinClaim(b0, b2, b3, b4, g.cells, pl, p, r);
    ClaimPartition(b0, g.cells, pl, p, r);
  }

  /** NumberOfAdjacent: how many of the on-board neighbours of p belong to pl. */
  method NumberOfAdjacent(g: Game, pl: nat, p: Pos) returns (result: int)
    requires g.Mirror() && p.x < g.width && p.y < g.height
    ensures result == |OwnedAround(g.cells, pl, p)|
  {
    result := 0;
    if p.x > 0 && p.x - 1 < g.width {
      var one := OwnedAt(g, pl, Pos(p.x - 1, p.y));
      result := result + one;
    }
    if p.x + 1 < g.width {
      var one := OwnedAt(g, pl, Pos(p.x + 1, p.y));
      result := result + one;
    }
    if p.y > 0 && p.y - 1 < g.height {
      var one := OwnedAt(g, pl, Pos(p.x, p.y - 1));
      result := result + one;
    }
    if p.y + 1 < g.height {
      var one := OwnedAt(g, pl, Pos(p.x, p.y + 1));
      result := result + one;
    }
    AroundCount(g.cells, g.width, g.height, pl, p);
  }

  /** One neighbour's share of NumberOfAdjacent: 1 when pl owns the field n. */
  method OwnedAt(g: Game, pl: nat, n: Pos) returns (one: int)
    requires g.Mirror() && n.x < g.width && n.y < g.height
    ensures one == |IfOwned(g.cells, pl, n)|
  {
    assert InB(g.cells, n) && g.board[n.x, n.y] == At(g.cells, n);
    one := if g.board[n.x, n.y].playerNumber == pl then 1 else 0;
  }

  /** The neighbours of p owned by pl, counted one direction at a time. */
  lemma AroundCount(b: Board, w: nat, h: nat, pl: nat, p: Pos)
    requires Rect(b, w, h) && p.x < w && p.y < h
    ensures |OwnedAround(b, pl, p)| ==
              (if p.x > 0 then |IfOwned(b, pl, Pos(p.x - 1, p.y))| else 0)
            + (if p.x + 1 < w then |IfOwned(b, pl, Pos(p.x + 1, p.y))| else 0)
            + (if p.y > 0 then |IfOwned(b, pl, Pos(p.x, p.y - 1))| else 0)
            + (if p.y + 1 < h then |IfOwned(b, pl, Pos(p.x, p.y + 1))| else 0)
  {
    AroundSides(b, pl, p);
    SidesCard(b, pl, p);
    if p.x + 1 >= w {
      OffBoard(b, w, h, pl, Pos(p.x + 1, p.y));
    }
    if p.y + 1 >= h {
      OffBoard(b, w, h, pl, Pos(p.x, p.y + 1));
    }
    assert |Toward(b, pl, p, 0)| == if p.x > 0 then |IfOwned(b, pl, Pos(p.x - 1, p.y))| else 0;
    assert |Toward(b, pl, p, 1)| == if p.x + 1 < w then |IfOwned(b, pl, Pos(p.x + 1, p.y))| else 0;
    assert |Toward(b, pl, p, 2)| == if p.y > 0 then |IfOwned(b, pl, Pos(p.x, p.y - 1))| else 0;
    assert |Toward(b, pl, p, 3)| == if p.y + 1 < h then |IfOwned(b, pl, Pos(p.x, p.y + 1))| else 0;
  }

  /** No field lies beyond the edges of a w-by-h board. */
  lemma OffBoard(b: Board, w: nat, h: nat, pl: nat, q: Pos)
    requires Rect(b, w, h) && (q.x >= w || q.y >= h)
    ensures IfOwned(b, pl, q) == {}
  {
    if q.x < w {
      assert |b[q.x]| == h;
    }
  }

  /** The neighbour of p in direction d (0 left, 1 right, 2 below, 3 above)
      when pl owns it. */
  ghost function Toward(b: Board, pl: nat, p: Pos, d: nat): set<Pos>
  {
    if d == 0 then (if p.x > 0 then IfOwned(b, pl, Pos(p.x - 1, p.y)) else {})
    else if d == 1 then IfOwned(b, pl, Pos(p.x + 1, p.y))
    else if d == 2 then (if p.y > 0 then IfOwned(b, pl, Pos(p.x, p.y - 1)) else {})
    else IfOwned(b, pl, Pos(p.x, p.y + 1))
  }

  lemma AroundSides(b: Board, pl: nat, p: Pos)
    ensures OwnedAround(b, pl, p) == Toward(b, pl, p, 0) + Toward(b, pl, p, 1) + Toward(b, pl, p, 2) + Toward(b, pl, p, 3)
  {
  }

  lemma SidesCard(b: Board, pl: nat, p: Pos)
    ensures |Toward(b, pl, p, 0) + Toward(b, pl, p, 1) + Toward(b, pl, p, 2) + Toward(b, pl, p, 3)|
         == |Toward(b, pl, p, 0)| + |Toward(b, pl, p, 1)| + |Toward(b, pl, p, 2)| + |Toward(b, pl, p, 3)|
  {
    var T0, T1, T2, T3 := Toward(b, pl, p, 0), Toward(b, pl, p, 1), Toward(b, pl, p, 2), Toward(b, pl, p, 3);
    DisjointCard(T0, T1);
    DisjointCard(T0 + T1, T2);
    DisjointCard(T0 + T1 + T2, T3);
  }

  /** gamma_busy_fields: the fields pl holds, 0 for a number that is no player. */
  method BusyFields(g: Game, pl: nat) returns (result: nat)
    requires g.Sound()
    ensures !(1 <= pl <= g.numberOfPlayers) ==> result == 0
    ensures 1 <= pl <= g.numberOfPlayers ==> result == g.players[pl - 1].busyFields
    ensures g.Valid() && 1 <= pl <= g.numberOfPlayers ==> result == |Owned(g.cells, pl)|
  {
    if pl > 0 && pl <= g.numberOfPlayers {
      return g.players[pl - 1].busyFields;
    }
    return 0;
  }

  /** The fields where gamma_move by pl would succeed. */
  ghost function Moves(b: Board, n: nat, maxAreas: nat, pl: nat): (r: set<Pos>)
    ensures forall q :: q in r <==> MoveLegal(b, n, maxAreas, pl, q)
  {
    set q | q in Owned(b, 0) && MoveLegal(b, n, maxAreas, pl, q)
  }

  /** The empty fields next to a field of pl. */
  ghost function Frontier(b: Board, pl: nat): (r: set<Pos>)
    ensures forall q :: q in r <==> InB(b, q) && Owner(b, q) == 0 && OwnedAround(b, pl, q) != {}
  {
    set q | q in Owned(b, 0) && OwnedAround(b, pl, q) != {}
  }

  /** Below the limit pl may take any empty field; at the limit only the
      empty fields next to one of theirs. */
  lemma MovesAre(b: Board, w: nat, h: nat, n: nat, maxAreas: nat, ps: seq<Player>, pl: nat)
    requires Arranged(b, w, h, n, maxAreas, ps) && 1 <= pl <= n
    ensures ps[pl - 1].numberOfAreas < maxAreas ==> Moves(b, n, maxAreas, pl) == Owned(b, 0)
    ensures ps[pl - 1].numberOfAreas >= maxAreas ==> Moves(b, n, maxAreas, pl) == Frontier(b, pl)
  {
    AreasOf(b, w, h, n, maxAreas, ps, pl);
    forall q | q in Owned(b, 0)
      ensures MoveLegal(b, n, maxAreas, pl, q) <==> ps[pl - 1].numberOfAreas < maxAreas || OwnedAround(b, pl, q) != {}
    {
      MoveCount(b, pl, q);
      var N := OwnedAround(b, pl, q);
      if N != {} {
        var t :| t in N;
        assert Find(b, t) in Roots(b, N);
      } else {
        assert Roots(b, N) == {};
      }
    }
  }

  /** The fields of the frontier of pl in the columns before i and in column i
      below row j: those a column-by-column scan has met. */
  ghost function FrontierUpTo(b: Board, pl: nat, i: nat, j: nat): set<Pos>
  {
    set q | q in Frontier(b, pl) && (q.x < i || (q.x == i && q.y < j))
  }

  /** One more field scanned: it counts when it is empty with a field of pl next to it. */
  lemma FrontierStep(b: Board, pl: nat, i: nat, j: nat)
    requires InB(b, Pos(i, j))
    ensures |FrontierUpTo(b, pl, i, j + 1)| ==
              |FrontierUpTo(b, pl, i, j)| + if Owner(b, Pos(i, j)) == 0 && |OwnedAround(b, pl, Pos(i, j))| > 0 then 1 else 0
  {
    var q := Pos(i, j);
    if q in Frontier(b, pl) {
      assert FrontierUpTo(b, pl, i, j + 1) == FrontierUpTo(b, pl, i, j) + {q};
    } else {
      assert FrontierUpTo(b, pl, i, j + 1) == FrontierUpTo(b, pl, i, j);
    }
  }

  /** One more column scanned. */
  lemma FrontierColumn(b: Board, w: nat, h: nat, pl: nat, i: nat)
    requires Rect(b, w, h) && i < w
    ensures FrontierUpTo(b, pl, i, h) == FrontierUpTo(b, pl, i + 1, 0)
  {
  }

  /** The whole board scanned. */
  lemma FrontierAll(b: Board, w: nat, h: nat, pl: nat)
    requires Rect(b, w, h)
    ensures FrontierUpTo(b, pl, w, 0) == Frontier(b, pl)
  {
  }

  /** gamma_free_fields: the fields pl may take with gamma_move. Below the
      limit that is the cached number of empty fields; at the limit the board
      is scanned for empty fields next to one of pl's. */
  method FreeFields(g: Game, pl: nat) returns (result: nat)
    requires g.Sound()
    ensures !(1 <= pl <= g.numberOfPlayers) ==> result == 0
    ensures 1 <= pl <= g.numberOfPlayers && g.players[pl - 1].numberOfAreas < g.maxAreas ==> result == g.freeFields
    ensures 1 <= pl <= g.numberOfPlayers && g.players[pl - 1].numberOfAreas >= g.maxAreas ==>
              result == |Frontier(g.cells, pl)|
    ensures g.Valid() && 1 <= pl <= g.numberOfPlayers ==> result == |Moves(g.cells, g.numberOfPlayers, g.maxAreas, pl)|
  {
    ghost var b := g.cells;
    if pl == 0 || pl > g.numberOfPlayers {
      return 0;
    }
    MovesAre(b, g.width, g.height, g.numberOfPlayers, g.maxAreas, g.players[..], pl);
    if g.players[pl - 1].numberOfAreas < g.maxAreas {
      return g.freeFields;
    }
    result := ScanFrontier(g, pl);
  }

  /** The scan of gamma_free_fields at the limit: the empty fields with a field
      of pl next to them, counted column by column. */
  method ScanFrontier(g: Game, pl: nat) returns (result: nat)
    requires g.Mirror()
    ensures result == |Frontier(g.cells, pl)|
  {
    ghost var b := g.cells;
    result := 0;
    var i := 0;
    while i < g.width
      invariant 0 <= i <= g.width
      invariant result == |FrontierUpTo(b, pl, i, 0)|
    {
      var j := 0;
      while j < g.height
        invariant 0 <= j <= g.height
        invariant result == |FrontierUpTo(b, pl, i, j)|
      {
        assert InB(b, Pos(i, j)) && g.board[i, j] == At(b, Pos(i, j));
        FrontierStep(b, pl, i, j);
        if g.board[i, j].playerNumber == 0 {
          var k := NumberOfAdjacent(g, pl, Pos(i, j));
          if k > 0 {
            result := result + 1;
          }
        }
        j := j + 1;
      }
      FrontierColumn(b, g.width, g.height, pl, i);
      i := i + 1;
    }
    FrontierAll(b, g.width, g.height, pl);
  }
}
