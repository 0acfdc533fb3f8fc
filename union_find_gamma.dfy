/** The union-find over the board: root search with path compression, union
    by size, and the flood fills that rebuild areas. */
module UnionFind {
  import opened Walks
  import opened Grid
  import opened Forest
  import opened Areas
  import opened GammaState
  import opened Floods

  /** Root: the root of p's tree; every field on the way is re-pointed at it. */
  method Root(g: Game, p: Pos) returns (r: Pos)
    requires g.Mirror() && IsForest(g.cells) && InB(g.cells, p)
    modifies g.board, g`cells
    ensures g.Mirror() && IsForest(g.cells) && OnlyParents(old(g.cells), g.cells)
    ensures r == Find(old(g.cells), p)
    ensures SameFind(old(g.cells), g.cells)
    ensures Compressed(old(g.cells), g.cells, PathToRoot(old(g.cells), p), r)
    decreases MaxSize(g.cells) - At(g.cells, p).size
  {
    ghost var b0 := g.cells;
    var c := g.board[p.x, p.y];
    assert c == At(b0, p);
    if c.parentX != p.x || c.parentY != p.y {
      var parent := Pos(c.parentX, c.parentY);
      assert parent == Parent(b0, p) && InB(b0, parent);
      MaxSizeBound(b0, parent);
      var t := Root(g, parent);
      ghost var b1 := g.cells;
      FindSize(b0, p);
      assert t == Find(b1, p) != p;
      var c1 := g.board[p.x, p.y];
      assert c1 == At(b1, p);
      SetCell(g, p, c1.(parentX := t.x, parentY := t.y));
      CompressOne(b1, p, g.cells);
      OnlyParentsTrans(b0, b1, g.cells);
      r := t;
      CompressedStep(b0, b1, g.cells, p, t);
    } else {
      r := Pos(c.parentX, c.parentY);
    }
  }

  /** One level of Root's unwinding: p itself goes straight to the root t
      its parent's call returned. */
  lemma CompressedStep(b0: Board, b1: Board, b2: Board, p: Pos, t: Pos)
    requires IsForest(b0) && InB(b0, p) && !IsRoot(b0, p)
    requires Compressed(b0, b1, PathToRoot(b0, Parent(b0, p)), t)
    requires InB(b1, p) && b2 == Put(b1, p, At(b1, p).(parentX := t.x, parentY := t.y))
    ensures Compressed(b0, b2, PathToRoot(b0, p), t)
  {
    assert PathToRoot(b0, p) == [p] + PathToRoot(b0, Parent(b0, p));
    forall q | InB(b0, q)
      ensures InB(b2, q) && Parent(b2, q) == if q in PathToRoot(b0, p) then t else Parent(b0, q)
    {
      assert InB(b1, q) && Parent(b1, q) == if q in PathToRoot(b0, Parent(b0, p)) then t else Parent(b0, q);
    }
  }

  /** The second half of Union: hangs root r1 under root r2 or the other way
      round by size, and grows r1 on a tie. */
  method Hook(g: Game, r1: Pos, r2: Pos)
    requires g.Mirror() && InB(g.cells, r1) && InB(g.cells, r2)
    modifies g.board, g`cells
    ensures g.Mirror() && g.cells == Link(old(g.cells), r1, r2)
  {
    ghost var b := g.cells;
    var s1 := g.board[r1.x, r1.y].size;
    var s2 := g.board[r2.x, r2.y].size;
    assert s1 == At(b, r1).size && s2 == At(b, r2).size;
    if s1 < s2 {
      var cell := g.board[r1.x, r1.y];
      SetCell(g, r1, cell.(parentX := r2.x, parentY := r2.y));
    } else {
      var cell := g.board[r2.x, r2.y];
      SetCell(g, r2, cell.(parentX := r1.x, parentY := r1.y));
    }
    ghost var b1 := g.cells;
    assert b1 == Hang(b, r1, r2);
    assert g.board[r1.x, r1.y] == At(b1, r1) && g.board[r2.x, r2.y] == At(b1, r2);
    if g.board[r1.x, r1.y].size == g.board[r2.x, r2.y].size {
      var cell := g.board[r1.x, r1.y];
      SetCell(g, r1, cell.(size := cell.size + 1));
    }
  }

  /** Union: joins the classes of a and c under the root of larger size (the
      first root on a tie, whose size then grows by one). */
  method Union(g: Game, a: Pos, c: Pos) returns (ghost r: Pos)
    requires g.Mirror() && IsForest(g.cells) && InB(g.cells, a) && InB(g.cells, c)
    modifies g.board, g`cells
    ensures g.Mirror() && IsForest(g.cells) && OnlyLinks(old(g.cells), g.cells)
    ensures r == Winner(old(g.cells), Find(old(g.cells), a), Find(old(g.cells), c))
    ensures Merged(old(g.cells), g.cells, {Find(old(g.cells), a), Find(old(g.cells), c)}, r)
    ensures InB(g.cells, a) && InB(g.cells, c) && Find(g.cells, a) == Find(g.cells, c) == r
  {
    ghost var b0 := g.cells;
    var r1 := Root(g, a);
    ghost var b1 := g.cells;
    var r2 := Root(g, c);
    ghost var b2 := g.cells;
    OnlyParentsTrans(b0, b1, b2);
    assert IsRoot(b2, r1) && IsRoot(b2, r2) by {
      FindOfRoot(b0, a);
      FindOfRoot(b0, c);
      assert Find(b2, r1) == r1 && Find(b2, r2) == r2;
    }
    Hook(g, r1, r2);
    LinkMerges(b2, r1, r2);
    MergedAfterSame(b0, b2, g.cells, {r1, r2}, Winner(b2, r1, r2));
    assert OnlyLinks(b0, b2);
    OnlyLinksTrans(b0, b2, g.cells);
    r := Winner(b2, r1, r2);
  }

  /** The roots UnionAdjacent joins: that of p and those of its neighbours owned by pl. */
  ghost function JoinedAround(b: Board, pl: nat, p: Pos): set<Pos>
    requires IsForest(b) && InB(b, p)
  {
    {Find(b, p)} + Roots(b, OwnedAround(b, pl, p))
  }

  /** The neighbours UnionAdjacent looks at, one guarded lookup after the other,
      give exactly the roots it is meant to join. */
  lemma JoinedAroundSteps(b: Board, w: nat, h: nat, pl: nat, p: Pos, D1: set<Pos>, D2: set<Pos>, D3: set<Pos>, D4: set<Pos>)
    requires Rect(b, w, h) && IsForest(b) && InB(b, p)
    requires D1 == if p.x > 0 then {} + IfOwned(b, pl, Pos(p.x - 1, p.y)) else {}
    requires D2 == if p.x + 1 < w then D1 + IfOwned(b, pl, Pos(p.x + 1, p.y)) else D1
    requires D3 == if p.y > 0 then D2 + IfOwned(b, pl, Pos(p.x, p.y - 1)) else D2
    requires D4 == if p.y + 1 < h then D3 + IfOwned(b, pl, Pos(p.x, p.y + 1)) else D3
    ensures {Find(b, p)} + Roots(b, D4) == JoinedAround(b, pl, p)
  {
    OwnedAroundSteps(b, w, h, pl, p, D1, D2, D3, D4);
  }

  /** One guarded call of UnionAdjacent: joins p with n when n belongs to pl.
      D collects the neighbours joined so far, r the current representative. */
  method UnionIfOwned(g: Game, pl: nat, p: Pos, n: Pos, ghost b0: Board, ghost D: set<Pos>, ghost r: Pos)
    returns (ghost D': set<Pos>, ghost r': Pos)
    requires g.Mirror() && IsForest(b0) && IsForest(g.cells) && InB(b0, p) && InB(b0, n)
    requires OnlyLinks(b0, g.cells)
    requires r in {Find(b0, p)} + Roots(b0, D) && Merged(b0, g.cells, {Find(b0, p)} + Roots(b0, D), r)
    modifies g.board, g`cells
    ensures g.Mirror() && IsForest(g.cells) && OnlyLinks(b0, g.cells)
    ensures D' == D + IfOwned(b0, pl, n)
    ensures r' in {Find(b0, p)} + Roots(b0, D') && Merged(b0, g.cells, {Find(b0, p)} + Roots(b0, D'), r')
  {
    ghost var b1 := g.cells;
    assert InB(b1, n) && g.board[n.x, n.y].playerNumber == Owner(b0, n);
    if g.board[n.x, n.y].playerNumber == pl {
      r' := Union(g, p, n);
      JoinStep(b0, b1, g.cells, p, n, D, r, r');
      assert IfOwned(b0, pl, n) == {n};
      D' := D + {n};
    } else {
      D', r' := D, r;
    }
  }

  /** What one Union of UnionAdjacent adds to the join made so far. */
  lemma JoinStep(b0: Board, b1: Board, b2: Board, p: Pos, n: Pos, D: set<Pos>, r: Pos, r2: Pos)
    requires IsForest(b0) && IsForest(b1) && IsForest(b2) && InB(b0, p) && InB(b0, n) && OnlyLinks(b0, b1)
    requires r in {Find(b0, p)} + Roots(b0, D) && Merged(b0, b1, {Find(b0, p)} + Roots(b0, D), r)
    requires OnlyLinks(b1, b2) && r2 == Winner(b1, Find(b1, p), Find(b1, n))
    requires Merged(b1, b2, {Find(b1, p), Find(b1, n)}, r2)
    ensures OnlyLinks(b0, b2)
    ensures r2 in {Find(b0, p)} + Roots(b0, D + {n}) && Merged(b0, b2, {Find(b0, p)} + Roots(b0, D + {n}), r2)
  {
    var M := {Find(b0, p)} + Roots(b0, D);
    assert InB(b1, p) && Find(b1, p) == r;
    MergedAddOne(b0, b1, b2, M, r, n, r2);
    RootsAddTo(b0, {Find(b0, p)}, D, n);
    OnlyLinksTrans(b0, b1, b2);
  }

  /** UnionAdjacent: joins the field p with every neighbouring field of player pl;
      a position off the board is ignored. */
  method UnionAdjacent(g: Game, pl: nat, p: Pos) returns (ghost r: Pos)
    requires g.Mirror() && IsForest(g.cells)
    modifies g.board, g`cells
    ensures g.Mirror() && IsForest(g.cells) && OnlyLinks(old(g.cells), g.cells)
    ensures !InB(old(g.cells), p) ==> g.cells == old(g.cells)
    ensures InB(old(g.cells), p) ==>
              r in JoinedAround(old(g.cells), pl, p) && Merged(old(g.cells), g.cells, JoinedAround(old(g.cells), pl, p), r)
  {
    if !(p.x < g.width && p.y < g.height) {
      r := p;
      return;
    }
    ghost var b0 := g.cells;
    ghost var D: set<Pos> := {};
    r := Find(b0, p);
    assert Roots(b0, D) == {};
    assert OnlyLinks(b0, b0);
    if p.x > 0 {
      D, r := UnionIfOwned(g, pl, p, Pos(p.x - 1, p.y), b0, D, r);
    }
    ghost var D1 := D;
    if p.x + 1 < g.width {
      D, r := UnionIfOwned(g, pl, p, Pos(p.x + 1, p.y), b0, D, r);
    }
    ghost var D2 := D;
    if p.y > 0 {
      D, r := UnionIfOwned(g, pl, p, Pos(p.x, p.y - 1), b0, D, r);
    }
    ghost var D3 := D;
    if p.y + 1 < g.height {
      D, r := UnionIfOwned(g, pl, p, Pos(p.x, p.y + 1), b0, D, r);
    }
    JoinedAroundSteps(b0, g.width, g.height, pl, p, D1, D2, D3, D);
  }

  /** RemoveUnionOnAdjacent: every field that pl's unvisited fields let a flood
      from p reach becomes a singleton marked visited; nothing else changes.
      An off-board p, a visited p or a p not owned by pl changes nothing. */
  method RemoveUnionOnAdjacent(g: Game, pl: nat, p: Pos)
    requires g.Mirror()
    modifies g.board, g`cells
    ensures g.Mirror()
    ensures ResetOn(old(g.cells), g.cells, Reach(Open(old(g.cells), pl), p))
    decreases |Open(g.cells, pl)|, 0
  {
    ghost var b0 := g.cells;
    ghost var S := Open(b0, pl);
    if !(p.x < g.width && p.y < g.height) {
      ReachOutside(S, p);
      ResetOnNone(b0);
      return;
    }
    var c := g.board[p.x, p.y];
    assert c == At(b0, p);
    if c.visited || c.playerNumber != pl {
      ReachOutside(S, p);
      ResetOnNone(b0);
      return;
    }
    SetCell(g, p, Singleton(c, p));
    ResetOnPut(b0, p);
    ghost var D: set<Pos> := {p};
    FloodStart(S, p);
    if p.x > 0 {
      ResetOpen(b0, g.cells, pl, D);
      Shrinks(S, D, p);
      D := RemoveIfOwned(g, pl, p, Pos(p.x - 1, p.y), b0, D);
    }
    if p.x + 1 < g.width {
      ResetOpen(b0, g.cells, pl, D);
      Shrinks(S, D, p);
      D := RemoveIfOwned(g, pl, p, Pos(p.x + 1, p.y), b0, D);
    }
    if p.y > 0 {
      ResetOpen(b0, g.cells, pl, D);
      Shrinks(S, D, p);
      D := RemoveIfOwned(g, pl, p, Pos(p.x, p.y - 1), b0, D);
    }
    if p.y + 1 < g.height {
      ResetOpen(b0, g.cells, pl, D);
      Shrinks(S, D, p);
      D := RemoveIfOwned(g, pl, p, Pos(p.x, p.y + 1), b0, D);
    }
    TriedAround(b0, g.width, g.height, S, p, D);
    FloodDone(S, p, D);
  }

  /** One guarded recursive call of RemoveUnionOnAdjacent, from p towards its
      on-board neighbour n; D holds the fields reset so far. */
  method RemoveIfOwned(g: Game, pl: nat, p: Pos, n: Pos, ghost b0: Board, ghost D: set<Pos>) returns (ghost D': set<Pos>)
    requires g.Mirror() && InB(b0, n) && Adjacent(p, n)
    requires FloodSoFar(Open(b0, pl), p, D) && ResetOn(b0, g.cells, D)
    modifies g.board, g`cells
    ensures g.Mirror() && FloodSoFar(Open(b0, pl), p, D') && ResetOn(b0, g.cells, D')
    ensures D <= D' && (n in Open(b0, pl) ==> n in D')
    decreases |Open(g.cells, pl)|, 1
  {
    ghost var S := Open(b0, pl);
    ghost var b1 := g.cells;
    ResetOpen(b0, b1, pl, D);
    assert InB(b1, n) && g.board[n.x, n.y] == At(b1, n);
    if g.board[n.x, n.y].playerNumber == pl {
      RemoveUnionOnAdjacent(g, pl, n);
      ResetOnTrans(b0, b1, g.cells, D, Reach(S - D, n));
      FloodStep(S, p, D, n);
      D' := D + Reach(S - D, n);
    } else {
      D' := D;
    }
  }

  /** The classes a flood from p joins with the class of seed: that of the seed
      and those of the fields N the flood marks. */
  ghost function FloodJoin(b: Board, seed: Pos, N: set<Pos>): set<Pos>
    requires IsForest(b) && InB(b, seed)
  {
    {Find(b, seed)} + Roots(b, N)
  }

  /** The state of UnionAllAdjacent's flood from p, started from b0: D is what
      it has marked, and the areas of seed and of every field of D are joined
      under r while every other area is left alone. */
  ghost predicate Joining(b0: Board, b: Board, pl: nat, p: Pos, seed: Pos, D: set<Pos>, r: Pos)
  {
    && IsForest(b0) && IsForest(b) && InB(b0, seed)
    && FloodSoFar(Open(b0, pl), p, D) && MarkedOn(b0, b, D)
    && r in FloodJoin(b0, seed, D) && Merged(b0, b, FloodJoin(b0, seed, D), r)
  }

  /** A flood that marks nothing joins nothing. */
  lemma FloodJoinNothing(b: Board, seed: Pos)
    requires IsForest(b) && InB(b, seed)
    ensures Find(b, seed) in FloodJoin(b, seed, {}) && Merged(b, b, FloodJoin(b, seed, {}), Find(b, seed))
  {
    assert FloodJoin(b, seed, {}) == {Find(b, seed)};
  }

  /** UnionAllAdjacent, with the upward step guarded by the board's height: every
      field that pl's unvisited fields let a flood from p reach is marked visited
      and joined with the class of seed; owners and all other flags are kept. */
  method UnionAllAdjacent(g: Game, pl: nat, p: Pos, seed: Pos) returns (ghost r: Pos)
    requires g.Mirror() && IsForest(g.cells)
    requires InB(g.cells, p) ==> InB(g.cells, seed)
    modifies g.board, g`cells
    ensures g.Mirror() && IsForest(g.cells)
    ensures MarkedOn(old(g.cells), g.cells, Reach(Open(old(g.cells), pl), p))
    ensures !InB(old(g.cells), seed) ==> g.cells == old(g.cells)
    ensures InB(old(g.cells), seed) ==>
              && r in FloodJoin(old(g.cells), seed, Reach(Open(old(g.cells), pl), p))
              && Merged(old(g.cells), g.cells, FloodJoin(old(g.cells), seed, Reach(Open(old(g.cells), pl), p)), r)
    decreases |Open(g.cells, pl)|, 1
  {
    ghost var b0 := g.cells;
    ghost var S := Open(b0, pl);
    if !(p.x < g.width && p.y < g.height) {
      ReachOutside(S, p);
      ResetOnNone(b0);
      if InB(b0, seed) {
        FloodJoinNothing(b0, seed);
        r := Find(b0, seed);
      } else {
        r := seed;
      }
      return;
    }
    var c := g.board[p.x, p.y];
    assert c == At(b0, p);
    if !(c.playerNumber == pl && !c.visited) {
      ReachOutside(S, p);
      ResetOnNone(b0);
      FloodJoinNothing(b0, seed);
      r := Find(b0, seed);
      return;
    }
    SetCell(g, p, c.(visited := true));
    ghost var b1 := g.cells;
    MarkedOnPut(b0, p);
    SameLinksFind(b0, b1);
    r := Union(g, p, seed);
    FloodBegins(b0, b1, g.cells, pl, p, seed, r);
    r := UnionAllAround(g, pl, p, seed, b0, r);
  }

  /** Marking p and joining it with seed starts the flood. */
  lemma FloodBegins(b0: Board, b1: Board, b2: Board, pl: nat, p: Pos, seed: Pos, r: Pos)
    requires IsForest(b0) && p in Open(b0, pl) && InB(b0, seed)
    requires b1 == Put(b0, p, At(b0, p).(visited := true)) && IsForest(b1)
    requires IsForest(b2) && OnlyLinks(b1, b2)
    requires Merged(b1, b2, {Find(b1, p), Find(b1, seed)}, r) && r in {Find(b1, p), Find(b1, seed)}
    ensures Joining(b0, b2, pl, p, seed, {p}, r)
  {
    FloodStart(Open(b0, pl), p);
    MarkedOnPut(b0, p);
    SameLinksFind(b0, b1);
    MarkedOnLinks(b0, b1, b2, {p});
    MergedStart(b0, b1, b2, seed, p, r);
  }

  /** A flood that has tried every on-board neighbour of p has marked and
      joined everything p reaches. */
  lemma FloodEnds(b0: Board, b: Board, w: nat, h: nat, pl: nat, p: Pos, seed: Pos, D: set<Pos>, r: Pos)
    requires Rect(b0, w, h) && Joining(b0, b, pl, p, seed, D, r)
    requires p.x > 0 ==> (Pos(p.x - 1, p.y) in Open(b0, pl) ==> Pos(p.x - 1, p.y) in D)
    requires p.x + 1 < w ==> (Pos(p.x + 1, p.y) in Open(b0, pl) ==> Pos(p.x + 1, p.y) in D)
    requires p.y > 0 ==> (Pos(p.x, p.y - 1) in Open(b0, pl) ==> Pos(p.x, p.y - 1) in D)
    requires p.y + 1 < h ==> (Pos(p.x, p.y + 1) in Open(b0, pl) ==> Pos(p.x, p.y + 1) in D)
    ensures MarkedOn(b0, b, Reach(Open(b0, pl), p))
    ensures r in FloodJoin(b0, seed, Reach(Open(b0, pl), p)) && Merged(b0, b, FloodJoin(b0, seed, Reach(Open(b0, pl), p)), r)
  {
    TriedAround(b0, w, h, Open(b0, pl), p, D);
    FloodDone(Open(b0, pl), p, D);
  }

  /** The four recursive calls of UnionAllAdjacent once p itself is marked
      and joined with seed; b0 is the board before p was marked. */
  method UnionAllAround(g: Game, pl: nat, p: Pos, seed: Pos, ghost b0: Board, ghost r: Pos) returns (ghost r': Pos)
    requires g.Mirror() && Rect(b0, g.width, g.height) && p in Open(b0, pl) && Joining(b0, g.cells, pl, p, seed, {p}, r)
    modifies g.board, g`cells
    ensures g.Mirror() && IsForest(g.cells) && MarkedOn(b0, g.cells, Reach(Open(b0, pl), p))
    ensures r' in FloodJoin(b0, seed, Reach(Open(b0, pl), p)) && Merged(b0, g.cells, FloodJoin(b0, seed, Reach(Open(b0, pl), p)), r')
    decreases |Open(b0, pl)|, 0
  {
    ghost var D: set<Pos>;
    Shrinks(Open(b0, pl), {p}, p);
    D, r' := UnionAllInRow(g, pl, p, seed, b0, {p}, r);
    D, r' := UnionAllInColumn(g, pl, p, seed, b0, D, r');
    FloodEnds(b0, g.cells, g.width, g.height, pl, p, seed, D, r');
  }

  /** The recursive calls of UnionAllAdjacent to the left and to the right of p. */
  method UnionAllInRow(g: Game, pl: nat, p: Pos, seed: Pos, ghost b0: Board, ghost D: set<Pos>, ghost r: Pos)
    returns (ghost D': set<Pos>, ghost r': Pos)
    requires g.Mirror() && Rect(b0, g.width, g.height) && Joining(b0, g.cells, pl, p, seed, D, r)
    modifies g.board, g`cells
    ensures g.Mirror() && Joining(b0, g.cells, pl, p, seed, D', r') && D <= D'
    ensures p.x > 0 ==> (Pos(p.x - 1, p.y) in Open(b0, pl) ==> Pos(p.x - 1, p.y) in D')
    ensures p.x + 1 < g.width ==> (Pos(p.x + 1, p.y) in Open(b0, pl) ==> Pos(p.x + 1, p.y) in D')
    decreases |Open(b0, pl) - {p}|, 3
  {
    D', r' := D, r;
    if p.x > 0 {
      D', r' := UnionAllToward(g, pl, p, Pos(p.x - 1, p.y), seed, b0, D', r');
    }
    if p.x < g.width {
      D', r' := UnionAllToward(g, pl, p, Pos(p.x + 1, p.y), seed, b0, D', r');
    }
  }

  /** The recursive calls of UnionAllAdjacent below and above p. */
  method UnionAllInColumn(g: Game, pl: nat, p: Pos, seed: Pos, ghost b0: Board, ghost D: set<Pos>, ghost r: Pos)
    returns (ghost D': set<Pos>, ghost r': Pos)
    requires g.Mirror() && Rect(b0, g.width, g.height) && Joining(b0, g.cells, pl, p, seed, D, r)
    modifies g.board, g`cells
    ensures g.Mirror() && Joining(b0, g.cells, pl, p, seed, D', r') && D <= D'
    ensures p.y > 0 ==> (Pos(p.x, p.y - 1) in Open(b0, pl) ==> Pos(p.x, p.y - 1) in D')
    ensures p.y + 1 < g.height ==> (Pos(p.x, p.y + 1) in Open(b0, pl) ==> Pos(p.x, p.y + 1) in D')
    decreases |Open(b0, pl) - {p}|, 3
  {
    D', r' := D, r;
    if p.y > 0 {
      D', r' := UnionAllToward(g, pl, p, Pos(p.x, p.y - 1), seed, b0, D', r');
    }
    if p.y < g.height {
      D', r' := UnionAllToward(g, pl, p, Pos(p.x, p.y + 1), seed, b0, D', r');
    }
  }

  /** One recursive call of UnionAllAdjacent, from p towards its neighbour n
      (which may lie just off the board); D holds the fields marked so far and
      r the representative of the join made so far. */
  method UnionAllToward(g: Game, pl: nat, p: Pos, n: Pos, seed: Pos, ghost b0: Board, ghost D: set<Pos>, ghost r: Pos)
    returns (ghost D': set<Pos>, ghost r': Pos)
    requires g.Mirror() && Adjacent(p, n) && Joining(b0, g.cells, pl, p, seed, D, r)
    modifies g.board, g`cells
    ensures g.Mirror() && Joining(b0, g.cells, pl, p, seed, D', r')
    ensures D <= D' && (n in Open(b0, pl) ==> n in D')
    decreases |Open(b0, pl) - {p}|, 2
  {
    ghost var S := Open(b0, pl);
    ghost var b1 := g.cells;
    MarkedOpen(b0, b1, pl, D);
    ShrinksBelow(S, D, p);
    assert InB(b1, seed);
    r' := UnionAllAdjacent(g, pl, n, seed);
    FloodExtends(b0, b1, g.cells, pl, p, n, seed, D, r, r');
    D' := D + Reach(S - D, n);
  }

  /** What one recursive call of UnionAllAdjacent adds to the flood made so far:
      the fields N it reaches through the fields still open. */
  lemma FloodExtends(b0: Board, b1: Board, b2: Board, pl: nat, p: Pos, n: Pos, seed: Pos, D: set<Pos>, r: Pos, r1: Pos)
    requires Joining(b0, b1, pl, p, seed, D, r) && IsForest(b2) && Adjacent(p, n)
    requires Open(b1, pl) == Open(b0, pl) - D
    requires MarkedOn(b1, b2, Reach(Open(b1, pl), n))
    requires InB(b1, seed) && r1 in FloodJoin(b1, seed, Reach(Open(b1, pl), n))
    requires Merged(b1, b2, FloodJoin(b1, seed, Reach(Open(b1, pl), n)), r1)
    ensures Joining(b0, b2, pl, p, seed, D + Reach(Open(b0, pl) - D, n), r1)
    ensures n in Open(b0, pl) ==> n in D + Reach(Open(b0, pl) - D, n)
  {
    var S := Open(b0, pl);
    var N := Reach(S - D, n);
    MarkedOnTrans(b0, b1, b2, D, N);
    FloodStep(S, p, D, n);
    MergedExtend(b0, b1, b2, seed, D, N, r, r1);
  }

  datatype Option<T> = None | Some(value: T)

  /** The root of n when n is a field of pl, else nothing. */
  ghost function RootIfOwned(b: Board, pl: nat, n: Pos): Option<Pos>
    requires IsForest(b)
  {
    if InB(b, n) && Owner(b, n) == pl then Some(Find(b, n)) else None
  }

  /** What NumOfUniqueAreas records for the left, right, lower and upper
      neighbour of p on a w-by-h board: the neighbour's root when the
      neighbour is on the board and belongs to pl. */
  ghost function Slots(b: Board, w: nat, h: nat, pl: nat, p: Pos): (s: seq<Option<Pos>>)
    requires IsForest(b)
    ensures |s| == 4
  {
    [ if p.x > 0 then RootIfOwned(b, pl, Pos(p.x - 1, p.y)) else None,
      if p.x + 1 < w then RootIfOwned(b, pl, Pos(p.x + 1, p.y)) else None,
      if p.y > 0 then RootIfOwned(b, pl, Pos(p.x, p.y - 1)) else None,
      if p.y + 1 < h then RootIfOwned(b, pl, Pos(p.x, p.y + 1)) else None ]
  }

  /** The roots recorded in the first k slots. */
  ghost function SlotSet(s: seq<Option<Pos>>, k: nat): set<Pos>
    requires k <= |s|
  {
    set i | 0 <= i < k && s[i].Some? :: s[i].value
  }

  lemma SlotSetStep(s: seq<Option<Pos>>, k: nat)
    requires k < |s|
    ensures SlotSet(s, k + 1) == if s[k].Some? then SlotSet(s, k) + {s[k].value} else SlotSet(s, k)
    ensures s[k].Some? ==> (s[k].value in SlotSet(s, k) <==> exists i :: 0 <= i < k && s[i] == s[k])
  {
    if s[k].Some? && s[k].value in SlotSet(s, k) {
      var i :| 0 <= i < k && s[i].Some? && s[i].value == s[k].value;
      assert s[i] == s[k];
    }
  }

  /** The four slots hold exactly the roots of p's neighbours of pl. */
  lemma SlotsAreRoots(b: Board, w: nat, h: nat, pl: nat, p: Pos)
    requires Rect(b, w, h) && IsForest(b)
    ensures SlotSet(Slots(b, w, h, pl, p), 4) == Roots(b, OwnedAround(b, pl, p))
  {
    var s := Slots(b, w, h, pl, p);
    var N := OwnedAround(b, pl, p);
    forall r | r in Roots(b, N) ensures r in SlotSet(s, 4) {
      var t :| t in N && InB(b, t) && Find(b, t) == r;
      RootIsSlot(b, w, h, pl, p, t);
    }
    forall i | 0 <= i < 4 && s[i].Some? ensures s[i].value in Roots(b, N) {
      SlotIsRoot(b, w, h, pl, p, i);
    }
  }

  lemma RootIsSlot(b: Board, w: nat, h: nat, pl: nat, p: Pos, t: Pos)
    requires Rect(b, w, h) && IsForest(b) && t in OwnedAround(b, pl, p)
    ensures Find(b, t) in SlotSet(Slots(b, w, h, pl, p), 4)
  {
    var s := Slots(b, w, h, pl, p);
    var i := if t.x + 1 == p.x then 0 else if t.x == p.x + 1 then 1 else if t.y + 1 == p.y then 2 else 3;
    assert s[i] == Some(Find(b, t));
  }

  lemma SlotIsRoot(b: Board, w: nat, h: nat, pl: nat, p: Pos, i: nat)
    requires Rect(b, w, h) && IsForest(b) && i < 4 && Slots(b, w, h, pl, p)[i].Some?
    ensures Slots(b, w, h, pl, p)[i].value in Roots(b, OwnedAround(b, pl, p))
  {
    var t := if i == 0 then Pos(p.x - 1, p.y) else if i == 1 then Pos(p.x + 1, p.y)
             else if i == 2 then Pos(p.x, p.y - 1) else Pos(p.x, p.y + 1);
    assert t in OwnedAround(b, pl, p);
    RootsHas(b, OwnedAround(b, pl, p), t);
  }

  /** The array cell pair k holds slot o: -1 for nothing, else the root's coordinates. */
  ghost predicate Holds(a: array2<int>, k: nat, o: Option<Pos>)
    requires a.Length0 == 4 && a.Length1 == 2 && k < 4
    reads a
  {
    if o.None? then a[k, 0] == -1 else a[k, 0] == o.value.x && a[k, 1] == o.value.y
  }

  /** One guarded lookup of NumOfUniqueAreas: records the root of n in pair k
      of the array when n belongs to pl. */
  method RecordRoot(g: Game, pl: nat, n: Pos, a: array2<int>, k: nat, ghost b0: Board)
    requires g.Mirror() && IsForest(b0) && IsForest(g.cells) && InB(b0, n) && a.Length0 == 4 && a.Length1 == 2 && k < 4
    requires OnlyParents(b0, g.cells) && SameFind(b0, g.cells) && a[k, 0] == -1
    modifies g.board, g`cells, a
    ensures g.Mirror() && IsForest(g.cells) && OnlyParents(b0, g.cells) && SameFind(b0, g.cells)
    ensures Holds(a, k, RootIfOwned(b0, pl, n))
    ensures forall i, j :: 0 <= i < 4 && 0 <= j < 2 && i != k ==> a[i, j] == old(a[i, j])
  {
    ghost var b1 := g.cells;
    assert InB(b1, n) && g.board[n.x, n.y] == At(b1, n);
    if g.board[n.x, n.y].playerNumber == pl {
      var t := Root(g, n);
      OnlyParentsTrans(b0, b1, g.cells);
      a[k, 0] := t.x;
      a[k, 1] := t.y;
    }
  }

  /** Lookup k of NumOfUniqueAreas: the neighbour left of p (k = 0), right
      (k = 1), below (k = 2) or above (k = 3), each only when it is on the board. */
  method RecordSlot(g: Game, pl: nat, p: Pos, a: array2<int>, k: nat, ghost b0: Board)
    requires g.Mirror() && IsForest(b0) && IsForest(g.cells) && InB(b0, p) && a.Length0 == 4 && a.Length1 == 2 && k < 4
    requires OnlyParents(b0, g.cells) && SameFind(b0, g.cells) && a[k, 0] == -1
    modifies g.board, g`cells, a
    ensures g.Mirror() && IsForest(g.cells) && OnlyParents(b0, g.cells) && SameFind(b0, g.cells)
    ensures Holds(a, k, Slots(b0, g.width, g.height, pl, p)[k])
    ensures forall i, j :: 0 <= i < 4 && 0 <= j < 2 && i != k ==> a[i, j] == old(a[i, j])
  {
    var n := Beside(p, k, g.width, g.height);
    BesideSlot(b0, g.width, g.height, pl, p, k);
    if n.Some? {
      RecordRoot(g, pl, n.value, a, k, b0);
    }
  }

  /** Neighbour k of p (left, right, below, above) when it lies on the
      w-by-h board. */
  function Beside(p: Pos, k: nat, w: nat, h: nat): Option<Pos>
  {
    if k == 0 then (if p.x > 0 then Some(Pos(p.x - 1, p.y)) else None)
    else if k == 1 then (if p.x + 1 < w then Some(Pos(p.x + 1, p.y)) else None)
    else if k == 2 then (if p.y > 0 then Some(Pos(p.x, p.y - 1)) else None)
    else (if p.y + 1 < h then Some(Pos(p.x, p.y + 1)) else None)
  }

  /** Slot k records the root of neighbour k, when that neighbour is on the board. */
  lemma BesideSlot(b: Board, w: nat, h: nat, pl: nat, p: Pos, k: nat)
    requires Rect(b, w, h) && IsForest(b) && p.x < w && p.y < h && k < 4
    ensures Beside(p, k, w, h).Some? ==> InB(b, Beside(p, k, w, h).value)
    ensures Slots(b, w, h, pl, p)[k] == if Beside(p, k, w, h).Some? then RootIfOwned(b, pl, Beside(p, k, w, h).value) else None
  {
    var n := Beside(p, k, w, h);
    if n.Some? {
      assert |b[n.value.x]| == h;
    }
  }

  /** NumOfUniqueAreas: how many distinct areas of pl touch the field p,
      found through the roots of its neighbours (which Root compresses). */
  method NumOfUniqueAreas(g: Game, pl: nat, p: Pos) returns (res: int)
    requires g.Mirror() && IsForest(g.cells) && InB(g.cells, p)
    modifies g.board, g`cells
    ensures g.Mirror() && IsForest(g.cells) && OnlyParents(old(g.cells), g.cells) && SameFind(old(g.cells), g.cells)
    ensures res == |Roots(old(g.cells), OwnedAround(old(g.cells), pl, p))|
    ensures 0 <= res <= 4 && (res == 0 <==> OwnedAround(old(g.cells), pl, p) == {})
  {
    ghost var b0 := g.cells;
    var a := new int[4, 2];
    for z := 0 to 4
      modifies a
      invariant forall i, j :: 0 <= i < z && 0 <= j < 2 ==> a[i, j] == -1
    {
      for k := 0 to 2
        modifies a
        invariant forall i, j :: 0 <= i < z && 0 <= j < 2 ==> a[i, j] == -1
        invariant forall j :: 0 <= j < k ==> a[z, j] == -1
      {
        a[z, k] := -1;
      }
    }
    RecordSlots(g, pl, p, a);
    res := CountDistinct(a, Slots(b0, g.width, g.height, pl, p));
    SlotsAreRoots(b0, g.width, g.height, pl, p);
    RootsAround(b0, g.width, g.height, pl, p);
  }

  /** A field has at most four neighbouring areas, and none exactly when no
      neighbour belongs to pl. */
  lemma RootsAround(b: Board, w: nat, h: nat, pl: nat, p: Pos)
    requires Rect(b, w, h) && IsForest(b)
    ensures |Roots(b, OwnedAround(b, pl, p))| <= 4
    ensures Roots(b, OwnedAround(b, pl, p)) == {} <==> OwnedAround(b, pl, p) == {}
  {
    SlotsAreRoots(b, w, h, pl, p);
    SlotsBound(Slots(b, w, h, pl, p), 4);
    if t :| t in OwnedAround(b, pl, p) {
      RootsHas(b, OwnedAround(b, pl, p), t);
    }
  }

  /** k slots record at most k roots. */
  lemma {:induction false} SlotsBound(s: seq<Option<Pos>>, k: nat)
    requires k <= |s|
    ensures |SlotSet(s, k)| <= k
  {
    if k == 0 {
      assert SlotSet(s, 0) == {};
    } else {
      SlotsBound(s, k - 1);
      SlotSetStep(s, k - 1);
    }
  }


  /** The four guarded lookups of NumOfUniqueAreas, recorded in pairs 0 to 3
      of the array: left, right, below and above p. */
  method RecordSlots(g: Game, pl: nat, p: Pos, a: array2<int>)
    requires g.Mirror() && IsForest(g.cells) && InB(g.cells, p) && a.Length0 == 4 && a.Length1 == 2
    requires forall i :: 0 <= i < 4 ==> a[i, 0] == -1
    modifies g.board, g`cells, a
    ensures g.Mirror() && IsForest(g.cells) && OnlyParents(old(g.cells), g.cells) && SameFind(old(g.cells), g.cells)
    ensures forall k :: 0 <= k < 4 ==> Holds(a, k, Slots(old(g.cells), g.width, g.height, pl, p)[k])
  {
    ghost var b0 := g.cells;
    ghost var s := Slots(b0, g.width, g.height, pl, p);
    assert OnlyParents(b0, b0) && SameFind(b0, b0);
    RecordSlot(g, pl, p, a, 0, b0);
    RecordSlot(g, pl, p, a, 1, b0);
    assert Holds(a, 0, s[0]);
    RecordSlot(g, pl, p, a, 2, b0);
    assert Holds(a, 0, s[0]) && Holds(a, 1, s[1]);
    RecordSlot(g, pl, p, a, 3, b0);
    assert Holds(a, 0, s[0]) && Holds(a, 1, s[1]) && Holds(a, 2, s[2]) && Holds(a, 3, s[3]);
    forall k | 0 <= k < 4 ensures Holds(a, k, s[k]) {
      assert k == 0 || k == 1 || k == 2 || k == 3;
    }
  }

  /** The counting loop of NumOfUniqueAreas: a recorded root counts when no
      earlier pair holds the same one. */
  method CountDistinct(a: array2<int>, ghost s: seq<Option<Pos>>) returns (res: int)
    requires a.Length0 == 4 && a.Length1 == 2 && |s| == 4
    requires forall k :: 0 <= k < 4 ==> Holds(a, k, s[k])
    ensures res == |SlotSet(s, 4)|
  {
    res := 0;
    for k := 0 to 4
      invariant res == |SlotSet(s, k)|
    {
      SlotSetStep(s, k);
      assert Holds(a, k, s[k]);
      var z := 0;
      if a[k, 0] != -1 {
        while z < k
          invariant z <= k
          invariant forall i :: 0 <= i < z ==> s[i] != s[k]
        {
          assert Holds(a, z, s[z]);
          if a[z, 0] != -1 && a[k, 0] == a[z, 0] && a[k, 1] == a[z, 1] {
            assert s[z] == s[k];
            break;
          }
          z := z + 1;
        }
        if z == k {
          assert s[k].value !in SlotSet(s, k);
          res := res + 1;
          assert res == |SlotSet(s, k + 1)|;
        } else {
          assert s[k].value in SlotSet(s, k);
        }
      } else {
        assert s[k].None?;
      }
      assert res == |SlotSet(s, k + 1)|;
    }
  }
}
