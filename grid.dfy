/** The board as a value: one record per field (the struct board_element),
    addressed board[x][y] with x the column and y the row. */
module Grid {
  import opened Walks

  /** player_number (0 = empty), the union-find parent, the union-find size
      and the scratch flag of the flood fills. */
  datatype Cell = Cell(playerNumber: nat, parentX: nat, parentY: nat, size: nat, visited: bool)

  type Board = seq<seq<Cell>>

  /** A width-by-height board. */
  ghost predicate Rect(b: Board, w: nat, h: nat)
  {
    |b| == w && forall x :: 0 <= x < w ==> |b[x]| == h
  }

  predicate InB(b: Board, p: Pos)
  {
    p.x < |b| && p.y < |b[p.x]|
  }

  function At(b: Board, p: Pos): Cell
    requires InB(b, p)
  {
    b[p.x][p.y]
  }

  function Owner(b: Board, p: Pos): nat
    requires InB(b, p)
  {
    b[p.x][p.y].playerNumber
  }

  function Parent(b: Board, p: Pos): Pos
    requires InB(b, p)
  {
    Pos(b[p.x][p.y].parentX, b[p.x][p.y].parentY)
  }

  /** The board with the field at p replaced by c. */
  function Put(b: Board, p: Pos, c: Cell): (r: Board)
    requires InB(b, p)
    ensures |r| == |b| && forall x :: 0 <= x < |b| ==> |r[x]| == |b[x]|
    ensures forall q :: InB(b, q) ==> At(r, q) == if q == p then c else At(b, q)
  {
    b[p.x := b[p.x][p.y := c]]
  }

  /** b and b' have the same columns of the same heights. */
  ghost predicate SameShape(b: Board, b': Board)
  {
    |b'| == |b| && forall x :: 0 <= x < |b| ==> |b'[x]| == |b[x]|
  }

  /** Every position of the board. */
  ghost function AllPos(b: Board): (r: set<Pos>)
    ensures forall q :: q in r <==> InB(b, q)
  {
    set x: nat, y: nat | x < |b| && y < |b[x]| :: Pos(x, y)
  }

  /** The fields owned by player pl (pl = 0: the empty fields). */
  ghost function Owned(b: Board, pl: nat): (r: set<Pos>)
    ensures forall q :: q in r <==> InB(b, q) && Owner(b, q) == pl
  {
    set x: nat, y: nat | x < |b| && y < |b[x]| && b[x][y].playerNumber == pl :: Pos(x, y)
  }

  /** The fields of pl that a flood fill may still enter. */
  ghost function Open(b: Board, pl: nat): (r: set<Pos>)
    ensures forall q :: q in r <==> InB(b, q) && Owner(b, q) == pl && !At(b, q).visited
  {
    set x: nat, y: nat | x < |b| && y < |b[x]| && b[x][y].playerNumber == pl && !b[x][y].visited :: Pos(x, y)
  }

  /** In-bound neighbours of p owned by pl. */
  ghost function OwnedAround(b: Board, pl: nat, p: Pos): (r: set<Pos>)
    ensures forall q :: q in r <==> InB(b, q) && Owner(b, q) == pl && Adjacent(p, q)
  {
    set q | q in Owned(b, pl) && Adjacent(p, q)
  }

  /** Only the owners of the fields matter. */
  ghost predicate SameOwners(b: Board, b': Board)
  {
    SameShape(b, b') && forall q :: InB(b, q) ==> Owner(b', q) == Owner(b, q)
  }

  ghost predicate NoneVisited(b: Board)
  {
    forall q :: InB(b, q) ==> !At(b, q).visited
  }

  lemma SameOwnersOwned(b: Board, b': Board, pl: nat)
    requires SameOwners(b, b')
    ensures Owned(b', pl) == Owned(b, pl)
    ensures AllPos(b') == AllPos(b)
  {
  }

  /** b' is b with the owner of p set to pl and every other owner kept. */
  ghost predicate Claimed(b: Board, b': Board, p: Pos, pl: nat)
  {
    SameShape(b, b') && InB(b, p) && forall q :: InB(b, q) ==> Owner(b', q) == if q == p then pl else Owner(b, q)
  }

  /** Giving p to pl moves p into pl's fields and out of everybody else's. */
  lemma ClaimedOwned(b: Board, b': Board, p: Pos, pl: nat, o: nat)
    requires Claimed(b, b', p, pl)
    ensures Owned(b', o) == if o == pl then Owned(b, o) + {p} else Owned(b, o) - {p}
  {
    forall q | q in Owned(b', o) ensures InB(b, q) {
      assert |b'[q.x]| == |b[q.x]|;
    }
  }

  /** The number of positions of a board is the sum of its column heights. */
  ghost function Area(b: Board): nat
  {
    if b == [] then 0 else Area(b[..|b| - 1]) + |b[|b| - 1]|
  }

  lemma {:induction false} AreaRect(b: Board, w: nat, h: nat)
    requires Rect(b, w, h)
    ensures Area(b) == w * h
  {
    if w > 0 {
      AreaRect(b[..w - 1], w - 1, h);
    }
  }

  lemma {:induction false} AllPosCard(b: Board)
    ensures |AllPos(b)| == Area(b)
  {
    if b != [] {
      var n := |b| - 1;
      var front := b[..n];
      AllPosCard(front);
      var col := set y: nat | y < |b[n]| :: Pos(n, y);
      assert AllPos(b) == AllPos(front) + col;
      assert AllPos(front) !! col;
      ColumnCard(n, |b[n]|);
    }
  }

  lemma {:induction false} ColumnCard(x: nat, h: nat)
    ensures |set y: nat | y < h :: Pos(x, y)| == h
  {
    if h > 0 {
      ColumnCard(x, h - 1);
      assert (set y: nat | y < h :: Pos(x, y)) == (set y: nat | y < h - 1 :: Pos(x, y)) + {Pos(x, h - 1)};
    }
  }

  /** The fields of players 0..n. */
  ghost function OwnedUpTo(b: Board, n: nat): (r: set<Pos>)
    ensures forall q :: q in r <==> InB(b, q) && Owner(b, q) <= n
  {
    set x: nat, y: nat | x < |b| && y < |b[x]| && b[x][y].playerNumber <= n :: Pos(x, y)
  }

  ghost function SumOwned(b: Board, n: nat): nat
  {
    if n == 0 then |Owned(b, 0)| else SumOwned(b, n - 1) + |Owned(b, n)|
  }

  lemma {:induction false} SumOwnedCard(b: Board, n: nat)
    ensures SumOwned(b, n) == |OwnedUpTo(b, n)|
  {
    if n == 0 {
      assert OwnedUpTo(b, 0) == Owned(b, 0);
    } else {
      SumOwnedCard(b, n - 1);
      OwnedUpToSplit(b, n);
      DisjointCard(OwnedUpTo(b, n - 1), Owned(b, n));
    }
  }

  lemma OwnedUpToSplit(b: Board, n: nat)
    requires n > 0
    ensures OwnedUpTo(b, n) == OwnedUpTo(b, n - 1) + Owned(b, n)
    ensures OwnedUpTo(b, n - 1) !! Owned(b, n)
  {
  }

  lemma DisjointCard<T>(A: set<T>, B: set<T>)
    requires A !! B
    ensures |A + B| == |A| + |B|
  {
    assert A * B == {};
  }

  /** When every owner is at most n, the fields of players 0..n add up to the board. */
  lemma CountsCoverBoard(b: Board, n: nat, w: nat, h: nat)
    requires Rect(b, w, h)
    requires forall q :: InB(b, q) ==> Owner(b, q) <= n
    ensures SumOwned(b, n) == w * h
  {
    SumOwnedCard(b, n);
    assert OwnedUpTo(b, n) == AllPos(b);
    AllPosCard(b);
    AreaRect(b, w, h);
  }

  /** {q} when q is a field of pl, else nothing. */
  ghost function IfOwned(b: Board, pl: nat, q: Pos): set<Pos>
  {
    if InB(b, q) && Owner(b, q) == pl then {q} else {}
  }

  /** The neighbours of p owned by pl, collected left, right, below and above,
      each looked up only when it lies on the w-by-h board. */
  lemma OwnedAroundSteps(b: Board, w: nat, h: nat, pl: nat, p: Pos, D1: set<Pos>, D2: set<Pos>, D3: set<Pos>, D4: set<Pos>)
    requires Rect(b, w, h)
    requires D1 == if p.x > 0 then {} + IfOwned(b, pl, Pos(p.x - 1, p.y)) else {}
    requires D2 == if p.x + 1 < w then D1 + IfOwned(b, pl, Pos(p.x + 1, p.y)) else D1
    requires D3 == if p.y > 0 then D2 + IfOwned(b, pl, Pos(p.x, p.y - 1)) else D2
    requires D4 == if p.y + 1 < h then D3 + IfOwned(b, pl, Pos(p.x, p.y + 1)) else D3
    ensures D4 == OwnedAround(b, pl, p)
  {
    forall q | q in OwnedAround(b, pl, p) ensures q in D4 {
      assert InB(b, q) && Adjacent(p, q);
    }
  }
}
