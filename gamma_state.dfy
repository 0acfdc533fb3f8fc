/** The game record (struct gamma): the board of fields, the players'
    counters and the number of empty fields. */
module GammaState {
  import opened Walks
  import opened Grid
  import opened Forest
  import opened Areas

  /** One player's counters (struct one_player). */
  datatype Player = Player(numberOfAreas: nat, busyFields: nat, goldPossible: bool)

  /** The board side of what every public operation keeps: a width-by-height
      board whose union-find classes are its areas, with no flood marks left,
      owners among the players and area counts that agree with the board and
      stay within the limit. */
  ghost predicate Arranged(b: Board, w: nat, h: nat, n: nat, maxAreas: nat, ps: seq<Player>)
  {
    && Rect(b, w, h) && |ps| == n
    && IsForest(b) && NoneVisited(b)
    && (forall q :: InB(b, q) ==> Owner(b, q) <= n)
    && Partition(b)
    && (forall i :: 0 <= i < n ==> ps[i].numberOfAreas == |Comps(Owned(b, i + 1))| <= maxAreas)
  }

  /** The counters of fields: each player's busy fields and the empty fields. */
  ghost predicate Counted(b: Board, n: nat, ps: seq<Player>, free: nat)
    requires |ps| == n
  {
    && (forall i :: 0 <= i < n ==> ps[i].busyFields == |Owned(b, i + 1)|)
    && free == |Owned(b, 0)|
  }

  /** free_fields_under_max_areas is a 64-bit unsigned counter. */
  const U64: nat := 0x1_0000_0000_0000_0000

  function Inc64(v: nat): (r: nat)
    requires v < U64
    ensures r < U64 && (v + 1 < U64 ==> r == v + 1)
  {
    (v + 1) % U64
  }

  function Dec64(v: nat): (r: nat)
    requires v < U64
    ensures r < U64 && (v > 0 ==> r == v - 1)
  {
    (v + U64 - 1) % U64
  }

  /** A decrement that wraps below zero is undone by the increment after it. */
  lemma IncDec64(v: nat)
    requires v < U64
    ensures Inc64(Dec64(v)) == v
  {
  }

  /** The board gamma_new builds: every field empty, its own root, of size one. */
  ghost function InitialBoard(w: nat, h: nat): (b: Board)
    ensures Rect(b, w, h)
    ensures forall q :: InB(b, q) ==> At(b, q) == Cell(0, q.x, q.y, 1, false)
  {
    seq(w, x requires 0 <= x => seq(h, y requires 0 <= y => Cell(0, x, y, 1, false)))
  }

  /** The fresh board is arranged for n players with no areas, every field
      empty: each field is a class of its own, nobody owns anything. */
  lemma InitialArranged(w: nat, h: nat, n: nat, maxAreas: nat)
    ensures Arranged(InitialBoard(w, h), w, h, n, maxAreas, seq(n, i => Player(0, 0, true)))
    ensures Counted(InitialBoard(w, h), n, seq(n, i => Player(0, 0, true)), w * h)
  {
    var b := InitialBoard(w, h);
    var ps := seq(n, i => Player(0, 0, true));
    assert IsForest(b);
    forall q | InB(b, q) ensures Find(b, q) == q {
      assert Parent(b, q) == q;
    }
    forall o | o != 0 ensures Owned(b, o) == {} && Comps(Owned(b, o)) == {} {
      assert forall q :: InB(b, q) ==> Owner(b, q) == 0;
    }
    assert Owned(b, 0) == AllPos(b);
    AllPosCard(b);
    AreaRect(b, w, h);
    forall i | 0 <= i < n ensures ps[i].numberOfAreas == |Comps(Owned(b, i + 1))| <= maxAreas {
    }
    assert Arranged(b, w, h, n, maxAreas, ps);
  }

  class Game {
    const width: nat
    const height: nat
    const numberOfPlayers: nat
    const maxAreas: nat
    const board: array2<Cell>
    const players: array<Player>
    /** free_fields_under_max_areas: the number of empty fields. */
    var freeFields: nat
    /** The board as a value, field for field. */
    ghost var cells: Board

    ghost predicate Mirror()
      reads this`cells, board
    {
      && board.Length0 == width && board.Length1 == height
      && Rect(cells, width, height)
      && forall x, y :: 0 <= x < width && 0 <= y < height ==> board[x, y] == cells[x][y]
    }

    /** The board and the area counters agree; the field counters may lag. */
    ghost predicate Sound()
      reads this, board, players
    {
      && Mirror() && freeFields < U64
      && Arranged(cells, width, height, numberOfPlayers, maxAreas, players[..])
    }

    ghost predicate Valid()
      reads this, board, players
    {
      && Sound()
      && width > 0 && height > 0 && numberOfPlayers > 0 && maxAreas > 0
      && Counted(cells, numberOfPlayers, players[..], freeFields)
    }

    /** The allocation and field-by-field initialisation of gamma_new. */
    constructor (w: nat, h: nat, n: nat, areas: nat)
      requires w > 0 && h > 0 && n > 0 && areas > 0
      ensures Mirror() && fresh(board) && fresh(players)
      ensures width == w && height == h && numberOfPlayers == n && maxAreas == areas
      ensures cells == InitialBoard(w, h) && freeFields == (w * h) % 0x1_0000_0000
      ensures players[..] == seq(n, i => Player(0, 0, true))
    {
      width, height, numberOfPlayers, maxAreas := w, h, n, areas;
      freeFields := (w * h) % 0x1_0000_0000;
      var bd := new Cell[w, h];
      var i := 0;
      while i < w
        invariant 0 <= i <= w
        invariant forall x, y :: 0 <= x < i && 0 <= y < h ==> bd[x, y] == Cell(0, x, y, 1, false)
      {
        var j := 0;
        while j < h
          invariant 0 <= j <= h
          invariant forall x, y :: 0 <= x < i && 0 <= y < h ==> bd[x, y] == Cell(0, x, y, 1, false)
          invariant forall y :: 0 <= y < j ==> bd[i, y] == Cell(0, i, y, 1, false)
        {
          bd[i, j] := Cell(0, i, j, 1, false);
          j := j + 1;
        }
        i := i + 1;
      }
      var ps := new Player[n];
      var k := 0;
      while k < n
        modifies ps
        invariant 0 <= k <= n
        invariant forall m :: 0 <= m < k ==> ps[m] == Player(0, 0, true)
      {
        ps[k] := Player(0, 0, true);
        k := k + 1;
      }
      board, players := bd, ps;
      ghost var init := InitialBoard(w, h);
      forall x, y | 0 <= x < w && 0 <= y < h
        ensures bd[x, y] == init[x][y]
      {
        assert InB(init, Pos(x, y));
        assert At(init, Pos(x, y)) == init[x][y];
      }
      cells := init;
    }
  }

  /** A field read from the array is the same field of the board value. */
  lemma CellAt(g: Game, p: Pos)
    requires g.Mirror() && p.x < g.width && p.y < g.height
    ensures InB(g.cells, p) && g.board[p.x, p.y] == At(g.cells, p)
  {
  }

  /** Writes one field of the board. */
  method SetCell(g: Game, p: Pos, c: Cell)
    requires g.Mirror() && p.x < g.width && p.y < g.height
    modifies g.board, g`cells
    ensures g.Mirror() && g.cells == Put(old(g.cells), p, c)
  {
    g.board[p.x, p.y] := c;
    g.cells := Put(g.cells, p, c);
    forall x, y | 0 <= x < g.width && 0 <= y < g.height
      ensures g.board[x, y] == g.cells[x][y]
    {
      assert At(g.cells, Pos(x, y)) == g.cells[x][y];
    }
  }

  /** Stores v as player i when the result is arranged with the board. */
  method SetArranged(g: Game, i: nat, v: Player)
    requires g.Mirror() && g.freeFields < U64 && i < g.players.Length
    requires Arranged(g.cells, g.width, g.height, g.numberOfPlayers, g.maxAreas, g.players[..][i := v])
    modifies g.players
    ensures g.Sound() && g.players[..] == old(g.players[..])[i := v]
  {
    SetPlayer(g, i, v);
  }

  /** Writes the counters of one player. */
  method SetPlayer(g: Game, i: nat, v: Player)
    requires i < g.players.Length
    modifies g.players
    ensures g.players[..] == old(g.players[..])[i := v]
  {
    g.players[i] := v;
  }
}
