/** UnionAllAdjacent as written guards its upward recursive call with the
    board's width instead of its height (union_find_gamma.c:145): from a
    field in row y it goes on to row y + 1 only while y < width. This module
    states the steps that flood can take and shows that on a board taller
    than wide it misses part of an area. The flood the rest of the model
    uses (UnionFind.UnionAllAdjacent) guards with the height. */
module UpGuard {
  import opened Walks
  import opened Areas

  /** A step of the flood as written: any 4-neighbour, except that a step up
      from row y needs y < wd. */
  predicate StepAsWritten(wd: nat, a: Pos, b: Pos)
  {
    Adjacent(a, b) && (b.y == a.y + 1 ==> a.y < wd)
  }

  /** A chain of fields of S the flood as written can take, one step at a time. */
  ghost predicate IsWalkAsWritten(S: set<Pos>, wd: nat, w: seq<Pos>)
  {
    && |w| > 0
    && (forall i :: 0 <= i < |w| ==> w[i] in S)
    && (forall i :: 0 <= i < |w| - 1 ==> StepAsWritten(wd, w[i], w[i + 1]))
  }

  /** The flood as written, started in a row no higher than wd, never gets
      above row wd. */
  lemma {:induction false} AsWrittenStaysLow(S: set<Pos>, wd: nat, w: seq<Pos>, k: nat)
    requires IsWalkAsWritten(S, wd, w) && w[0].y <= wd && k < |w|
    ensures w[k].y <= wd
  {
    if k > 0 {
      AsWrittenStaysLow(S, wd, w, k - 1);
      assert StepAsWritten(wd, w[k - 1], w[k]);
    }
  }

  /** Every as-written step is a step of the corrected flood. */
  lemma AsWrittenIsWalk(S: set<Pos>, wd: nat, w: seq<Pos>)
    requires IsWalkAsWritten(S, wd, w)
    ensures IsWalk(S, w)
  {
    forall i | 0 <= i < |w| - 1 ensures Adjacent(w[i], w[i + 1]) {
      assert StepAsWritten(wd, w[i], w[i + 1]);
    }
  }

  /** T holds every field of S that one as-written step leads to from T. */
  ghost predicate ClosedAsWritten(S: set<Pos>, wd: nat, T: set<Pos>)
  {
    forall a, c :: a in T && c in S && StepAsWritten(wd, a, c) ==> c in T
  }

  /** The flood as written never leaves a set closed under its steps. */
  lemma {:induction false} AsWrittenStaysIn(S: set<Pos>, wd: nat, T: set<Pos>, w: seq<Pos>, k: nat)
    requires IsWalkAsWritten(S, wd, w) && ClosedAsWritten(S, wd, T) && w[0] in T && k < |w|
    ensures w[k] in T
  {
    if k > 0 {
      AsWrittenStaysIn(S, wd, T, w, k - 1);
      assert StepAsWritten(wd, w[k - 1], w[k]);
    }
  }

  /** The fields player 1 keeps on a 3-wide, 6-high board after a golden move
      takes (1, 3) from them: a ring over rows 3 to 5, open at (1, 3) and (1, 4). */
  function Ring(): set<Pos>
  {
    {Pos(0, 3), Pos(0, 4), Pos(0, 5), Pos(1, 5), Pos(2, 5), Pos(2, 4), Pos(2, 3)}
  }

  /** The ring is one area, so the corrected count of areas left is 1 ... */
  lemma RingIsOneArea()
    ensures |Comps(Ring())| == 1
  {
    var W := [Pos(0, 3), Pos(0, 4), Pos(0, 5), Pos(1, 5), Pos(2, 5), Pos(2, 4), Pos(2, 3)];
    assert IsWalk(Ring(), W);
    forall q | q in Ring() ensures Reach(Ring(), q) == Reach(Ring(), Pos(0, 3)) {
      assert q in W;
      var i :| 0 <= i < |W| && W[i] == q;
      assert IsWalk(Ring(), W[..i + 1]);
      ReachSame(Ring(), Pos(0, 3), q);
    }
    assert Comps(Ring()) == {Reach(Ring(), Pos(0, 3))};
  }

  /** ... but the floods as written that UnionNewAreas starts at (0, 3) and
      (2, 3) never meet: from row 3 of a 3-wide board the step up is refused,
      so they count two areas where there is one. */
  lemma RingMissesOtherSide()
    ensures Linked(Ring(), Pos(0, 3), Pos(2, 3))
    ensures !exists w :: IsWalkAsWritten(Ring(), 3, w) && w[0] == Pos(0, 3) && w[|w| - 1] == Pos(2, 3)
  {
    assert IsWalk(Ring(), [Pos(0, 3), Pos(0, 4), Pos(0, 5), Pos(1, 5), Pos(2, 5), Pos(2, 4), Pos(2, 3)]);
    assert ClosedAsWritten(Ring(), 3, {Pos(0, 3)});
    forall w | IsWalkAsWritten(Ring(), 3, w) && w[0] == Pos(0, 3)
      ensures w[|w| - 1] != Pos(2, 3)
    {
      AsWrittenStaysIn(Ring(), 3, {Pos(0, 3)}, w, |w| - 1);
    }
  }

  /** On a 2-wide, 5-high board whose column 0 belongs to one player, after
      the field (0, 0) is taken from them, the flood from (0, 1) as written
      cannot get to (0, 3), although (0, 3) is in the same area. */
  lemma TallBoardMissesTop()
    ensures Linked({Pos(0, 1), Pos(0, 2), Pos(0, 3), Pos(0, 4)}, Pos(0, 1), Pos(0, 3))
    ensures !exists w :: IsWalkAsWritten({Pos(0, 1), Pos(0, 2), Pos(0, 3), Pos(0, 4)}, 2, w)
                         && w[0] == Pos(0, 1) && w[|w| - 1] == Pos(0, 3)
  {
    var S := {Pos(0, 1), Pos(0, 2), Pos(0, 3), Pos(0, 4)};
    assert IsWalk(S, [Pos(0, 1), Pos(0, 2), Pos(0, 3)]);
    forall w | IsWalkAsWritten(S, 2, w) && w[0] == Pos(0, 1)
      ensures w[|w| - 1] != Pos(0, 3)
    {
      AsWrittenStaysLow(S, 2, w, |w| - 1);
    }
  }
}
