/** The union-find forest stored in the board: every field points at a parent
    field, a root points at itself, and `size` grows strictly along parent
    links, which is what makes the root search terminate. */
module Forest {
  import opened Walks
  import opened Grid

  /** Parents are on the board, sizes are positive, and a non-root's parent
      has a strictly larger size. */
  ghost predicate IsForest(b: Board)
  {
    forall q {:trigger Parent(b, q)} :: InB(b, q) ==>
      && At(b, q).size >= 1
      && InB(b, Parent(b, q))
      && (Parent(b, q) != q ==> At(b, Parent(b, q)).size > At(b, q).size)
  }

  predicate IsRoot(b: Board, q: Pos)
    requires InB(b, q)
  {
    Parent(b, q) == q
  }

  function Max(a: nat, c: nat): nat { if a < c then c else a }

  ghost function ColMax(col: seq<Cell>): nat
  {
    if col == [] then 0 else Max(ColMax(col[..|col| - 1]), col[|col| - 1].size)
  }

  /** The largest size on the board; it bounds the root search. */
  ghost function MaxSize(b: Board): nat
  {
    if b == [] then 0 else Max(MaxSize(b[..|b| - 1]), ColMax(b[|b| - 1]))
  }

  lemma {:induction false} ColMaxBound(col: seq<Cell>, y: nat)
    requires y < |col|
    ensures col[y].size <= ColMax(col)
  {
    if y < |col| - 1 {
      ColMaxBound(col[..|col| - 1], y);
    }
  }

  lemma {:induction false} MaxSizeBound(b: Board, q: Pos)
    requires InB(b, q)
    ensures At(b, q).size <= MaxSize(b)
  {
    if q.x == |b| - 1 {
      ColMaxBound(b[q.x], q.y);
    } else {
      MaxSizeBound(b[..|b| - 1], q);
    }
  }

  /** The root of the tree holding p: the C function Root without its side effect. */
  ghost function Find(b: Board, p: Pos): (r: Pos)
    requires IsForest(b) && InB(b, p)
    ensures InB(b, r) && IsRoot(b, r)
    decreases MaxSize(b) - At(b, p).size
  {
    MaxSizeBound(b, Parent(b, p));
    if Parent(b, p) == p then p else Find(b, Parent(b, p))
  }

  /** The cells from p up to its root, p first. */
  ghost function PathToRoot(b: Board, p: Pos): (s: seq<Pos>)
    requires IsForest(b) && InB(b, p)
    ensures |s| >= 1 && s[0] == p && s[|s| - 1] == Find(b, p)
    ensures forall q :: q in s ==> InB(b, q) && Find(b, q) == Find(b, p)
    decreases MaxSize(b) - At(b, p).size
  {
    MaxSizeBound(b, Parent(b, p));
    if Parent(b, p) == p then [p] else [p] + PathToRoot(b, Parent(b, p))
  }

  /** b' re-points every field of s at r and keeps every other parent link of b. */
  ghost predicate Compressed(b: Board, b': Board, s: seq<Pos>, r: Pos)
  {
    forall q {:trigger Parent(b, q)} :: InB(b, q) ==> InB(b', q) && Parent(b', q) == if q in s then r else Parent(b, q)
  }

  /** A non-root's root has a larger size than it. */
  lemma {:induction false} FindSize(b: Board, p: Pos)
    requires IsForest(b) && InB(b, p) && !IsRoot(b, p)
    ensures At(b, Find(b, p)).size > At(b, p).size
    decreases MaxSize(b) - At(b, p).size
  {
    MaxSizeBound(b, Parent(b, p));
    if !IsRoot(b, Parent(b, p)) {
      FindSize(b, Parent(b, p));
    }
  }

  /** Every field of b' keeps its parent from b or points at its root in b. */
  ghost predicate Repointed(b: Board, b': Board)
    requires IsForest(b) && SameShape(b, b')
  {
    forall q {:trigger Parent(b', q)} :: InB(b, q) ==> Parent(b', q) == Parent(b, q) || Parent(b', q) == Find(b, q)
  }

  /** Re-pointing fields directly at their roots keeps every root. */
  lemma {:induction false} FindAgree(b: Board, b': Board, p: Pos)
    requires IsForest(b) && IsForest(b') && SameShape(b, b') && InB(b, p)
    requires Repointed(b, b')
    ensures Find(b', p) == Find(b, p)
    decreases MaxSize(b) - At(b, p).size
  {
    MaxSizeBound(b, Parent(b, p));
    if Parent(b, p) != p && Parent(b', p) == Parent(b, p) {
      FindAgree(b, b', Parent(b, p));
    }
  }

  lemma SameShapeAllPos(b: Board, b': Board)
    requires SameShape(b, b')
    ensures AllPos(b') == AllPos(b)
  {
    forall q ensures InB(b, q) <==> InB(b', q) {
      if q.x < |b| { assert |b'[q.x]| == |b[q.x]|; }
    }
  }

  /** Re-pointing only roots, each at a root of the new forest, sends every
      field to the new parent of its old root. */
  lemma {:induction false} FindRelink(b: Board, b': Board, p: Pos)
    requires IsForest(b) && IsForest(b') && SameShape(b, b') && InB(b, p)
    requires forall q :: InB(b, q) && !IsRoot(b, q) ==> Parent(b', q) == Parent(b, q)
    requires forall q :: InB(b, q) && IsRoot(b, q) ==> IsRoot(b', Parent(b', q))
    ensures Find(b', p) == Parent(b', Find(b, p))
    decreases MaxSize(b) - At(b, p).size
  {
    MaxSizeBound(b, Parent(b, p));
    if Parent(b, p) != p {
      FindRelink(b, b', Parent(b, p));
    }
  }

  /** Cells of R become singletons; nothing outside R points into R. */
  lemma {:induction false} FindReset(b: Board, b': Board, R: set<Pos>, p: Pos)
    requires IsForest(b) && IsForest(b') && SameShape(b, b') && InB(b, p)
    requires forall q :: InB(b, q) && q in R ==> IsRoot(b', q)
    requires forall q :: InB(b, q) && q !in R ==> Parent(b', q) == Parent(b, q) && Parent(b, q) !in R
    ensures Find(b', p) == if p in R then p else Find(b, p)
    decreases MaxSize(b) - At(b, p).size
  {
    MaxSizeBound(b, Parent(b, p));
    if p !in R && Parent(b, p) != p {
      FindReset(b, b', R, Parent(b, p));
    }
  }

  /** b' differs from b at most in owners and visited flags. */
  ghost predicate SameLinks(b: Board, b': Board)
  {
    SameShape(b, b') && forall q {:trigger Parent(b', q)} :: InB(b, q) ==> Parent(b', q) == Parent(b, q) && At(b', q).size == At(b, q).size
  }

  /** Changing owners or visited flags keeps the forest and every root. */
  lemma SameLinksFind(b: Board, b': Board)
    requires IsForest(b) && SameLinks(b, b')
    ensures IsForest(b') && SameShape(b, b') && SameFind(b, b')
  {
    SameShapeAllPos(b, b');
    forall q | InB(b', q) ensures At(b', q).size >= 1 && InB(b', Parent(b', q)) {
      assert InB(b, q) && Parent(b', q) == Parent(b, q);
    }
    forall q | InB(b', q) && Parent(b', q) != q ensures At(b', Parent(b', q)).size > At(b', q).size {
      assert InB(b, q) && Parent(b', q) == Parent(b, q);
      assert Parent(b', Parent(b, q)) == Parent(b, Parent(b, q));
    }
    forall q | InB(b, q) ensures InB(b', q) && Find(b', q) == Find(b, q) {
      FindAgree(b, b', q);
    }
  }

  /** The classes whose roots are in M are joined under r; every other class keeps its root. */
  ghost predicate Merged(b: Board, b': Board, M: set<Pos>, r: Pos)
    requires IsForest(b) && IsForest(b') && SameShape(b, b')
  {
    forall q {:trigger Find(b, q)} :: InB(b, q) ==> InB(b', q) && Find(b', q) == if Find(b, q) in M then r else Find(b, q)
  }

  /** The roots of the cells of T. */
  ghost function Roots(b: Board, T: set<Pos>): (R: set<Pos>)
    requires IsForest(b)
    ensures forall t {:trigger Find(b, t)} :: t in T && InB(b, t) ==> Find(b, t) in R
    ensures forall r :: r in R ==> exists t :: t in T && InB(b, t) && Find(b, t) == r
  {
    set t | t in T && InB(b, t) :: Find(b, t)
  }

  lemma RootsHas(b: Board, T: set<Pos>, t: Pos)
    requires IsForest(b) && t in T && InB(b, t)
    ensures Find(b, t) in Roots(b, T)
  {
  }

  /** Two joins in a row are one join when the first representative takes part in the second. */
  lemma MergedTwice(b0: Board, b1: Board, b2: Board, M1: set<Pos>, r1: Pos, M2: set<Pos>, r2: Pos)
    requires IsForest(b0) && IsForest(b1) && IsForest(b2) && SameShape(b0, b1) && SameShape(b1, b2)
    requires Merged(b0, b1, M1, r1) && Merged(b1, b2, M2, r2) && r1 in M2
    ensures SameShape(b0, b2) && Merged(b0, b2, M1 + M2, r2)
  {
    forall q | InB(b0, q)
      ensures InB(b2, q) && Find(b2, q) == if Find(b0, q) in M1 + M2 then r2 else Find(b0, q)
    {
      var f0 := Find(b0, q);
      var f1 := Find(b1, q);
      assert f1 == if f0 in M1 then r1 else f0;
    }
  }

  /** After a join whose representative is one of its roots, the roots of T seen from
      either side of it add the same classes to M. */
  lemma MergedRoots(b: Board, b': Board, M: set<Pos>, r: Pos, T: set<Pos>)
    requires IsForest(b) && IsForest(b') && SameShape(b, b')
    requires Merged(b, b', M, r) && r in M
    ensures M + Roots(b', T) == M + Roots(b, T)
  {
    forall x | x in Roots(b', T) ensures x in M + Roots(b, T) {
      var t :| t in T && InB(b', t) && Find(b', t) == x;
      assert InB(b, t);
      RootsHas(b, T, t);
    }
    forall x | x in Roots(b, T) && x !in M ensures x in Roots(b', T) {
      var t :| t in T && InB(b, t) && Find(b, t) == x;
      assert InB(b', t) && Find(b', t) == x;
      RootsHas(b', T, t);
    }
  }

  /** A root is its own root. */
  lemma FindOfRoot(b: Board, p: Pos)
    requires IsForest(b) && InB(b, p)
    ensures Find(b, Find(b, p)) == Find(b, p)
  {
  }

  /** b' differs from b at most in parent links. */
  ghost predicate OnlyParents(b: Board, b': Board)
  {
    SameShape(b, b') && forall q :: InB(b, q) ==>
      Owner(b', q) == Owner(b, q) && At(b', q).size == At(b, q).size && At(b', q).visited == At(b, q).visited
  }

  /** b' differs from b at most in parent links and sizes. */
  ghost predicate OnlyLinks(b: Board, b': Board)
  {
    SameShape(b, b') && forall q :: InB(b, q) ==> Owner(b', q) == Owner(b, q) && At(b', q).visited == At(b, q).visited
  }

  /** Every root of b is still a root of b'. */
  ghost predicate SameFind(b: Board, b': Board)
    requires IsForest(b) && IsForest(b') && SameShape(b, b')
  {
    forall q {:trigger Find(b, q)} :: InB(b, q) ==> InB(b', q) && Find(b', q) == Find(b, q)
  }

  /** Keeping every root twice in a row keeps every root. */
  lemma SameFindTrans(b0: Board, b1: Board, b2: Board)
    requires IsForest(b0) && IsForest(b1) && IsForest(b2) && SameShape(b0, b1) && SameShape(b1, b2)
    requires SameFind(b0, b1) && SameFind(b1, b2)
    ensures SameShape(b0, b2) && SameFind(b0, b2)
  {
    forall x | 0 <= x < |b0| ensures |b2[x]| == |b0[x]| {
      assert |b1[x]| == |b0[x]|;
    }
    forall q | InB(b0, q) ensures InB(b2, q) && Find(b2, q) == Find(b0, q) {
      assert InB(b1, q) && Find(b1, q) == Find(b0, q);
    }
  }

  /** Re-pointing one non-root field straight at its root. */
  lemma CompressOne(b: Board, p: Pos, b': Board)
    requires IsForest(b) && InB(b, p) && !IsRoot(b, p)
    requires b' == Put(b, p, At(b, p).(parentX := Find(b, p).x, parentY := Find(b, p).y))
    ensures IsForest(b') && OnlyParents(b, b') && SameFind(b, b')
  {
    FindSize(b, p);
    CompressForest(b, p, Find(b, p), b');
    assert Repointed(b, b') by {
      forall q | InB(b, q) ensures Parent(b', q) == Parent(b, q) || Parent(b', q) == Find(b, q) {
        if q == p {
          assert Parent(b', q) == Find(b, p);
        }
      }
    }
    forall q {:trigger Find(b, q)} | InB(b, q) ensures InB(b', q) && Find(b', q) == Find(b, q) {
      FindAgree(b, b', q);
    }
  }

  /** Re-pointing p at a field r of larger size keeps the forest. */
  lemma CompressForest(b: Board, p: Pos, r: Pos, b': Board)
    requires IsForest(b) && InB(b, p) && InB(b, r) && At(b, r).size > At(b, p).size
    requires b' == Put(b, p, At(b, p).(parentX := r.x, parentY := r.y))
    ensures IsForest(b') && OnlyParents(b, b')
  {
    forall q | InB(b', q)
      ensures At(b', q).size >= 1 && InB(b', Parent(b', q))
      ensures Parent(b', q) != q ==> At(b', Parent(b', q)).size > At(b', q).size
    {
      CompressAt(b, p, r, b', q);
    }
  }

  /** The forest conditions at one field q after p is re-pointed at r. */
  lemma CompressAt(b: Board, p: Pos, r: Pos, b': Board, q: Pos)
    requires IsForest(b) && InB(b, p) && InB(b, r) && At(b, r).size > At(b, p).size
    requires b' == Put(b, p, At(b, p).(parentX := r.x, parentY := r.y)) && InB(b', q)
    ensures At(b', q).size >= 1 && InB(b', Parent(b', q))
    ensures Parent(b', q) != q ==> At(b', Parent(b', q)).size > At(b', q).size
  {
    assert InB(b, q) && InB(b, Parent(b, q));
    assert At(b', r).size == At(b, r).size && At(b', p).size == At(b, p).size;
    if q == p {
      assert Parent(b', q) == r;
    } else {
      assert Parent(b', q) == Parent(b, q) && At(b', Parent(b, q)).size == At(b, Parent(b, q)).size;
    }
  }

  lemma OnlyParentsTrans(b0: Board, b1: Board, b2: Board)
    requires IsForest(b0) && IsForest(b1) && IsForest(b2)
    requires OnlyParents(b0, b1) && SameFind(b0, b1) && OnlyParents(b1, b2) && SameFind(b1, b2)
    ensures OnlyParents(b0, b2) && SameFind(b0, b2)
  {
    forall q | InB(b0, q) ensures InB(b1, q) && InB(b2, q) && Find(b2, q) == Find(b0, q) {
      assert Find(b1, q) == Find(b0, q);
    }
  }

  /** The board after Union has found the roots r1 and r2 and hung one under
      the other: the root of smaller size goes under the other, on a tie r2 goes under r1. */
  ghost function Hang(b: Board, r1: Pos, r2: Pos): (b': Board)
    requires InB(b, r1) && InB(b, r2)
    ensures SameShape(b, b')
  {
    if At(b, r1).size < At(b, r2).size
    then Put(b, r1, At(b, r1).(parentX := r2.x, parentY := r2.y))
    else Put(b, r2, At(b, r2).(parentX := r1.x, parentY := r1.y))
  }

  /** Hang, then on equal sizes the size of r1 grows by one. */
  ghost function Link(b: Board, r1: Pos, r2: Pos): (b': Board)
    requires InB(b, r1) && InB(b, r2)
    ensures SameShape(b, b')
  {
    var b1 := Hang(b, r1, r2);
    if At(b1, r1).size == At(b1, r2).size then Put(b1, r1, At(b1, r1).(size := At(b1, r1).size + 1)) else b1
  }

  /** The representative Union keeps. */
  function Winner(b: Board, r1: Pos, r2: Pos): Pos
    requires InB(b, r1) && InB(b, r2)
  {
    if At(b, r1).size < At(b, r2).size then r2 else r1
  }

  /** Field by field, what Link changes. */
  lemma LinkFields(b: Board, r1: Pos, r2: Pos, q: Pos)
    requires InB(b, r1) && InB(b, r2) && InB(b, q)
    ensures InB(Link(b, r1, r2), q)
    ensures Parent(Link(b, r1, r2), q) ==
            if q == r1 && At(b, r1).size < At(b, r2).size then r2
            else if q == r2 && At(b, r1).size >= At(b, r2).size then r1
            else Parent(b, q)
    ensures At(Link(b, r1, r2), q).size ==
            if q == r1 && At(b, r1).size == At(b, r2).size then At(b, r1).size + 1 else At(b, q).size
    ensures Owner(Link(b, r1, r2), q) == Owner(b, q)
    ensures At(Link(b, r1, r2), q).visited == At(b, q).visited
  {
  }

  lemma LinkForest(b: Board, r1: Pos, r2: Pos)
    requires IsForest(b) && InB(b, r1) && InB(b, r2) && IsRoot(b, r1) && IsRoot(b, r2)
    ensures IsForest(Link(b, r1, r2)) && OnlyLinks(b, Link(b, r1, r2))
  {
    var b' := Link(b, r1, r2);
    forall q | InB(b', q)
      ensures At(b', q).size >= 1 && InB(b', Parent(b', q))
      ensures Parent(b', q) != q ==> At(b', Parent(b', q)).size > At(b', q).size
    {
      assert InB(b, q);
      LinkFields(b, r1, r2, q);
      var pq := Parent(b, q);
      assert InB(b, pq);
      LinkFields(b, r1, r2, pq);
      LinkFields(b, r1, r2, r1);
      LinkFields(b, r1, r2, r2);
    }
    forall q | InB(b, q) ensures Owner(b', q) == Owner(b, q) && At(b', q).visited == At(b, q).visited {
      LinkFields(b, r1, r2, q);
    }
  }

  /** Linking two roots keeps the forest and joins exactly their two classes. */
  lemma LinkMerges(b: Board, r1: Pos, r2: Pos)
    requires IsForest(b) && InB(b, r1) && InB(b, r2) && IsRoot(b, r1) && IsRoot(b, r2)
    ensures IsForest(Link(b, r1, r2)) && OnlyLinks(b, Link(b, r1, r2))
    ensures Merged(b, Link(b, r1, r2), {r1, r2}, Winner(b, r1, r2))
  {
    var b' := Link(b, r1, r2);
    LinkForest(b, r1, r2);
    forall q | InB(b, q) && !IsRoot(b, q) ensures Parent(b', q) == Parent(b, q) {
      LinkFields(b, r1, r2, q);
    }
    forall q | InB(b, q) && IsRoot(b, q) ensures IsRoot(b', Parent(b', q)) {
      LinkFields(b, r1, r2, q);
      LinkFields(b, r1, r2, r1);
      LinkFields(b, r1, r2, r2);
    }
    forall q {:trigger Find(b, q)} | InB(b, q)
      ensures InB(b', q) && Find(b', q) == if Find(b, q) in {r1, r2} then Winner(b, r1, r2) else Find(b, q)
    {
      FindRelink(b, b', q);
      LinkFields(b, r1, r2, Find(b, q));
    }
  }

  /** A join is unaffected by an earlier step that kept every root. */
  lemma MergedAfterSame(b0: Board, b1: Board, b2: Board, M: set<Pos>, r: Pos)
    requires IsForest(b0) && IsForest(b1) && IsForest(b2) && SameShape(b0, b1) && SameShape(b1, b2)
    requires SameFind(b0, b1) && Merged(b1, b2, M, r)
    ensures SameShape(b0, b2) && Merged(b0, b2, M, r)
  {
    forall x | 0 <= x < |b0| ensures |b2[x]| == |b0[x]| {
      assert |b1[x]| == |b0[x]|;
    }
    forall q | InB(b0, q)
      ensures InB(b2, q) && Find(b2, q) == if Find(b0, q) in M then r else Find(b0, q)
    {
      assert InB(b1, q) && Find(b1, q) == Find(b0, q);
      assert InB(b2, q) && Find(b2, q) == if Find(b1, q) in M then r else Find(b1, q);
    }
  }

  lemma {:induction false} OnlyLinksTrans(b0: Board, b1: Board, b2: Board)
    requires OnlyLinks(b0, b1) && OnlyLinks(b1, b2)
    ensures OnlyLinks(b0, b2)
  {
    forall x | 0 <= x < |b0| ensures |b2[x]| == |b0[x]| {
      assert |b1[x]| == |b0[x]|;
    }
    forall q | InB(b0, q) ensures InB(b2, q) && Owner(b2, q) == Owner(b0, q) && At(b2, q).visited == At(b0, q).visited {
      assert InB(b1, q);
    }
  }

  lemma RootsMono(b: Board, T: set<Pos>, U: set<Pos>)
    requires IsForest(b) && T <= U
    ensures Roots(b, T) <= Roots(b, U)
  {
    forall x | x in Roots(b, T) ensures x in Roots(b, U) {
      var t :| t in T && InB(b, t) && Find(b, t) == x;
      RootsHas(b, U, t);
    }
  }

  lemma RootsSplit(b: Board, N: set<Pos>, n: Pos)
    requires IsForest(b) && n in N && InB(b, n)
    ensures Roots(b, N) == Roots(b, N - {n}) + {Find(b, n)}
  {
  }

  lemma RootsAdd(b: Board, D: set<Pos>, n: Pos)
    requires IsForest(b) && InB(b, n)
    ensures Roots(b, D + {n}) == Roots(b, D) + {Find(b, n)}
  {
    RootsUnion(b, D, {n});
    RootsOne(b, n);
  }

  /** Joining the current class of n into a join whose representative is r
      extends the join by n's original class. */
  lemma MergedAddOne(b0: Board, b1: Board, b2: Board, M: set<Pos>, r: Pos, n: Pos, r2: Pos)
    requires IsForest(b0) && IsForest(b1) && IsForest(b2) && SameShape(b0, b1) && SameShape(b1, b2)
    requires InB(b0, n) && r in M && Merged(b0, b1, M, r)
    requires Merged(b1, b2, {r, Find(b1, n)}, r2) && r2 in {r, Find(b1, n)}
    ensures SameShape(b0, b2) && Merged(b0, b2, M + {Find(b0, n)}, r2) && r2 in M + {Find(b0, n)}
  {
    MergedTwice(b0, b1, b2, M, r, {r, Find(b1, n)}, r2);
    assert InB(b1, n) && Find(b1, n) == if Find(b0, n) in M then r else Find(b0, n);
    assert M + {r, Find(b1, n)} == M + {Find(b0, n)};
  }

  lemma RootsAddTo(b: Board, X: set<Pos>, D: set<Pos>, n: Pos)
    requires IsForest(b) && InB(b, n)
    ensures X + Roots(b, D) + {Find(b, n)} == X + Roots(b, D + {n})
  {
    RootsAdd(b, D, n);
  }

  lemma RootsUnion(b: Board, A: set<Pos>, B: set<Pos>)
    requires IsForest(b)
    ensures Roots(b, A + B) == Roots(b, A) + Roots(b, B)
  {
    RootsMono(b, A, A + B);
    RootsMono(b, B, A + B);
  }

  lemma RootsOne(b: Board, p: Pos)
    requires IsForest(b) && InB(b, p)
    ensures Roots(b, {p}) == {Find(b, p)}
  {
  }

  lemma AbsorbUnion<T>(M: set<T>, x: T, R: set<T>)
    requires x in M
    ensures M + ({x} + R) == M + R
  {
  }

  lemma UnionAssoc<T>(A: set<T>, B: set<T>, C: set<T>)
    ensures A + B + C == A + (B + C)
  {
  }

  /** The join a flood fill starts with: the class of the seed and that of the first field. */
  lemma MergedStart(b0: Board, b1: Board, b2: Board, seed: Pos, p: Pos, r: Pos)
    requires IsForest(b0) && IsForest(b1) && IsForest(b2) && SameShape(b0, b1) && SameShape(b1, b2)
    requires InB(b0, seed) && InB(b0, p) && SameFind(b0, b1)
    requires Merged(b1, b2, {Find(b1, p), Find(b1, seed)}, r) && r in {Find(b1, p), Find(b1, seed)}
    ensures SameShape(b0, b2) && Merged(b0, b2, {Find(b0, seed)} + Roots(b0, {p}), r)
    ensures r in {Find(b0, seed)} + Roots(b0, {p})
  {
    assert Find(b1, p) == Find(b0, p) && Find(b1, seed) == Find(b0, seed);
    MergedAfterSame(b0, b1, b2, {Find(b0, p), Find(b0, seed)}, r);
    RootsOne(b0, p);
    assert {Find(b0, seed)} + {Find(b0, p)} == {Find(b0, p), Find(b0, seed)};
  }

  /** A flood step that joins a further set of fields N into the seed's class
      extends the join made so far by the classes of N. */
  lemma MergedExtend(b0: Board, b1: Board, b2: Board, seed: Pos, D: set<Pos>, N: set<Pos>, r: Pos, r1: Pos)
    requires IsForest(b0) && IsForest(b1) && IsForest(b2) && SameShape(b0, b1) && SameShape(b1, b2) && InB(b0, seed)
    requires r in {Find(b0, seed)} + Roots(b0, D) && Merged(b0, b1, {Find(b0, seed)} + Roots(b0, D), r)
    requires r1 in {Find(b1, seed)} + Roots(b1, N) && Merged(b1, b2, {Find(b1, seed)} + Roots(b1, N), r1)
    ensures SameShape(b0, b2)
    ensures r1 in {Find(b0, seed)} + Roots(b0, D + N) && Merged(b0, b2, {Find(b0, seed)} + Roots(b0, D + N), r1)
  {
    var M := {Find(b0, seed)} + Roots(b0, D);
    var R1 := Roots(b1, N);
    var M2 := {Find(b1, seed)} + R1;
    assert InB(b1, seed) && Find(b1, seed) == r;
    MergedTwice(b0, b1, b2, M, r, M2, r1);
    AbsorbUnion(M, r, R1);
    MergedRoots(b0, b1, M, r, N);
    RootsUnion(b0, D, N);
    UnionAssoc({Find(b0, seed)}, Roots(b0, D), Roots(b0, N));
    assert M + M2 == {Find(b0, seed)} + Roots(b0, D + N);
  }
}
