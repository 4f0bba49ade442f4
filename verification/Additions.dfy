/** One insertion as a whole: where the searches end afterwards. */
module Additions {
  import opened Plane
  import opened Trapezoids
  import opened QueryStructure
  import opened QuerySteps
  import opened Insertion
  import opened Threading
  import opened Tables
  import opened Separation

  /** Where a search that ended in trapezoid k ends once the end point p was seen to in tu:
      below p it ends in the new lower part, tl. */
  function PointPart(ends: seq<Ends>, p: Point, present: bool, tu: int, tl: int, k: int, v: Point, vo: Point): int {
    if present || k != tu || GoesRight(ends, Node(YNode, 0, p, 0, 0, 0, 0), v, vo) then k else tl
  }

  /** The same for both end points, the higher one, looked up in tu, first. */
  function EndsPart(ends: seq<Ends>, j: Job, tu: int, tlast: int, first: int, k: int, v: Point, vo: Point): int {
    PointPart(ends, j.lo, j.loPresent, tlast, first + (if j.hiPresent then 0 else 1),
              PointPart(ends, j.hi, j.hiPresent, tu, first, k, v, vo), v, vo)
  }

  ghost predicate SearchesPut(S: Stage, R: Stage, root: int, ends: seq<Ends>, p: Point, present: bool, tu: int)
    requires WellFormed(S.Q, S.H, root) && WellFormed(R.Q, R.H, root)
  {
    forall v, vo :: Locate(R.Q, R.H, root, ends, root, v, vo)
                 == PointPart(ends, p, present, tu, S.Q.trIdx, Locate(S.Q, S.H, root, ends, root, v, vo), v, vo)
  }

  /** An end point splits searches by their level, where its trapezoid was. */
  lemma PointSearches(S: Stage, R: Stage, root: int, ends: seq<Ends>, p: Point, present: bool, tu: int)
    requires WellFormed(S.Q, S.H, root) && WellFormed(R.Q, R.H, root)
    requires PointInserted(S.Q, S.H, R.Q, R.H, tu, p, present)
    ensures SearchesPut(S, R, root, ends, p, present, tu)
    ensures R.Q.trIdx == S.Q.trIdx + if present then 0 else 1
  {
    if !present {
      forall v, vo ensures Locate(R.Q, R.H, root, ends, root, v, vo)
          == PointPart(ends, p, present, tu, S.Q.trIdx, Locate(S.Q, S.H, root, ends, root, v, vo), v, vo)
      {
        ExpandRefinesSearch(S.Q, R.Q, S.H, root, tu, ends, root, v, vo);
      }
    }
  }

  /** The searches before and after both end points were seen to. */
  ghost predicate SearchesEnded(S: Stage, R: Stage, root: int, ends: seq<Ends>, j: Job, tu: int, tlast: int) {
    && WellFormed(S.Q, S.H, root) && WellFormed(R.Q, R.H, root) && R.Q.trIdx == S.Q.trIdx + EndsNeeded(j)
    && forall v, vo ::
         Locate(R.Q, R.H, root, ends, root, v, vo)
         == EndsPart(ends, j, tu, tlast, S.Q.trIdx, Locate(S.Q, S.H, root, ends, root, v, vo), v, vo)
  }

  lemma EndSearches(S: Stage, P: Stage, R: Stage, root: int, ends: seq<Ends>, j: Job, tu: int, tlast: int)
    requires WellFormed(S.Q, S.H, root) && WellFormed(P.Q, P.H, root) && WellFormed(R.Q, R.H, root)
    requires PointInserted(S.Q, S.H, P.Q, P.H, tu, j.hi, j.hiPresent)
    requires PointInserted(P.Q, P.H, R.Q, R.H, tlast, j.lo, j.loPresent)
    ensures SearchesEnded(S, R, root, ends, j, tu, tlast)
  {
    PointSearches(S, P, root, ends, j.hi, j.hiPresent, tu);
    PointSearches(P, R, root, ends, j.lo, j.loPresent, tlast);
    forall v, vo ensures Locate(R.Q, R.H, root, ends, root, v, vo)
        == EndsPart(ends, j, tu, tlast, S.Q.trIdx, Locate(S.Q, S.H, root, ends, root, v, vo), v, vo)
    {
      assert Locate(P.Q, P.H, root, ends, root, v, vo)
          == PointPart(ends, j.hi, j.hiPresent, tu, S.Q.trIdx, Locate(S.Q, S.H, root, ends, root, v, vo), v, vo);
    }
  }

  /** The searches before and after a segment was added along a walk: told apart by the
      levels of its end points, then by its side, then followed into what was merged. */
  ghost predicate SearchesAdded(S: Stage, T: Stage, root: int, ends: seq<Ends>, segnum: int, j: Job, tu: int,
                                tlast: int, walk: seq<int>, into: seq<int>) {
    && WellFormed(S.Q, S.H, root) && WellFormed(T.Q, T.H, root) && MergedAlong(T.Q, into, segnum)
    && forall v, vo ::
         var k := EndsPart(ends, j, tu, tlast, S.Q.trIdx, Locate(S.Q, S.H, root, ends, root, v, vo), v, vo);
         var part := CutPart(ends, segnum, walk, S.Q.trIdx + EndsNeeded(j), k, v, vo);
         0 < part < |into| && Locate(T.Q, T.H, root, ends, root, v, vo) == into[part]
  }

  lemma AddedSearches(S: Stage, R: Stage, T: Stage, root: int, ends: seq<Ends>, segnum: int, j: Job, tu: int,
                      tlast: int, walk: seq<int>, into: seq<int>)
    requires SearchesEnded(S, R, root, ends, j, tu, tlast) && WellFormed(T.Q, T.H, root)
    requires SearchesThreaded(R.Q, R.H, T.Q, T.H, root, ends, segnum, walk, into) && MergedAlong(T.Q, into, segnum)
    ensures SearchesAdded(S, T, root, ends, segnum, j, tu, tlast, walk, into)
  {
    forall v, vo
      ensures var k := EndsPart(ends, j, tu, tlast, S.Q.trIdx, Locate(S.Q, S.H, root, ends, root, v, vo), v, vo);
              var part := CutPart(ends, segnum, walk, S.Q.trIdx + EndsNeeded(j), k, v, vo);
              0 < part < |into| && Locate(T.Q, T.H, root, ends, root, v, vo) == into[part]
    {
      assert Locate(R.Q, R.H, root, ends, root, v, vo)
          == EndsPart(ends, j, tu, tlast, S.Q.trIdx, Locate(S.Q, S.H, root, ends, root, v, vo), v, vo);
    }
  }
}
