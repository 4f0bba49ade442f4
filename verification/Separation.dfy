/** What it means that a segment is in: an inner node asks for its side, trapezoids lie on
    either side of it, and no search ends on the wrong one. */
module Separation {
  import opened Plane
  import opened Trapezoids
  import opened Tolerance
  import opened QueryStructure
  import opened QuerySteps
  import opened Merging
  import opened Insertion
  import opened Threading

  /** Does a search for v go to the right of the segment? */
  predicate SideRight(ends: seq<Ends>, segnum: int, v: Point, vo: Point) {
    GoesRight(ends, Node(XNode, segnum, ORIGIN, 0, 0, 0, 0), v, vo)
  }

  /** The search is on the proper side of both segments that flank the trapezoid. */
  predicate Between(ends: seq<Ends>, t: Trap, v: Point, vo: Point) {
    (t.lseg > 0 ==> SideRight(ends, t.lseg, v, vo)) && (t.rseg > 0 ==> !SideRight(ends, t.rseg, v, vo))
  }

  /** Unless v is higher or lower than anything, its level is within the trapezoid's, but for
      the tolerance. */
  predicate Within(t: Trap, huge: real, v: Point) { -huge <= v.y <= huge ==> t.lo.y - EPS <= v.y <= t.hi.y + EPS }

  /** Every search ends between the segments that flank the trapezoid it ends in, and between
      its levels. */
  ghost predicate Separated(Q: Query, H: History, root: int, ends: seq<Ends>, huge: real) {
    && WellFormed(Q, H, root)
    && forall v, vo {:trigger Locate(Q, H, root, ends, root, v, vo)} ::
         EndsWell(Q, ends, huge, Locate(Q, H, root, ends, root, v, vo), v, vo)
  }

  predicate EndsWell(Q: Query, ends: seq<Ends>, huge: real, k: int, v: Point, vo: Point)
    requires 0 <= k < |Q.tr|
  {
    Between(ends, Q.tr[k], v, vo) && Within(Q.tr[k], huge, v)
  }

  // ------------------------------------------------------------ in coordinates

  function LowerEnd(e: Ends): Point { if e.v0.y < e.v1.y then e.v0 else e.v1 }

  function UpperEnd(e: Ends): Point { if e.v0.y < e.v1.y then e.v1 else e.v0 }

  /** The level of v is clearly between those of the segment's ends. */
  predicate BetweenEnds(e: Ends, v: Point) { LowerEnd(e).y + EPS < v.y < UpperEnd(e).y - EPS }

  /** Where a search for v may end, by plain coordinates: not below or above the trapezoid, not
      to the left of the segment on its left, and strictly to the left of the one on its right. */
  predicate Surrounds(ends: seq<Ends>, t: Trap, huge: real, v: Point) {
    var l, r := EndsAt(ends, t.lseg), EndsAt(ends, t.rseg);
    && (-huge <= v.y <= huge ==> t.lo.y - EPS <= v.y <= t.hi.y + EPS)
    && (t.lseg > 0 && BetweenEnds(l, v) ==> !LeftOfLine(LowerEnd(l), UpperEnd(l), v))
    && (t.rseg > 0 && BetweenEnds(r, v) ==> LeftOfLine(LowerEnd(r), UpperEnd(r), v))
  }

  lemma SideInCoordinates(ends: seq<Ends>, s: int, v: Point, vo: Point)
    requires BetweenEnds(EndsAt(ends, s), v)
    ensures SideRight(ends, s, v, vo) <==> !LeftOfLine(LowerEnd(EndsAt(ends, s)), UpperEnd(EndsAt(ends, s)), v)
  {
    var e := EndsAt(ends, s);
    SideOfLine(LowerEnd(e), UpperEnd(e), v);
  }

  /** Every search ends where its point lies. */
  lemma SearchesSurround(Q: Query, H: History, root: int, ends: seq<Ends>, huge: real)
    requires Separated(Q, H, root, ends, huge)
    ensures forall v, vo :: Surrounds(ends, Q.tr[Locate(Q, H, root, ends, root, v, vo)], huge, v)
  {
    forall v, vo ensures Surrounds(ends, Q.tr[Locate(Q, H, root, ends, root, v, vo)], huge, v) {
      var k := Locate(Q, H, root, ends, root, v, vo);
      assert EndsWell(Q, ends, huge, k, v, vo);
      var t := Q.tr[k];
      if BetweenEnds(EndsAt(ends, t.lseg), v) { SideInCoordinates(ends, t.lseg, v, vo); }
      if BetweenEnds(EndsAt(ends, t.rseg), v) { SideInCoordinates(ends, t.rseg, v, vo); }
    }
  }

  lemma PointKeepsSeparated(Q: Query, R: Query, H: History, root: int, t: int, p: Point, ends: seq<Ends>, huge: real)
    requires Separated(Q, H, root, ends, huge) && Expanded(Q, R, t) && RowsSplit(Q, R, t, p)
    requires R.qs[Q.tr[t].sink].kind == YNode && R.qs[Q.tr[t].sink].yval == p
    ensures Separated(R, Tick(H, Q.tr[t].sink), root, ends, huge)
  {
    var HR := Tick(H, Q.tr[t].sink);
    ExpandKeepsStructure(Q, R, H, root, t);
    forall v, vo ensures EndsWell(R, ends, huge, Locate(R, HR, root, ends, root, v, vo), v, vo) {
      ExpandRefinesSearch(Q, R, H, root, t, ends, root, v, vo);
      assert EndsWell(Q, ends, huge, Locate(Q, H, root, ends, root, v, vo), v, vo);
      LevelOfPart(ends, R.qs[Q.tr[t].sink], v, vo);
    }
  }

  /** Above a y node is what is not clearly below its level, and the other way round. */
  lemma LevelOfPart(ends: seq<Ends>, nd: Node, v: Point, vo: Point)
    requires nd.kind == YNode
    ensures if GoesRight(ends, nd, v, vo) then v.y >= nd.yval.y - EPS else v.y <= nd.yval.y + EPS
  {
    AboveByLevel(v, nd.yval);
  }

  lemma CutKeepsSeparated(Q: Query, R: Query, H: History, root: int, t: int, segnum: int, ends: seq<Ends>, huge: real)
    requires Separated(Q, H, root, ends, huge) && Expanded(Q, R, t) && RowsCut(Q, R, t, segnum)
    requires R.qs[Q.tr[t].sink].kind == XNode && R.qs[Q.tr[t].sink].segnum == segnum
    ensures Separated(R, Tick(H, Q.tr[t].sink), root, ends, huge)
  {
    var HR := Tick(H, Q.tr[t].sink);
    ExpandKeepsStructure(Q, R, H, root, t);
    forall v, vo ensures EndsWell(R, ends, huge, Locate(R, HR, root, ends, root, v, vo), v, vo) {
      ExpandRefinesSearch(Q, R, H, root, t, ends, root, v, vo);
      assert EndsWell(Q, ends, huge, Locate(Q, H, root, ends, root, v, vo), v, vo);
      assert GoesRight(ends, R.qs[Q.tr[t].sink], v, vo) == SideRight(ends, segnum, v, vo);
    }
  }

  lemma MergeKeepsSeparated(Q: Query, R: Query, H: History, root: int, t: int, n: int, ends: seq<Ends>, huge: real)
    requires Separated(Q, H, root, ends, huge) && Merged(Q, R, t, n) && RowsMerged(Q, R, t, n)
    requires Q.tr[t].lseg == Q.tr[n].lseg && Q.tr[t].rseg == Q.tr[n].rseg && Lower(Q.tr[n], Q.tr[t])
    ensures Separated(R, H, root, ends, huge)
  {
    MergeKeepsStructure(Q, R, H, root, t, n);
    forall v, vo ensures EndsWell(R, ends, huge, Locate(R, H, root, ends, root, v, vo), v, vo) {
      MergeRedirectsSearch(Q, R, H, root, t, n, ends, root, v, vo);
      assert EndsWell(Q, ends, huge, Locate(Q, H, root, ends, root, v, vo), v, vo);
    }
  }

  // ------------------------------------------------------------ segments that are in

  predicate AsksAt(Q: Query, x: int, s: int) {
    0 < x < Q.qIdx <= |Q.qs| && Q.qs[x].kind == XNode && Q.qs[x].segnum == s
  }

  predicate LiesLeft(Q: Query, k: int, s: int) {
    0 < k < Q.trIdx <= |Q.tr| && Q.tr[k].state == Valid && Q.tr[k].rseg == s
  }

  predicate LiesRight(Q: Query, k: int, s: int) {
    0 < k < Q.trIdx <= |Q.tr| && Q.tr[k].state == Valid && Q.tr[k].lseg == s
  }

  /** Some node asks for the side of segment s, and valid trapezoids lie on both. */
  ghost predicate Installed(Q: Query, s: int) {
    (exists x :: AsksAt(Q, x, s)) && (exists k :: LiesLeft(Q, k, s)) && (exists k :: LiesRight(Q, k, s))
  }

  predicate KeyAt(Q: Query, x: int, p: Point) {
    0 < x < Q.qIdx <= |Q.qs| && Q.qs[x].kind == YNode && SamePoint(Q.qs[x].yval, p)
  }

  /** Some node asks for the level of p. */
  ghost predicate Keyed(Q: Query, p: Point) { exists x :: KeyAt(Q, x, p) }

  /** Segments that follow each other along a contour share an end point. */
  ghost predicate Joined(seg: seq<Segment>, n: int) {
    forall i :: 1 <= i <= n < |seg| ==> JoinedAt(seg, n, i)
  }

  predicate JoinedAt(seg: seq<Segment>, n: int, i: int)
    requires 1 <= i <= n < |seg|
  {
    && 1 <= seg[i].prev <= n && 1 <= seg[i].next <= n
    && seg[seg[i].prev].v1 == seg[i].v0 && seg[seg[i].next].v0 == seg[i].v1
  }

  /** Every inserted segment is in: with its node, trapezoids on both sides and, along
      contours, the levels of its end points. */
  ghost predicate AllInstalled(Q: Query, seg: seq<Segment>, n: int) {
    n < |seg| && forall s :: 1 <= s <= n && seg[s].isInserted ==> IsIn(Q, seg, n, s)
  }

  ghost predicate IsIn(Q: Query, seg: seq<Segment>, n: int, s: int)
    requires 1 <= s <= n < |seg|
  {
    Installed(Q, s) && (Joined(seg, n) ==> Keyed(Q, seg[s].v0) && Keyed(Q, seg[s].v1))
  }

  /** What asks for a side or a level still does, and what lies beside a segment. */
  ghost predicate Kept(Q: Query, R: Query) {
    && (forall s :: Installed(Q, s) ==> Installed(R, s))
    && (forall p {:trigger Keyed(R, p)} :: Keyed(Q, p) ==> Keyed(R, p))
  }

  lemma KeptKeepsAll(Q: Query, R: Query, seg: seq<Segment>, n: int)
    requires AllInstalled(Q, seg, n) && Kept(Q, R)
    ensures AllInstalled(R, seg, n)
  {
    forall s | 1 <= s <= n && seg[s].isInserted ensures IsIn(R, seg, n, s) { assert IsIn(Q, seg, n, s); }
  }

  lemma KeptTwice(P: Query, Q: Query, R: Query)
    requires Kept(P, Q) && Kept(Q, R)
    ensures Kept(P, R)
  {
    forall p | Keyed(P, p) ensures Keyed(R, p) { assert Keyed(Q, p); }
  }

  lemma ExpandKeepsKeyed(Q: Query, R: Query, t: int, p: Point)
    requires Expanded(Q, R, t) && Keyed(Q, p)
    ensures Keyed(R, p)
  {
    var x :| KeyAt(Q, x, p);
    assert x != Q.tr[t].sink && KeyAt(R, x, p);
  }

  lemma MergeKeepsKeyed(Q: Query, R: Query, t: int, n: int, p: Point)
    requires Merged(Q, R, t, n) && Keyed(Q, p)
    ensures Keyed(R, p)
  {
    var x :| KeyAt(Q, x, p);
    assert KeyAt(R, x, p);
  }

  lemma PointKeepsInstalled(Q: Query, R: Query, t: int, p: Point, s: int)
    requires Expanded(Q, R, t) && RowsSplit(Q, R, t, p) && Installed(Q, s)
    ensures Installed(R, s)
  {
    var x :| AsksAt(Q, x, s);
    assert x != Q.tr[t].sink && AsksAt(R, x, s);
    var k :| LiesLeft(Q, k, s);
    assert LiesLeft(R, k, s);
    var l :| LiesRight(Q, l, s);
    assert LiesRight(R, l, s);
  }

  lemma CutKeepsInstalled(Q: Query, R: Query, t: int, segnum: int, s: int)
    requires Expanded(Q, R, t) && RowsCut(Q, R, t, segnum) && Installed(Q, s)
    ensures Installed(R, s)
  {
    var x :| AsksAt(Q, x, s);
    assert x != Q.tr[t].sink && AsksAt(R, x, s);
    var k :| LiesLeft(Q, k, s);
    assert LiesLeft(R, if k == t then Q.trIdx else k, s);
    var l :| LiesRight(Q, l, s);
    assert LiesRight(R, l, s);
  }

  lemma CutInstalls(Q: Query, R: Query, t: int, segnum: int)
    requires Expanded(Q, R, t) && RowsCut(Q, R, t, segnum)
    requires R.qs[Q.tr[t].sink].kind == XNode && R.qs[Q.tr[t].sink].segnum == segnum
    ensures Installed(R, segnum)
  {
    assert AsksAt(R, Q.tr[t].sink, segnum) && LiesLeft(R, t, segnum) && LiesRight(R, Q.trIdx, segnum);
  }

  lemma MergeKeepsInstalled(Q: Query, R: Query, t: int, n: int, s: int)
    requires Merged(Q, R, t, n) && RowsMerged(Q, R, t, n) && Installed(Q, s)
    requires Q.tr[t].lseg == Q.tr[n].lseg && Q.tr[t].rseg == Q.tr[n].rseg
    ensures Installed(R, s)
  {
    var x :| AsksAt(Q, x, s);
    assert AsksAt(R, x, s);
    var k :| LiesLeft(Q, k, s);
    assert LiesLeft(R, if k == n then t else k, s);
    var l :| LiesRight(Q, l, s);
    assert LiesRight(R, if l == n then t else l, s);
  }

  /** The node of an inserted segment can be reached from the root. */
  lemma InstalledIsReached(Q: Query, H: History, root: int, s: int) returns (x: int)
    requires WellFormed(Q, H, root) && Installed(Q, s)
    ensures AsksAt(Q, x, s) && Reaches(Q, root, x)
  {
    x :| AsksAt(Q, x, s);
    var p := PathFromRoot(Q, H, root, x);
  }

  lemma InitialIsSeparated(Q: Query, H: History, ends: seq<Ends>, s: Segment, first: int, high: Point, low: Point,
                           huge: real)
    requires IsInitial(Q, H, first, high, low, huge) && WellFormed(Q, H, 1)
    requires 0 < first < |ends| && ends[first] == Ends(s.v0, s.v1)
    requires high == Highest(s.v0, s.v1) && low == Lowest(s.v0, s.v1)
    ensures Separated(Q, H, 1, ends, huge) && Installed(Q, first) && Keyed(Q, s.v0) && Keyed(Q, s.v1)
  {
    assert AsksAt(Q, 5, first) && LiesLeft(Q, 1, first) && LiesRight(Q, 2, first);
    assert KeyAt(Q, if SamePoint(high, s.v0) then 1 else 3, s.v0);
    assert KeyAt(Q, if SamePoint(high, s.v1) then 1 else 3, s.v1);
    InitialSearches(Q, H, ends, s, first, high, low, huge);
    forall v, vo ensures EndsWell(Q, ends, huge, Locate(Q, H, 1, ends, 1, v, vo), v, vo) {
      assert Locate(Q, H, 1, ends, 1, v, vo) == FirstPlace(s, v, vo);
      assert GoesRight([Ends(s.v0, s.v1)], Node(XNode, 0, ORIGIN, 0, 0, 0, 0), v, vo) == SideRight(ends, first, v, vo);
    }
  }

  // ------------------------------------------------------------ all that holds during an insertion

  lemma PointKeepsAll(Q: Query, R: Query, t: int, p: Point)
    requires Expanded(Q, R, t) && RowsSplit(Q, R, t, p)
    requires R.qs[Q.tr[t].sink].kind == YNode && R.qs[Q.tr[t].sink].yval == p
    ensures Kept(Q, R) && Keyed(R, p)
  {
    forall s | Installed(Q, s) ensures Installed(R, s) { PointKeepsInstalled(Q, R, t, p, s); }
    forall k | Keyed(Q, k) ensures Keyed(R, k) { ExpandKeepsKeyed(Q, R, t, k); }
    assert KeyAt(R, Q.tr[t].sink, p);
  }

  lemma CutKeepsAll(Q: Query, R: Query, t: int, segnum: int)
    requires Expanded(Q, R, t) && RowsCut(Q, R, t, segnum)
    ensures Kept(Q, R)
  {
    forall s | Installed(Q, s) ensures Installed(R, s) { CutKeepsInstalled(Q, R, t, segnum, s); }
    forall k | Keyed(Q, k) ensures Keyed(R, k) { ExpandKeepsKeyed(Q, R, t, k); }
  }

  lemma MergeKeepsAll(Q: Query, R: Query, t: int, m: int)
    requires Merged(Q, R, t, m) && RowsMerged(Q, R, t, m)
    requires Q.tr[t].lseg == Q.tr[m].lseg && Q.tr[t].rseg == Q.tr[m].rseg
    ensures Kept(Q, R)
  {
    forall s | Installed(Q, s) ensures Installed(R, s) { MergeKeepsInstalled(Q, R, t, m, s); }
    forall k | Keyed(Q, k) ensures Keyed(R, k) { MergeKeepsKeyed(Q, R, t, m, k); }
  }

  lemma PointKeepsSound(Q: Query, H: History, R: Query, root: int, t: int, p: Point, since: int, seg: seq<Segment>,
                        n: int, huge: real)
    requires CachesGood(Q, H, root, since, seg, n) && Separated(Q, H, root, EndsOf(seg), huge)
    requires AllInstalled(Q, seg, n) && Expanded(Q, R, t) && RowsSplit(Q, R, t, p)
    requires R.qs[Q.tr[t].sink].kind == YNode && R.qs[Q.tr[t].sink].yval == p
    ensures var HR := Tick(H, Q.tr[t].sink);
            CachesGood(R, HR, root, since, seg, n) && Separated(R, HR, root, EndsOf(seg), huge) && AllInstalled(R, seg, n)
    ensures Kept(Q, R) && Keyed(R, p)
  {
    ExpandKeepsCaches(Q, R, H, root, t, since, seg, n);
    PointKeepsSeparated(Q, R, H, root, t, p, EndsOf(seg), huge);
    PointKeepsAll(Q, R, t, p);
    KeptKeepsAll(Q, R, seg, n);
  }

  lemma CutKeepsSound(Q: Query, H: History, R: Query, root: int, t: int, segnum: int, since: int, seg: seq<Segment>,
                      n: int, huge: real)
    requires CachesGood(Q, H, root, since, seg, n) && Separated(Q, H, root, EndsOf(seg), huge)
    requires AllInstalled(Q, seg, n) && Expanded(Q, R, t) && RowsCut(Q, R, t, segnum)
    requires R.qs[Q.tr[t].sink].kind == XNode && R.qs[Q.tr[t].sink].segnum == segnum
    ensures var HR := Tick(H, Q.tr[t].sink);
            CachesGood(R, HR, root, since, seg, n) && Separated(R, HR, root, EndsOf(seg), huge) && AllInstalled(R, seg, n)
    ensures Kept(Q, R) && Installed(R, segnum)
  {
    ExpandKeepsCaches(Q, R, H, root, t, since, seg, n);
    CutKeepsSeparated(Q, R, H, root, t, segnum, EndsOf(seg), huge);
    CutInstalls(Q, R, t, segnum);
    CutKeepsAll(Q, R, t, segnum);
    KeptKeepsAll(Q, R, seg, n);
  }

  lemma MergeKeepsSound(Q: Query, R: Query, H: History, root: int, t: int, m: int, since: int, seg: seq<Segment>,
                        n: int, huge: real)
    requires CachesGood(Q, H, root, since, seg, n) && Separated(Q, H, root, EndsOf(seg), huge)
    requires AllInstalled(Q, seg, n) && Merged(Q, R, t, m) && RowsMerged(Q, R, t, m)
    requires since <= H.born[Q.qs[Q.tr[m].sink].parent] && Lower(Q.tr[m], Q.tr[t])
    requires Q.tr[t].lseg == Q.tr[m].lseg && Q.tr[t].rseg == Q.tr[m].rseg
    ensures CachesGood(R, H, root, since, seg, n) && Separated(R, H, root, EndsOf(seg), huge) && AllInstalled(R, seg, n)
    ensures Kept(Q, R)
  {
    MergeKeepsCaches(Q, R, H, root, t, m, since, seg, n);
    MergeKeepsSeparated(Q, R, H, root, t, m, EndsOf(seg), huge);
    MergeKeepsAll(Q, R, t, m);
    KeptKeepsAll(Q, R, seg, n);
  }

  lemma CutKeepsKnown(Q: Query, R: Query, t: int, segnum: int, seg: seq<Segment>)
    requires FlanksKnown(Q, seg, segnum) && RowsCut(Q, R, t, segnum)
    ensures FlanksKnown(R, seg, segnum)
  {
    forall k | 0 < k < R.trIdx ensures Known(seg, segnum, R.tr[k].lseg) && Known(seg, segnum, R.tr[k].rseg) {
      assert Known(seg, segnum, Q.tr[t].lseg) && Known(seg, segnum, Q.tr[t].rseg);
    }
  }

  lemma OneMoreInstalled(Q: Query, before: seq<Segment>, after: seq<Segment>, n: int, segnum: int)
    requires AllInstalled(Q, before, n) && 1 <= segnum <= n < |before|
    requires after == before[segnum := before[segnum].(isInserted := true)]
    requires IsIn(Q, before, n, segnum)
    ensures AllInstalled(Q, after, n)
  {
    SameContoursJoined(before, after, n);
    forall s | 1 <= s <= n && after[s].isInserted ensures IsIn(Q, after, n, s) {
      assert s != segnum ==> before[s].isInserted;
      assert IsIn(Q, before, n, s);
    }
  }

  /** The same ends and neighbours join the same way. */
  lemma SameContoursJoined(before: seq<Segment>, after: seq<Segment>, n: int)
    requires |before| == |after| && forall i :: 0 <= i < |before| ==>
      after[i] == before[i].(isInserted := after[i].isInserted, root0 := after[i].root0, root1 := after[i].root1)
    ensures Joined(after, n) <==> Joined(before, n)
  {
    if Joined(before, n) {
      forall i | 1 <= i <= n < |after| ensures JoinedAt(after, n, i) { assert JoinedAt(before, n, i); }
    }
    if Joined(after, n) {
      forall i | 1 <= i <= n < |before| ensures JoinedAt(before, n, i) { assert JoinedAt(after, n, i); }
    }
  }

  /** New roots take nothing out. */
  lemma SameContoursInstalled(Q: Query, before: seq<Segment>, after: seq<Segment>, n: int)
    requires AllInstalled(Q, before, n) && |before| == |after|
    requires forall i :: 0 <= i < |before| ==> after[i] == before[i].(root0 := after[i].root0, root1 := after[i].root1)
    ensures AllInstalled(Q, after, n)
  {
    SameContoursJoined(before, after, n);
    forall s | 1 <= s <= n && after[s].isInserted ensures IsIn(Q, after, n, s) { assert IsIn(Q, before, n, s); }
  }

  /** An end point shared with an inserted segment has its level asked for already. */
  lemma NeighbourIsKeyed(Q: Query, seg: seq<Segment>, n: int, s: int, first: bool)
    requires AllInstalled(Q, seg, n) && 1 <= s <= n && Joined(seg, n)
    requires var k := if first then seg[s].prev else seg[s].next; 0 <= k < |seg| && seg[k].isInserted
    ensures Keyed(Q, if first then seg[s].v0 else seg[s].v1)
  {
    assert JoinedAt(seg, n, s);
    assert IsIn(Q, seg, n, if first then seg[s].prev else seg[s].next);
  }

  lemma FlanksStayKnown(Q: Query, seg: seq<Segment>, segnum: int)
    requires FlanksKnown(Q, seg, 0)
    ensures FlanksKnown(Q, seg, segnum)
  {
    forall k | 0 < k < Q.trIdx ensures Known(seg, segnum, Q.tr[k].lseg) && Known(seg, segnum, Q.tr[k].rseg) {
      assert Known(seg, 0, Q.tr[k].lseg) && Known(seg, 0, Q.tr[k].rseg);
    }
  }
}
