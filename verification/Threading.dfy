/** One whole insertion on values: the first structure, the rows a split changes, the
    cuts along a segment's way, and what they all do to searches. */
module Threading {
  import opened Sequences
  import opened Plane
  import opened Trapezoids
  import opened Tolerance
  import opened QueryStructure
  import opened QuerySteps
  import opened Merging
  import opened Insertion

  /** The neighbour links of one trapezoid. */
  datatype Links = Links(u0: int, u1: int, d0: int, d1: int)

  const BLANK := Node(Free, 0, ORIGIN, 0, 0, 0, 0)
  const EMPTY := Trap(-1, -1, ORIGIN, ORIGIN, 0, 0, 0, 0, 0, Invalid)

  /** The top and bottom points of a trapezoid. */
  datatype Span = Span(hi: Point, lo: Point)

  function SpanOf(t: Trap): Span { Span(t.hi, t.lo) }

  /** From where to where each row reaches once the trapezoids of `walk` are cut. */
  function Spans(Q: Query, walk: seq<int>): seq<Span> {
    seq(if Q.trIdx < 0 then 0 else Q.trIdx + |walk|, k requires k >= 0 =>
      if k < Q.trIdx then SpanOf(TrapAt(Q.tr, k))
      else if k - Q.trIdx < |walk| then SpanOf(TrapAt(Q.tr, walk[k - Q.trIdx])) else Span(ORIGIN, ORIGIN))
  }

  predicate LeadsDown(spans: seq<Span>, k: nat, d: int) {
    0 < d ==> d < |spans| && k < |spans| && GreaterThan(spans[k].lo, spans[d].lo) && spans[k].hi.y >= spans[d].hi.y
  }

  ghost predicate LinksLeadDown(links: seq<Links>, spans: seq<Span>) {
    |links| == |spans|
    && forall k :: 0 < k < |links| ==> LeadsDown(spans, k, links[k].d0) && LeadsDown(spans, k, links[k].d1)
  }

  predicate SameFlanks(a: Trap, b: Trap) {
    a.lseg == b.lseg && a.rseg == b.rseg && a.sink == b.sink && a.state == b.state
  }

  predicate SameButUp(a: Trap, b: Trap) { a.(u0 := b.u0, u1 := b.u1) == b }

  /** Rows after trapezoid t was split at the level of p. */
  ghost predicate RowsSplit(Q: Query, R: Query, t: int, p: Point) {
    && 0 < t < Q.trIdx < |Q.tr| == |R.tr| && R.trIdx == Q.trIdx + 1
    && R.tr[t].lo == p == R.tr[Q.trIdx].hi && R.tr[t].hi == Q.tr[t].hi && R.tr[Q.trIdx].lo == Q.tr[t].lo
    && R.tr[t].d0 == Q.trIdx && R.tr[t].d1 == 0
    && R.tr[Q.trIdx].d0 == Q.tr[t].d0 && R.tr[Q.trIdx].d1 == Q.tr[t].d1
    && R.tr[t].lseg == R.tr[Q.trIdx].lseg == Q.tr[t].lseg && R.tr[t].rseg == R.tr[Q.trIdx].rseg == Q.tr[t].rseg
    && forall k :: 0 < k < Q.trIdx && k != t ==> SameButUp(R.tr[k], Q.tr[k])
  }

  /** The structure before and after an end point was seen to: found at trapezoid tu, and
      put in there unless present. */
  ghost predicate PointInserted(Q: Query, H: History, R: Query, HR: History, tu: int, p: Point, present: bool)
  {
    && |H.born| == |Q.qs| && 0 < tu < |Q.tr| && 0 <= Q.tr[tu].sink < |Q.qs|
    && if present then R == Q && HR == H
    else Expanded(Q, R, tu) && RowsSplit(Q, R, tu, p) && HR == Tick(H, Q.tr[tu].sink)
         && R.qs[Q.tr[tu].sink].kind == YNode && R.qs[Q.tr[tu].sink].yval == p
  }

  ghost predicate Linked(tr: seq<Trap>, links: seq<Links>) {
    |links| <= |tr| && forall k :: 0 <= k < |links| ==> Links(tr[k].u0, tr[k].u1, tr[k].d0, tr[k].d1) == links[k]
  }

  lemma LinkedDescends(Q: Query, links: seq<Links>, spans: seq<Span>)
    requires Linked(Q.tr, links) && LinksLeadDown(links, spans) && |spans| == Q.trIdx
    requires forall k :: 0 < k < |spans| ==> SpanOf(Q.tr[k]) == spans[k]
    ensures Descending(Q.tr, Q.trIdx) && LinksInRange(Q)
  {
    forall k | 0 < k < Q.trIdx ensures DownAt(Q.tr, Q.trIdx, k) {
      assert Links(Q.tr[k].u0, Q.tr[k].u1, Q.tr[k].d0, Q.tr[k].d1) == links[k];
      assert LeadsDown(spans, k, links[k].d0) && LeadsDown(spans, k, links[k].d1);
      assert forall j :: 0 < j < |spans| ==> SpanOf(Q.tr[j]) == spans[j];
    }
    forall k | 0 < k < Q.trIdx ensures Q.tr[k].d0 < Q.trIdx && Q.tr[k].d1 < Q.trIdx {
      assert DownAt(Q.tr, Q.trIdx, k);
    }
  }

  /** The trapezoids a segment is to run through: valid ones, each once, none cut yet. */
  ghost predicate Uncut(Q: Query, walk: seq<int>, k: nat, segnum: int) {
    && Q.trIdx <= |Q.tr|
    && forall j :: k <= j < |walk| ==> UncutAt(Q, walk[j], segnum)
  }

  predicate UncutAt(Q: Query, t: int, segnum: int) {
    0 < t < Q.trIdx <= |Q.tr| && Q.tr[t].state == Trapezoids.Valid && Q.tr[t].lseg != segnum && Q.tr[t].rseg != segnum
  }

  /** The nodes of the first structure: levels at 1 and 3, the segment at 5, sinks below. */
  function InitialNode(k: int, segnum: int, high: Point, low: Point): Node {
    if k == 1 then Node(YNode, 0, high, 0, 0, 3, 2)
    else if k == 2 then Node(Sink, 0, ORIGIN, 4, 1, 0, 0)
    else if k == 3 then Node(YNode, 0, low, 0, 1, 4, 5)
    else if k == 4 then Node(Sink, 0, ORIGIN, 3, 3, 0, 0)
    else if k == 5 then Node(XNode, segnum, ORIGIN, 0, 3, 6, 7)
    else if k == 6 then Node(Sink, 0, ORIGIN, 1, 5, 0, 0)
    else if k == 7 then Node(Sink, 0, ORIGIN, 2, 5, 0, 0)
    else BLANK
  }

  /** 1 and 2 lie on either side of the segment, 3 below it, 4 above. */
  function InitialTrap(k: int, segnum: int, high: Point, low: Point, huge: real): Trap {
    if k == 1 then Trap(-1, segnum, high, low, 4, 0, 3, 0, 6, Trapezoids.Valid)
    else if k == 2 then Trap(segnum, -1, high, low, 4, 0, 3, 0, 7, Trapezoids.Valid)
    else if k == 3 then Trap(-1, -1, low, Point(-huge, -huge), 1, 2, 0, 0, 4, Trapezoids.Valid)
    else if k == 4 then Trap(-1, -1, Point(huge, huge), high, 0, 0, 1, 2, 2, Trapezoids.Valid)
    else EMPTY
  }

  /** In the first tables links up and down lead to trapezoids that touch, and back. */
  lemma InitialLinksAgree(segnum: int, high: Point, low: Point, huge: real, k: int, x: int)
    requires 1 <= k <= 4 && x > 0
    ensures var t, o := InitialTrap(k, segnum, high, low, huge), InitialTrap(x, segnum, high, low, huge);
            && (x == t.d0 || x == t.d1 <==> 1 <= x <= 4 && o.hi == t.lo && (k == o.u0 || k == o.u1))
            && (x == t.u0 || x == t.u1 <==> 1 <= x <= 4 && o.lo == t.hi && (k == o.d0 || k == o.d1))
  {
  }

  ghost predicate IsInitial(Q: Query, H: History, segnum: int, high: Point, low: Point, huge: real) {
    && |Q.qs| >= 8 && |Q.tr| >= 5 && Q.qIdx == 8 && Q.trIdx == 5 && |H.born| == |Q.qs| && H.clock == 3
    && (forall k :: 0 <= k < 8 ==> Q.qs[k] == InitialNode(k, segnum, high, low))
    && (forall k :: 0 <= k < 5 ==> Q.tr[k] == InitialTrap(k, segnum, high, low, huge))
    && H.born[1] == 0 && H.born[3] == 1 && H.born[5] == 2
  }

  lemma InitialIsWellFormed(Q: Query, H: History, segnum: int, high: Point, low: Point, huge: real)
    requires IsInitial(Q, H, segnum, high, low, huge)
    ensures WellFormed(Q, H, 1)
  {
    assert LiveSink(Q, 2) && LiveSink(Q, 4) && LiveSink(Q, 6) && LiveSink(Q, 7);
    assert ChildOk(Q, H, 1, 3) && ChildOk(Q, H, 3, 5);
    assert NodeOk(Q, H, 1) && NodeOk(Q, H, 3) && NodeOk(Q, H, 5);
    assert ParentOk(Q, H, 3) && ParentOk(Q, H, 5);
    assert TrapOk(Q, H, 1) && TrapOk(Q, H, 2) && TrapOk(Q, H, 3) && TrapOk(Q, H, 4);
  }

  /** Where the four trapezoids of the first segment lie. */
  function FirstPlace(s: Segment, v: Point, vo: Point): int {
    var high, low := Highest(s.v0, s.v1), Lowest(s.v0, s.v1);
    if Above(v, high) || (SamePoint(v, high) && Above(vo, high)) then 4
    else if !Above(v, low) && !(SamePoint(v, low) && Above(vo, low)) then 3
    else if GoesRight([Ends(s.v0, s.v1)], Node(XNode, 0, ORIGIN, 0, 0, 0, 0), v, vo) then 2 else 1
  }

  lemma InitialSearches(Q: Query, H: History, ends: seq<Ends>, s: Segment, first: int, high: Point, low: Point,
                        huge: real)
    requires IsInitial(Q, H, first, high, low, huge) && WellFormed(Q, H, 1)
    requires 0 <= first < |ends| && ends[first] == Ends(s.v0, s.v1)
    requires high == Highest(s.v0, s.v1) && low == Lowest(s.v0, s.v1)
    ensures forall v, vo :: Locate(Q, H, 1, ends, 1, v, vo) == FirstPlace(s, v, vo)
  {
    assert NodeOk(Q, H, 1) && NodeOk(Q, H, 3) && NodeOk(Q, H, 5);
    forall v, vo ensures Locate(Q, H, 1, ends, 1, v, vo) == FirstPlace(s, v, vo) {
      var y, x := Next(Q, ends, 3, v, vo), Next(Q, ends, 5, v, vo);
      assert y == 4 || y == 5;
      assert Locate(Q, H, 1, ends, 3, v, vo) == Locate(Q, H, 1, ends, y, v, vo);
      assert Locate(Q, H, 1, ends, 5, v, vo) == Locate(Q, H, 1, ends, x, v, vo) == Q.qs[x].trnum;
    }
  }

  lemma InitialIsGood(Q: Query, H: History, seg: seq<Segment>, nseg: int, first: int, high: Point, low: Point,
                      huge: real)
    requires IsInitial(Q, H, first, high, low, huge) && WellFormed(Q, H, 1) && 1 <= first <= nseg < |seg|
    requires seg[first].isInserted && forall i :: 1 <= i <= nseg ==> seg[i].root0 == 1 && seg[i].root1 == 1
    ensures CachesGood(Q, H, 1, H.clock, seg, nseg) && FlanksKnown(Q, seg, 0) && LinksInRange(Q)
  {
  }

  lemma NewRootsAreGood(Q: Query, H: History, root: int, before: seq<Segment>, after: seq<Segment>, nseg: int, i: int)
    requires CachesGood(Q, H, root, H.clock, before, nseg) && |after| == |before| && 1 <= i <= nseg
    requires EndsOf(after) == EndsOf(before)
    requires forall j :: 0 <= j < |after| && j != i ==> after[j] == before[j]
    requires RootsPassed(Q, H, root, EndsOf(after), H.clock, after[i])
    ensures CachesGood(Q, H, root, H.clock, after, nseg)
  {
  }

  /** The searches before and after a whole segment went in. */
  ghost predicate SearchesThreaded(Q: Query, HQ: History, R: Query, HR: History, root: int, ends: seq<Ends>,
                                   segnum: int, walk: seq<int>, into: seq<int>)
    requires WellFormed(Q, HQ, root) && WellFormed(R, HR, root)
  {
    forall v, vo ::
      var part := CutPart(ends, segnum, walk, Q.trIdx, Locate(Q, HQ, root, ends, root, v, vo), v, vo);
      0 < part < |into| && Locate(R, HR, root, ends, root, v, vo) == into[part]
  }

  /** What a trapezoid was merged into flanks the same segments; only those along the new
      segment were merged, and they are no longer valid. */
  ghost predicate MergedAlong(T: Query, into: seq<int>, segnum: int) {
    |into| <= T.trIdx <= |T.tr| && forall k :: 0 < k < |into| ==> MergedAlongAt(T, into, segnum, k)
  }

  predicate MergedAlongAt(T: Query, into: seq<int>, segnum: int, k: int)
    requires 0 < k < |into| <= T.trIdx <= |T.tr|
  {
    && 0 < into[k] < |into| && T.tr[into[k]].lseg == T.tr[k].lseg && T.tr[into[k]].rseg == T.tr[k].rseg
    && (into[k] != k ==> T.tr[k].state == Invalid && (T.tr[k].lseg == segnum || T.tr[k].rseg == segnum))
  }

  lemma FollowTwice(R: Query, S: Query, T: Query, H: History, root: int, ends: seq<Ends>, segnum: int,
                    left: seq<int>, right: seq<int>) returns (into: seq<int>)
    requires WellFormed(R, H, root) && WellFormed(S, H, root) && WellFormed(T, H, root)
    requires Absorbs(R, S, left, OnLeft, segnum) && Absorbs(S, T, right, OnRight, segnum)
    requires SearchesFollow(R, S, H, root, ends, left) && SearchesFollow(S, T, H, root, ends, right)
    ensures |into| == R.trIdx == T.trIdx && SearchesFollow(R, T, H, root, ends, into)
    ensures MergedAlong(T, into, segnum)
  {
    into := seq(|left|, k requires 0 <= k < |left| => if 0 < left[k] < |right| then right[left[k]] else 0);
    forall k | 0 < k < |into| ensures MergedAlongAt(T, into, segnum, k) {
      assert AbsorbedAt(R, S, left, OnLeft, segnum, k) && AbsorbedAt(S, T, right, OnRight, segnum, k);
      assert AbsorbedAt(S, T, right, OnRight, segnum, left[k]);
    }
    forall v, vo ensures Locate(T, H, root, ends, root, v, vo) == into[Locate(R, H, root, ends, root, v, vo)] {
      var k := Locate(R, H, root, ends, root, v, vo);
      assert AbsorbedAt(R, S, left, OnLeft, segnum, k);
      assert Locate(S, H, root, ends, root, v, vo) == left[k];
    }
  }

  lemma ThreadedSearches(Q: Query, HQ: History, R: Query, T: Query, H: History, root: int, ends: seq<Ends>,
                         segnum: int, walk: seq<int>, into: seq<int>)
    requires WellFormed(Q, HQ, root) && WellFormed(R, H, root) && WellFormed(T, H, root)
    requires SearchesCut(Q, HQ, R, H, root, ends, segnum, walk)
    requires |into| == R.trIdx && SearchesFollow(R, T, H, root, ends, into)
    ensures SearchesThreaded(Q, HQ, T, H, root, ends, segnum, walk, into)
  {
    forall v, vo ensures var part := CutPart(ends, segnum, walk, Q.trIdx, Locate(Q, HQ, root, ends, root, v, vo), v, vo);
      0 < part < |into| && Locate(T, H, root, ends, root, v, vo) == into[part]
    {
      assert Locate(R, H, root, ends, root, v, vo)
          == CutPart(ends, segnum, walk, Q.trIdx, Locate(Q, HQ, root, ends, root, v, vo), v, vo);
    }
  }

  /** The state after the first k trapezoids of the walk were cut. */
  ghost predicate CutSoFar(Q: Query, HQ: History, R: Query, HR: History, root: int, ends: seq<Ends>,
                           segnum: int, walk: seq<int>, k: nat, since: int) {
    && k <= |walk| && WellFormed(Q, HQ, root) && WellFormed(R, HR, root) && since <= HR.clock
    && R.trIdx == Q.trIdx + k && |R.tr| == |Q.tr| && |R.qs| == |Q.qs|
    && NoneCarriesBoth(R, segnum) && Uncut(Q, walk, 0, segnum) && Uncut(R, walk, k, segnum) && Distinct(walk)
    && AllFresh(R, HR, OnLeft, segnum, since) && AllFresh(R, HR, OnRight, segnum, since)
    && SearchesCut(Q, HQ, R, HR, root, ends, segnum, walk[..k])
    && (forall j :: 0 < j < R.trIdx ==> SpanOf(R.tr[j]) == Spans(Q, walk)[j])
  }

  lemma CutSoFarStep(Q: Query, HQ: History, R: Query, HR: History, S: Query, root: int, ends: seq<Ends>,
                     segnum: int, walk: seq<int>, k: nat, since: int)
    requires CutSoFar(Q, HQ, R, HR, root, ends, segnum, walk, k, since) && k < |walk|
    requires Expanded(R, S, walk[k]) && RowsCut(R, S, walk[k], segnum)
    requires S.qs[R.tr[walk[k]].sink].kind == XNode && S.qs[R.tr[walk[k]].sink].segnum == segnum
    ensures CutSoFar(Q, HQ, S, Tick(HR, R.tr[walk[k]].sink), root, ends, segnum, walk, k + 1, since)
  {
    var t := walk[k];
    assert UncutAt(R, t, segnum) && UncutAt(Q, t, segnum);
    ExpandKeepsStructure(R, S, HR, root, t);
    CutKeepsFresh(R, S, HR, root, t, segnum, since);
    CutStep(Q, HQ, R, S, HR, root, ends, segnum, walk[..k], t);
    assert walk[..k + 1] == walk[..k] + [t];
    forall j | k + 1 <= j < |walk| ensures UncutAt(S, walk[j], segnum) {
      assert UncutAt(R, walk[j], segnum) && UncutAt(Q, walk[j], segnum);
    }
    forall j | 0 < j < S.trIdx ensures SpanOf(S.tr[j]) == Spans(Q, walk)[j] {
      assert UncutAt(Q, t, segnum);
    }
  }
}
