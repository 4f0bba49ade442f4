/** Seidel's incremental trapezoidation: the tables, and the operations that insert one
    segment after another and look points up. Which trapezoids a segment runs through,
    and the neighbour links after each of them was cut, come as inputs. */
module Trapezoidation {
  import opened Sequences
  import opened Plane
  import opened Trapezoids
  import opened Tolerance
  import opened QueryStructure
  import opened QuerySteps
  import opened Merging
  import opened Insertion
  import opened Threading
  import opened Ordering
  import opened Tables
  import opened Separation
  import opened Additions

  ghost predicate GoodRoute(Q: Query, r: Route, segnum: int, tfirst: int) {
    && r.walk != [] && r.walk[0] == tfirst && Uncut(Q, r.walk, 0, segnum) && Distinct(r.walk)
    && |r.links| == |r.walk| && (forall k :: 0 <= k < |r.walk| ==> |r.links[k]| == Q.trIdx + k + 1)
    && LinksLeadDown(r.links[|r.walk| - 1], Spans(Q, r.walk))
  }

  /** Between any two trapezoids not flanked by the segment yet, the route is a good one. */
  ghost predicate GoodRouter(route: Router) {
    forall Q, segnum, tfirst, tlast {:trigger route(Q, segnum, tfirst, tlast)} ::
      UncutAt(Q, tfirst, segnum) && UncutAt(Q, tlast, segnum) ==>
        GoodRoute(Q, route(Q, segnum, tfirst, tlast), segnum, tfirst)
  }

  /** A segment that lies in a single trapezoid has a good route, so there are such routers. */
  lemma ShortRouteIsGood(Q: Query, segnum: int, t: int)
    requires UncutAt(Q, t, segnum)
    ensures GoodRoute(Q, Route([t], [seq(Q.trIdx + 1, k => Links(0, 0, 0, 0))]), segnum, t)
  {
    var spans := Spans(Q, [t]);
    assert |spans| == Q.trIdx + 1;
  }

  /** The same end points and neighbours. */
  ghost predicate SameContours(before: seq<Segment>, after: seq<Segment>) {
    |before| == |after| && forall i :: 0 <= i < |before| ==>
      after[i] == before[i].(isInserted := after[i].isInserted, root0 := after[i].root0, root1 := after[i].root1)
  }

  lemma SameContoursKeep(before: seq<Segment>, after: seq<Segment>, n: int)
    requires SameContours(before, after)
    ensures EndsOf(after) == EndsOf(before) && (NeighboursOk(before, n) ==> NeighboursOk(after, n))
  {
  }

  /** Every segment has neighbours along its contour. */
  ghost predicate NeighboursOk(seg: seq<Segment>, n: int) {
    n < |seg| && forall i :: 1 <= i <= n ==> 0 <= seg[i].prev < |seg| && 0 <= seg[i].next < |seg|
  }

  /** With the first of the ordering in, the run has begun. */
  lemma FirstIsReached(I: Input, after: seq<Segment>)
    requires IsOrdering(I.permute, I.n) && 1 <= I.n < |I.seg|
    requires SameContours(I.seg, after) && after[I.permute[0]].isInserted && after[0] == I.seg[0]
    requires forall i :: 1 <= i <= I.n && i != I.permute[0] ==> !after[i].isInserted
    requires forall i :: I.n < i < |after| ==> after[i] == I.seg[i]
    ensures UpToRoots(SegmentsAt(I, 1), after)
  {
    assert I.permute[..1] == [I.permute[0]];
  }

  lemma AllAreIn(I: Input, after: seq<Segment>)
    requires IsOrdering(I.permute, I.n) && I.n < |I.seg| && UpToRoots(SegmentsAt(I, I.n), after)
    ensures SameContours(I.seg, after) && forall i :: 1 <= i <= I.n ==> after[i].isInserted
  {
    assert I.permute[..I.n] == I.permute;
    forall i | 0 <= i < |I.seg| ensures
      after[i] == I.seg[i].(isInserted := after[i].isInserted, root0 := after[i].root0, root1 := after[i].root1)
    {
      assert after[i] == SegmentsAt(I, I.n)[i].(root0 := after[i].root0, root1 := after[i].root1);
    }
    forall i | 1 <= i <= I.n ensures after[i].isInserted { assert i in I.permute; }
  }

  lemma OneMoreInserted(I: Input, before: seq<Segment>, after: seq<Segment>, c: nat)
    requires UpToRoots(SegmentsAt(I, c), before) && c < |I.permute| && IsOrdering(I.permute, I.n) && I.n < |I.seg|
    requires after == before[I.permute[c] := before[I.permute[c]].(isInserted := true)]
    ensures UpToRoots(SegmentsAt(I, c + 1), after)
  {
    assert I.permute[..c + 1] == I.permute[..c] + [I.permute[c]];
  }

  /** New roots for segment k insert nothing. */
  lemma SameInserted(table: seq<Segment>, before: seq<Segment>, after: seq<Segment>, k: int)
    requires UpToRoots(table, before) && |after| == |before| && 0 <= k < |before|
    requires after[k] == before[k].(root0 := after[k].root0, root1 := after[k].root1)
    requires forall i :: 0 <= i < |after| && i != k ==> after[i] == before[i]
    ensures UpToRoots(table, after)
  {
  }

  /** Valid trapezoids stay so, and the one split off is valid. */
  lemma ValidStays(Q: Query, H: History, R: Query, HR: History, t: int, p: Point, present: bool, k: int)
    requires PointInserted(Q, H, R, HR, t, p, present) && 0 < k < R.trIdx && Q.trIdx <= |Q.tr|
    requires if k < Q.trIdx then Q.tr[k].state == Trapezoids.Valid else k == Q.trIdx && !present
    ensures k < |R.tr| && R.tr[k].state == Trapezoids.Valid
  {
  }

  /** No segment flanks trapezoids before it is inserted. */
  lemma NewSegmentFlanksNone(Q: Query, seg: seq<Segment>, segnum: int, t: int)
    requires FlanksKnown(Q, seg, 0) && 0 < segnum < |seg| && !seg[segnum].isInserted
    requires 0 < t < Q.trIdx <= |Q.tr| && Q.tr[t].state == Trapezoids.Valid
    ensures UncutAt(Q, t, segnum)
  {
    assert Known(seg, 0, Q.tr[t].lseg) && Known(seg, 0, Q.tr[t].rseg);
  }

  /** The next of the ordering is not inserted yet, and what its insertion has to see to is
      known. */
  lemma NextIsNew(I: Input, seg: seq<Segment>, c: nat)
    requires UpToRoots(SegmentsAt(I, c), seg) && c < |I.permute| && IsOrdering(I.permute, I.n) && NeighboursOk(I.seg, I.n)
    ensures 1 <= I.permute[c] <= I.n < |seg| && !seg[I.permute[c]].isInserted
    ensures 0 <= seg[I.permute[c]].prev < |seg| && 0 <= seg[I.permute[c]].next < |seg|
    ensures EndsOf(seg) == EndsOf(I.seg) && JobOf(seg, I.permute[c]) == JobOf(SegmentsAt(I, c), I.permute[c])
  {
    assert I.permute[c] !in I.permute[..c];
    var table := SegmentsAt(I, c);
    assert seg[I.permute[c]] == table[I.permute[c]].(root0 := seg[I.permute[c]].root0, root1 := seg[I.permute[c]].root1);
    UpToRootsJob(table, seg, I.permute[c]);
    assert EndsOf(table) == EndsOf(I.seg);
  }

  /** Both end points were seen to, by way of stage P. */
  ghost predicate EndsSeenTo(S: Stage, P: Stage, R: Stage, root: int, ends: seq<Ends>, j: Job, tfirst: int, tlast: int) {
    var tu := Found(S, root, ends, j.hi, j.lo);
    && WellFormed(S.Q, S.H, root) && WellFormed(P.Q, P.H, root) && WellFormed(R.Q, R.H, root)
    && PointInserted(S.Q, S.H, P.Q, P.H, tu, j.hi, j.hiPresent) && tlast == Found(P, root, ends, j.lo, j.hi)
    && PointInserted(P.Q, P.H, R.Q, R.H, tlast, j.lo, j.loPresent) && tfirst == if j.hiPresent then tu else S.Q.trIdx
  }

  /** The trapezoids the segment runs from and to are valid ones. */
  lemma EndsAreThere(S: Stage, P: Stage, R: Stage, root: int, ends: seq<Ends>, j: Job, tfirst: int, tlast: int)
    requires EndsSeenTo(S, P, R, root, ends, j, tfirst, tlast)
    ensures 0 < tfirst < R.Q.trIdx <= |R.Q.tr| && R.Q.tr[tfirst].state == Trapezoids.Valid
    ensures 0 < tlast < R.Q.trIdx && R.Q.tr[tlast].state == Trapezoids.Valid
    ensures SearchesEnded(S, R, root, ends, j, Found(S, root, ends, j.hi, j.lo), tlast)
  {
    var tu := Found(S, root, ends, j.hi, j.lo);
    ValidStays(S.Q, S.H, P.Q, P.H, tu, j.hi, j.hiPresent, tfirst);
    ValidStays(P.Q, P.H, R.Q, R.H, tlast, j.lo, j.loPresent, tfirst);
    ValidStays(P.Q, P.H, R.Q, R.H, tlast, j.lo, j.loPresent, tlast);
    EndSearches(S, P, R, root, ends, j, tu, tlast);
  }

  /** Every search starts at the root to begin with. */
  method StartAtRoot(seg: array<Segment>, nseg: int, root: int)
    requires 0 <= nseg < seg.Length
    modifies seg
    ensures SameContours(old(seg[..]), seg[..])
    ensures forall j :: 0 <= j < seg.Length ==> seg[j].isInserted == old(seg[j].isInserted)
    ensures forall j :: 1 <= j <= nseg ==> seg[j].root0 == root && seg[j].root1 == root
    ensures forall j :: 0 <= j < seg.Length && !(1 <= j <= nseg) ==> seg[j] == old(seg[j])
  {
    var i := 1;
    while i <= nseg
      invariant 1 <= i <= nseg + 1
      invariant forall j :: 1 <= j < i ==> seg[j] == old(seg[j]).(root0 := root, root1 := root)
      invariant forall j :: 0 <= j < seg.Length && !(1 <= j < i) ==> seg[j] == old(seg[j])
    {
      seg[i] := seg[i].(root0 := root, root1 := root);
      i := i + 1;
    }
  }

  /** The tables for the first segment are what an insertion may start from. */
  lemma FirstStageIsGood(s: Segment, first: int, qsize: nat, trsize: nat, huge: real, seg: seq<Segment>, nseg: int)
    requires 8 <= qsize && 5 <= trsize && 1 <= first <= nseg < |seg| && seg[first].v0 == s.v0 && seg[first].v1 == s.v1
    requires forall i :: 1 <= i <= nseg ==> (seg[i].isInserted <==> i == first)
    requires forall i :: 1 <= i <= nseg ==> seg[i].root0 == ROOT && seg[i].root1 == ROOT
    ensures var st, ends := FirstStage(s, first, qsize, trsize, huge), EndsOf(seg);
            && CachesGood(st.Q, st.H, ROOT, st.H.clock, seg, nseg) && FlanksKnown(st.Q, seg, 0) && LinksInRange(st.Q)
            && Separated(st.Q, st.H, ROOT, ends, huge) && AllInstalled(st.Q, seg, nseg)
            && forall v, vo :: Locate(st.Q, st.H, ROOT, ends, ROOT, v, vo) == FirstPlace(s, v, vo)
  {
    var st, ends := FirstStage(s, first, qsize, trsize, huge), EndsOf(seg);
    var high, low := Highest(s.v0, s.v1), Lowest(s.v0, s.v1);
    assert IsInitial(st.Q, st.H, first, high, low, huge);
    InitialIsWellFormed(st.Q, st.H, first, high, low, huge);
    InitialSearches(st.Q, st.H, ends, s, first, high, low, huge);
    InitialIsSeparated(st.Q, st.H, ends, s, first, high, low, huge);
    InitialIsGood(st.Q, st.H, seg, nseg, first, high, low, huge);
    forall i | 1 <= i <= nseg && seg[i].isInserted ensures IsIn(st.Q, seg, nseg, i) { assert i == first; }
  }

  class Trapezoidation {
    const qs: array<Node>       // the query structure
    const tr: array<Trap>       // the trapezoid table
    const seg: array<Segment>   // the segment table
    const nseg: int
    var qIdx: int
    var trIdx: int
    ghost const root: int
    ghost const huge: real      // beyond all levels
    ghost var history: History

    /** The query structure for the first segment: its two levels and its two sides, with
        four trapezoids; every segment's cached roots start at the top. */
    constructor (seg: array<Segment>, nseg: int, first: int, qsize: nat, trsize: nat, huge: real)
      requires 1 <= first <= nseg < seg.Length && 8 <= qsize && 5 <= trsize
      requires forall i :: 1 <= i <= nseg ==> !seg[i].isInserted
      modifies seg
      ensures Valid() && this.seg == seg && this.nseg == nseg && root == ROOT && this.huge == huge
      ensures Now() == FirstStage(old(seg[first]), first, qsize, trsize, huge)
      ensures fresh(qs) && fresh(tr) && qs.Length == qsize && tr.Length == trsize
      ensures seg[first].isInserted && forall i :: 1 <= i <= nseg && i != first ==> !seg[i].isInserted
      ensures SameContours(old(seg[..]), seg[..])
      ensures forall j :: 0 <= j < seg.Length && !(1 <= j <= nseg) ==> seg[j] == old(seg[j])
      ensures forall v, vo :: Locate(State(), history, root, EndsOf(seg[..]), root, v, vo)
                           == FirstPlace(seg[first], v, vo)
    {
      this.seg, this.nseg, root, this.huge := seg, nseg, ROOT, huge;
      var s := seg[first];
      var high, low := Highest(s.v0, s.v1), Lowest(s.v0, s.v1);
      qs := new Node[qsize](k => InitialNode(k, first, high, low));
      tr := new Trap[trsize](k => InitialTrap(k, first, high, low, huge));
      qIdx, trIdx := 8, 5;
      history := FirstStage(s, first, qsize, trsize, huge).H;
      new;
      assert Now() == FirstStage(s, first, qsize, trsize, huge);
      seg[first] := seg[first].(isInserted := true);
      StartAtRoot(seg, nseg, ROOT);
      SameContoursKeep(old(seg[..]), seg[..], nseg);
      FirstStageIsGood(s, first, qsize, trsize, huge, seg[..], nseg);
    }

    function State(): Query
      reads this, qs, tr
    {
      Query(qs[..], tr[..], qIdx, trIdx)
    }

    ghost function Now(): Stage
      reads this, qs, tr
    {
      Stage(State(), history)
    }

    /** While an insertion that began at time `since` is under way. */
    ghost predicate Sound(since: int)
      reads this, qs, tr, seg
    {
      && CachesGood(State(), history, root, since, seg[..], nseg)
      && Separated(State(), history, root, EndsOf(seg[..]), huge) && AllInstalled(State(), seg[..], nseg)
    }

    /** In coordinates: every search ends in a trapezoid that lies around its point. */
    ghost predicate Surrounding()
      requires WellFormed(State(), history, root)
      reads this, qs, tr, seg
    {
      forall v, vo :: Surrounds(EndsOf(seg[..]), tr[Locate(State(), history, root, EndsOf(seg[..]), root, v, vo)], huge, v)
    }

    /** Between insertions. */
    ghost predicate Valid()
      reads this, qs, tr, seg
    {
      Sound(history.clock) && FlanksKnown(State(), seg[..], 0) && LinksInRange(State())
    }

    // ---------------------------------------------------------- splitting

    /** A sink becomes an inner node over two new sinks. */
    method SplitSink(sk: int, kind: NodeKind, segnum: int, yval: Point, t: int, tn: int) returns (i1: int, i2: int)
      requires kind == XNode || kind == YNode
      requires 0 < sk < qIdx && qIdx + 2 <= qs.Length
      modifies qs, `qIdx
      ensures i1 == old(qIdx) && i2 == i1 + 1 && qIdx == old(qIdx) + 2
      ensures qs[sk] == old(qs[sk]).(kind := kind, segnum := segnum, yval := yval,
                                     left := if kind == XNode then i1 else i2,
                                     right := if kind == XNode then i2 else i1)
      ensures qs[i1] == SinkFor(old(qs[i1]), t, sk) && qs[i2] == SinkFor(old(qs[i2]), tn, sk)
      ensures forall x :: 0 <= x < qs.Length && x != sk && x != i1 && x != i2 ==> qs[x] == old(qs[x])
      ensures qs[..] == SinkSplit(old(qs[..]), old(qIdx), sk, kind, segnum, yval, t, tn)
    {
      i1 := qIdx;
      i2 := qIdx + 1;
      qIdx := qIdx + 2;
      qs[sk] := qs[sk].(kind := kind, yval := yval, segnum := segnum);
      qs[sk] := qs[sk].(left := if kind == XNode then i1 else i2, right := if kind == XNode then i2 else i1);
      qs[i1] := qs[i1].(kind := Sink, trnum := t, parent := sk);
      qs[i2] := qs[i2].(kind := Sink, trnum := tn, parent := sk);
    }

    /** The trapezoid below keeps its upper neighbours, with tl in tu's place. */
    method Rehang(d: int, tu: int, tl: int)
      requires 0 < d ==> d < tr.Length
      modifies tr
      ensures forall k :: 0 <= k < tr.Length && (k != d || k <= 0) ==> tr[k] == old(tr[k])
      ensures 0 < d ==> tr[d] == old(tr[d]).(u0 := tr[d].u0, u1 := tr[d].u1)
      ensures 0 < d ==> tr[d].u0 == (if old(tr[d].u0) == tu then tl else old(tr[d].u0))
      ensures 0 < d ==> tr[d].u1 == (if old(tr[d].u1) == tu then tl else old(tr[d].u1))
      ensures tr[..] == Rehung(old(tr[..]), d, tu, tl)
    {
      if d > 0 {
        if tr[d].u0 == tu { tr[d] := tr[d].(u0 := tl); }
        if tr[d].u1 == tu { tr[d] := tr[d].(u1 := tl); }
      }
    }

    /** The rows of a split at point p: tu keeps the upper part, the lower one is new. */
    method SplitRow(tu: int, p: Point) returns (tl: int)
      requires 0 < tu < trIdx < tr.Length && tr[tu].state == Trapezoids.Valid && tr[tu].d0 < trIdx && tr[tu].d1 < trIdx
      modifies this`trIdx, tr
      ensures tl == old(trIdx) && trIdx == tl + 1
      ensures tr[tu].lo == p && tr[tl].hi == p && tr[tu].hi == old(tr[tu].hi) && tr[tl].lo == old(tr[tu].lo)
      ensures tr[tu].d0 == tl && tr[tu].d1 == 0
      ensures tr[tl].d0 == old(tr[tu].d0) && tr[tl].d1 == old(tr[tu].d1)
      ensures forall k :: 0 < k < tl ==> SameFlanks(tr[k], old(tr[k])) && (k != tu ==> SameButUp(tr[k], old(tr[k])))
      ensures SameFlanks(tr[tl], old(tr[tu]))
      ensures tr[..] == RowsOfSplit(old(tr[..]), tu, tl, p)
    {
      tl := trIdx;
      trIdx := trIdx + 1;
      PartRow(tu, tl, p);
      var d0, d1 := tr[tl].d0, tr[tl].d1;
      Rehang(d0, tu, tl);
      Rehang(d1, tu, tl);
    }

    /** The two rows of the split itself. */
    method PartRow(tu: int, tl: int, p: Point)
      requires 0 < tu < tl < tr.Length
      modifies tr
      ensures tr[tu] == old(tr[tu]).(lo := p, d0 := tl, d1 := 0) && tr[tl] == old(tr[tu]).(hi := p, u0 := tu, u1 := 0)
      ensures forall k :: 0 <= k < tr.Length && k != tu && k != tl ==> tr[k] == old(tr[k])
      ensures var rows, upper, lower := old(tr[..]), tr[tu], tr[tl];
              tr[..] == SetTrap(SetTrap(rows, tl, lower), tu, upper)
    {
      tr[tl] := tr[tu];
      tr[tu] := tr[tu].(lo := p);
      tr[tl] := tr[tl].(hi := p);
      tr[tu] := tr[tu].(d0 := tl, d1 := 0);
      tr[tl] := tr[tl].(u0 := tu, u1 := 0);
    }

    /** Split trapezoid tu at the level of point p. */
    method SplitAtPoint(tu: int, p: Point, segnum: int) returns (tl: int)
      requires WellFormed(State(), history, root) && qIdx + 2 <= qs.Length && trIdx < tr.Length
      requires 0 < tu < trIdx && tr[tu].state == Trapezoids.Valid && tr[tu].d0 < trIdx && tr[tu].d1 < trIdx
      modifies this`qIdx, this`trIdx, this`history, qs, tr
      ensures tl == old(trIdx) && Expanded(old(State()), State(), tu)
      ensures history == Tick(old(history), old(tr[tu].sink))
      ensures qs[old(tr[tu].sink)].kind == YNode && qs[old(tr[tu].sink)].yval == p
      ensures RowsSplit(old(State()), State(), tu, p)
      ensures State() == PointSplit(old(State()), tu, p, segnum)
    {
      assert TrapOk(State(), history, tu);
      tl := SplitRow(tu, p);
      var sk := tr[tu].sink;
      var i1, i2 := SplitSink(sk, YNode, segnum, p, tu, tl);
      tr[tu] := tr[tu].(sink := i1);
      tr[tl] := tr[tl].(sink := i2);
      history := Tick(history, sk);
    }

    /** Cut trapezoid t along the segment: t keeps the left part, the right one is new;
        then the neighbour links are brought up to date. */
    method CutAlong(t: int, segnum: int, links: seq<Links>) returns (tn: int)
      requires WellFormed(State(), history, root) && qIdx + 2 <= qs.Length && trIdx < tr.Length
      requires 0 < t < trIdx && tr[t].state == Trapezoids.Valid && |links| == trIdx + 1
      modifies this`qIdx, this`trIdx, this`history, qs, tr
      ensures tn == old(trIdx) && Expanded(old(State()), State(), t) && RowsCut(old(State()), State(), t, segnum)
      ensures history == Tick(old(history), old(tr[t].sink))
      ensures qs[old(tr[t].sink)].kind == XNode && qs[old(tr[t].sink)].segnum == segnum
      ensures Linked(tr[..], links) && State() == SegmentCut(old(State()), t, segnum, links)
    {
      assert TrapOk(State(), history, t);
      var sk := tr[t].sink;
      tn := trIdx;
      trIdx := trIdx + 1;
      var i1, i2 := SplitSink(sk, XNode, segnum, qs[sk].yval, t, tn);
      CutRows(t, tn, segnum, i1, i2);
      history := Tick(history, sk);
      Relink(links);
    }

    /** The rows of a cut, with their new sinks. */
    method CutRows(t: int, tn: int, segnum: int, i1: int, i2: int)
      requires 0 < t < tn < tr.Length
      modifies tr
      ensures tr[t] == old(tr[t]).(sink := i1, rseg := segnum) && tr[tn] == old(tr[t]).(sink := i2, lseg := segnum)
      ensures forall k :: 0 <= k < tr.Length && k != t && k != tn ==> tr[k] == old(tr[k])
      ensures var rows := old(tr[..]);
              tr[..] == SetTrap(SetTrap(rows, tn, rows[t].(sink := i2, lseg := segnum)), t,
                                rows[t].(sink := i1, rseg := segnum))
    {
      tr[tn] := tr[t];
      tr[t] := tr[t].(sink := i1);
      tr[tn] := tr[tn].(sink := i2);
      tr[t] := tr[t].(rseg := segnum);
      tr[tn] := tr[tn].(lseg := segnum);
    }

    /** The bookkeeping of neighbours, its outcome given. */
    method Relink(links: seq<Links>)
      requires |links| <= tr.Length
      modifies tr
      ensures Linked(tr[..], links) && tr[..] == Relinked(old(tr[..]), links)
      ensures forall k :: 0 <= k < tr.Length ==> SameButLinks(tr[k], old(tr[k]))
    {
      ghost var rows := tr[..];
      var k := 0;
      while k < |links|
        invariant 0 <= k <= |links| && Linked(tr[..], links[..k])
        invariant tr[..] == Relinked(rows, links[..k])
        invariant forall j :: 0 <= j < tr.Length ==> SameButLinks(tr[j], old(tr[j]))
      {
        tr[k] := tr[k].(u0 := links[k].u0, u1 := links[k].u1, d0 := links[k].d0, d1 := links[k].d1);
        k := k + 1;
      }
      assert links[..k] == links;
    }

    // ---------------------------------------------------------- locating an end point

    /** The end point v of a segment is looked up from its cached root r and, unless a
        neighbouring segment has it in the structure already, inserted. */
    method InsertPoint(segnum: int, v: Point, vo: Point, r: int, present: bool, ghost since: int)
      returns (tu: int, tl: int)
      requires Sound(since) && FlanksKnown(State(), seg[..], 0) && LinksInRange(State())
      requires InUse(State(), r) && (present || HasRoom(State(), 1))
      requires Locate(State(), history, root, EndsOf(seg[..]), r, v, vo)
            == Locate(State(), history, root, EndsOf(seg[..]), root, v, vo)
      modifies this`qIdx, this`trIdx, this`history, qs, tr
      ensures Sound(since) && FlanksKnown(State(), seg[..], 0) && LinksInRange(State())
      ensures tu == old(Locate(State(), history, root, EndsOf(seg[..]), root, v, vo))
      ensures PointInserted(old(State()), old(history), State(), history, tu, v, present)
      ensures tl == if present then tu else old(trIdx)
      ensures Now() == PutPoint(old(Now()), tu, v, segnum, present)
      ensures Kept(old(State()), State()) && (!present ==> Keyed(State(), v))
    {
      ghost var Q, H := State(), history;
      tu := Locate(State(), history, root, EndsOf(seg[..]), r, v, vo);
      assert TrapOk(Q, H, tu);
      tl := tu;
      if !present {
        tl := SplitAtPoint(tu, v, segnum);
        PointKeepsSound(Q, H, State(), root, tu, v, since, seg[..], nseg, huge);
      }
    }

    /** Whether the corresponding end point of the segment is in the structure: whether the
        segment that shares it is. */
    predicate Inserted(segnum: int, first: bool)
      requires 0 <= segnum < seg.Length && 0 <= seg[segnum].prev < seg.Length && 0 <= seg[segnum].next < seg.Length
      reads seg
    {
      if first then seg[seg[segnum].prev].isInserted else seg[seg[segnum].next].isInserted
    }

    /** First half of add_segment: see to both end points, the higher one first. The cached
        roots are used, and the outcome is that of searches from the root. */
    method InsertEndpoints(segnum: int)
      returns (tfirst: int, tlast: int, ghost mid: Stage)
      requires Valid() && 1 <= segnum <= nseg && !seg[segnum].isInserted
      requires 0 <= seg[segnum].prev < seg.Length && 0 <= seg[segnum].next < seg.Length
      requires HasRoom(State(), EndsNeeded(JobOf(seg[..], segnum)))
      modifies this`qIdx, this`trIdx, this`history, qs, tr
      ensures Sound(old(history.clock)) && FlanksKnown(State(), seg[..], 0) && LinksInRange(State())
      ensures Ended(Now(), tfirst, tlast) == WithEnds(old(Now()), root, EndsOf(seg[..]), segnum, JobOf(seg[..], segnum))
      ensures EndsSeenTo(old(Now()), mid, Now(), root, EndsOf(seg[..]), JobOf(seg[..], segnum), tfirst, tlast)
      ensures Joined(seg[..], nseg) ==> Keyed(State(), seg[segnum].v0) && Keyed(State(), seg[segnum].v1)
    {
      var s := seg[segnum];
      var isSwapped := false;
      if Above(s.v1, s.v0) {      // the higher end point goes first
        s := s.(v0 := s.v1, v1 := s.v0, root0 := s.root1, root1 := s.root0);
        isSwapped := true;
      }
      ghost var j := JobOf(seg[..], segnum);
      assert j == Job(s.v0, s.v1, Inserted(segnum, !isSwapped), Inserted(segnum, isSwapped));
      var tu, tl;
      tu, tfirst := InsertEnd(segnum, !isSwapped, s.v0, s.v1, s.root0, history.clock);
      mid := Now();
      tlast, tl := InsertEnd(segnum, isSwapped, s.v1, s.v0, s.root1, old(history.clock));
    }

    /** One of them: v0 if `first`. */
    method InsertEnd(segnum: int, first: bool, v: Point, vo: Point, r: int, ghost since: int) returns (tu: int, tl: int)
      requires Sound(since) && FlanksKnown(State(), seg[..], 0) && LinksInRange(State())
      requires 1 <= segnum <= nseg && !seg[segnum].isInserted
      requires 0 <= seg[segnum].prev < seg.Length && 0 <= seg[segnum].next < seg.Length
      requires var s := seg[segnum]; (v, vo, r) == if first then (s.v0, s.v1, s.root0) else (s.v1, s.v0, s.root1)
      requires Inserted(segnum, first) || HasRoom(State(), 1)
      modifies this`qIdx, this`trIdx, this`history, qs, tr
      ensures Sound(since) && FlanksKnown(State(), seg[..], 0) && LinksInRange(State())
      ensures tu == Found(old(Now()), root, EndsOf(seg[..]), v, vo)
      ensures PointInserted(old(State()), old(history), State(), history, tu, v, Inserted(segnum, first))
      ensures tl == if Inserted(segnum, first) then tu else old(trIdx)
      ensures Now() == PutPoint(old(Now()), tu, v, segnum, Inserted(segnum, first))
      ensures trIdx == old(trIdx) + (if Inserted(segnum, first) then 0 else 1)
      ensures qIdx == old(qIdx) + 2 * (if Inserted(segnum, first) then 0 else 1)
      ensures Kept(old(State()), State()) && (Joined(seg[..], nseg) ==> Keyed(State(), v))
    {
      if Inserted(segnum, first) && Joined(seg[..], nseg) {
        NeighbourIsKeyed(State(), seg[..], nseg, segnum, first);
      }
      CachedSearchIsPlainSearch(State(), history, root, since, seg[..], nseg, segnum);
      tu, tl := InsertPoint(segnum, v, vo, r, Inserted(segnum, first), since);
    }

    // ---------------------------------------------------------- merging

    /** The trapezoid below n, if any, gets t as upper neighbour instead. */
    method Reattach(d: int, n: int, t: int)
      requires 0 < d ==> d < tr.Length
      modifies tr
      ensures forall k :: 0 <= k < tr.Length && (k != d || k <= 0) ==> tr[k] == old(tr[k])
      ensures 0 < d ==> SameButUp(tr[d], old(tr[d]))
      ensures tr[..] == Reattached(old(tr[..]), d, n, t)
    {
      if d > 0 {
        if tr[d].u0 == n { tr[d] := tr[d].(u0 := t); } else if tr[d].u1 == n { tr[d] := tr[d].(u1 := t); }
      }
    }

    /** Whoever leads to n's sink leads to t's from now on. */
    method RedirectParent(t: int, n: int)
      requires 0 <= t < tr.Length && 0 <= n < tr.Length
      requires 0 <= tr[n].sink < qs.Length && 0 <= qs[tr[n].sink].parent < qs.Length
      modifies qs
      ensures var s := tr[n].sink;
              qs[..] == old(qs[..])[old(qs[s].parent) := Bypassed(old(qs[qs[s].parent]), s, tr[t].sink)]
    {
      var sink := tr[n].sink;
      var ptnext := qs[sink].parent;
      if qs[ptnext].left == sink {
        qs[ptnext] := qs[ptnext].(left := tr[t].sink);
      } else {
        qs[ptnext] := qs[ptnext].(right := tr[t].sink);
      }
    }

    /** The rows of a merge: t takes over n's lower end and lower neighbours. */
    method MergeRows(t: int, n: int)
      requires 0 < t < trIdx <= tr.Length && 0 < n < trIdx && t != n
      requires tr[n].d0 < trIdx && tr[n].d1 < trIdx
      modifies tr
      ensures tr[t].lo == old(tr[n].lo) && tr[t].d0 == old(tr[n].d0) && tr[t].d1 == old(tr[n].d1)
      ensures SameFlanks(tr[t], old(tr[t])) && tr[t].hi == old(tr[t].hi)
      ensures SameButUp(tr[n], old(tr[n]).(state := Invalid))
      ensures forall k :: 0 < k < trIdx && k != t && k != n ==> SameButUp(tr[k], old(tr[k]))
      ensures tr[..] == RowsOfMerge(old(tr[..]), t, n)
    {
      var d0, d1 := tr[n].d0, tr[n].d1;
      tr[t] := tr[t].(d0 := d0);
      Reattach(d0, n, t);
      tr[t] := tr[t].(d1 := d1);
      Reattach(d1, n, t);
      tr[t] := tr[t].(lo := tr[n].lo);
      tr[n] := tr[n].(state := Invalid);          // invalidate the lower
    }

    /** Merge trapezoid n into t, its upper neighbour. */
    method MergeInto(t: int, n: int)
      requires WellFormed(State(), history, root)
      requires 0 < t < trIdx && 0 < n < trIdx && t != n && SingleParent(State(), tr[n].sink)
      requires tr[t].state == Trapezoids.Valid && tr[n].state == Trapezoids.Valid
      requires tr[n].d0 < trIdx && tr[n].d1 < trIdx
      modifies qs, tr
      ensures Merged(old(State()), State(), t, n) && RowsMerged(old(State()), State(), t, n)
      ensures LinksInRange(old(State())) ==> LinksInRange(State())
      ensures State() == MergedInto(old(State()), t, n)
    {
      assert TrapOk(State(), history, t) && TrapOk(State(), history, n);
      RedirectParent(t, n);
      MergeRows(t, n);
    }

    /** Merge all trapezoids which flank the segment on one side, have been divided by it
        and are good neighbours. Every search ends up where its trapezoid went, and on the
        way down from tfirst, seen, no two good neighbours are left. */
    method MergeTrapezoids(segnum: int, tfirst: int, tlast: int, side: MergeSide, ghost since: int)
      returns (ghost into: seq<int>, ghost seen: seq<int>)
      requires Sound(since) && FlanksKnown(State(), seg[..], segnum) && LinksInRange(State())
      requires Descending(tr[..], trIdx) && NoneCarriesBoth(State(), segnum)
      requires AllFresh(State(), history, side, segnum, since) && tfirst < trIdx && 0 <= tlast < tr.Length
      modifies qs, tr
      ensures Sound(since) && FlanksKnown(State(), seg[..], segnum) && LinksInRange(State())
      ensures Descending(tr[..], trIdx) && NoneCarriesBoth(State(), segnum)
      ensures AllFresh(old(State()), history, Other(side), segnum, since)
          ==> AllFresh(State(), history, Other(side), segnum, since)
      ensures Absorbs(old(State()), State(), into, side, segnum)
      ensures WellFormed(old(State()), history, root)
           && SearchesFollow(old(State()), State(), history, root, EndsOf(seg[..]), into)
      ensures seen != [] && seen[0] == tfirst && TrailAt(State(), seen, side, segnum, seen[|seen| - 1])
      ensures var last := seen[|seen| - 1]; last <= 0 || !AboveOrSame(tr[last].lo, tr[tlast].lo)
      ensures State() == MergePass(old(State()), tfirst, tlast, side, segnum, Rounds(old(State())))
      ensures Kept(old(State()), State())
    {
      ghost var Q := State();
      MergeBegins(segnum, tfirst, tlast, side, since);
      ghost var goal, t, rounds := MergePass(Q, tfirst, tlast, side, segnum, Rounds(Q)), tfirst, 0;
      t, into, seen, rounds := MergeDown(Q, segnum, tfirst, tlast, side, since, seq(trIdx, k => k), Rounds(Q), goal);
      MergeEnds(Q, segnum, tfirst, tlast, t, side, since, into, seen, rounds, goal);
    }

    /** The loop of the pass. */
    method MergeDown(ghost Q: Query, segnum: int, tfirst: int, tlast: int, side: MergeSide, ghost since: int,
                     ghost into0: seq<int>, ghost most: nat, ghost goal: Query)
      returns (ghost t: int, ghost into: seq<int>, ghost seen: seq<int>, ghost rounds: nat)
      requires PassAtRow(Q, since, side, segnum, tfirst, tlast, tfirst, into0, [tfirst], most, goal)
      modifies qs, tr
      ensures PassAtRow(Q, since, side, segnum, tfirst, tlast, t, into, seen, rounds, goal)
      ensures t <= 0 || !AboveOrSame(tr[t].lo, tr[tlast].lo)
    {
      into, seen, rounds := into0, [tfirst], most;
      var row := tfirst;
      while row > 0 && AboveOrSame(tr[row].lo, tr[tlast].lo)
        invariant PassAtRow(Q, since, side, segnum, tfirst, tlast, row, into, seen, rounds, goal)
        decreases rounds
      {
        row, into, seen := MergeStep(Q, segnum, tfirst, tlast, row, side, since, into, seen, rounds, goal);
        rounds := rounds - 1;
      }
      t := row;
    }

    /** Where the loop stands, with that many rounds to go at most. */
    ghost predicate PassAtRow(Q: Query, since: int, side: MergeSide, segnum: int, tfirst: int, tlast: int, t: int,
                              into: seq<int>, seen: seq<int>, rounds: nat, goal: Query)
      reads this, qs, tr, seg
    {
      && t < trIdx <= tr.Length && 0 <= tlast < tr.Length
      && MergingAt(Q, since, side, segnum, t, into, seen) && seen != [] && seen[0] == tfirst
      && goal == MergePass(State(), t, tlast, side, segnum, rounds)
      && (t > 0 ==> rounds > |Below(tr[..], trIdx, tr[t].lo)|)
    }

    method MergeStep(ghost Q: Query, segnum: int, ghost tfirst: int, tlast: int, t0: int, side: MergeSide,
                     ghost since: int, ghost into: seq<int>, ghost seen: seq<int>, ghost rounds: nat, ghost goal: Query)
      returns (t: int, ghost more: seq<int>, ghost trail: seq<int>)
      requires PassAtRow(Q, since, side, segnum, tfirst, tlast, t0, into, seen, rounds, goal)
      requires t0 > 0 && AboveOrSame(tr[t0].lo, tr[tlast].lo)
      modifies qs, tr
      ensures rounds > 0 && PassAtRow(Q, since, side, segnum, tfirst, tlast, t, more, trail, rounds - 1, goal)
    {
      MergePassStep(State(), t0, tlast, side, segnum, rounds);
      t, more, trail := MergeRound(Q, t0, side, segnum, since, into, seen);
    }

    lemma MergeBegins(segnum: int, tfirst: int, tlast: int, side: MergeSide, since: int)
      requires Sound(since) && FlanksKnown(State(), seg[..], segnum) && LinksInRange(State())
      requires Descending(tr[..], trIdx) && NoneCarriesBoth(State(), segnum)
      requires AllFresh(State(), history, side, segnum, since) && tfirst < trIdx && 0 <= tlast < tr.Length
      ensures var Q := State();
              PassAtRow(Q, since, side, segnum, tfirst, tlast, tfirst, seq(Q.trIdx, k => k), [tfirst], Rounds(Q),
                        MergePass(Q, tfirst, tlast, side, segnum, Rounds(Q)))
    {
      PassBegins(State(), history, root, EndsOf(seg[..]), since, side, segnum, tfirst);
      BelowIsBounded(tr[..], trIdx, TrapAt(tr[..], tfirst).lo);
    }

    lemma MergeEnds(Q: Query, segnum: int, tfirst: int, tlast: int, t: int, side: MergeSide, since: int,
                    into: seq<int>, seen: seq<int>, rounds: nat, goal: Query)
      requires PassAtRow(Q, since, side, segnum, tfirst, tlast, t, into, seen, rounds, goal)
      requires t <= 0 || !AboveOrSame(TrapAt(tr[..], t).lo, TrapAt(tr[..], tlast).lo)
      ensures Sound(since) && FlanksKnown(State(), seg[..], segnum) && LinksInRange(State())
      ensures Descending(tr[..], trIdx) && NoneCarriesBoth(State(), segnum)
      ensures AllFresh(Q, history, Other(side), segnum, since) ==> AllFresh(State(), history, Other(side), segnum, since)
      ensures Absorbs(Q, State(), into, side, segnum)
      ensures WellFormed(Q, history, root) && SearchesFollow(Q, State(), history, root, EndsOf(seg[..]), into)
      ensures seen != [] && seen[0] == tfirst && seen[|seen| - 1] == t && TrailAt(State(), seen, side, segnum, t)
      ensures State() == goal
      ensures Kept(Q, State())
    {
      MergePassEnd(State(), t, tlast, side, segnum, rounds);
    }

    /** Where a merge pass that began in Q stands at trapezoid t. */
    ghost predicate MergingAt(Q: Query, since: int, side: MergeSide, segnum: int, t: int, into: seq<int>, seen: seq<int>)
      reads this, qs, tr, seg
    {
      && Sound(since) && FlanksKnown(State(), seg[..], segnum) && LinksInRange(State())
      && PassAt(Q, State(), history, root, EndsOf(seg[..]), since, side, segnum, t, into)
      && TrailAt(State(), seen, side, segnum, t) && Kept(Q, State())
    }

    /** One round: the trapezoid below t is merged into t, or is next. */
    method MergeRound(ghost Q: Query, t0: int, side: MergeSide, segnum: int, ghost since: int, ghost into: seq<int>,
                      ghost seen: seq<int>)
      returns (t: int, ghost more: seq<int>, ghost trail: seq<int>)
      requires t0 > 0 && MergingAt(Q, since, side, segnum, t0, into, seen)
      modifies qs, tr
      ensures MergingAt(Q, since, side, segnum, t, more, trail) && t < trIdx && trail[0] == seen[0]
      ensures if Mergeable(old(tr[..]), t0, side, segnum)
              then t == t0 && State() == MergedInto(old(State()), t, NextDown(old(tr[..]), t, side, segnum))
              else t == NextDown(old(tr[..]), t0, side, segnum) && State() == old(State())
      ensures t > 0 ==> |Below(tr[..], trIdx, tr[t].lo)| < old(|Below(tr[..], trIdx, tr[t0].lo)|)
    {
      t, more, trail := t0, into, seen;
      assert DownAt(tr[..], trIdx, t);
      var tnext := tr[t].d0;
      var cond := tnext > 0 && Carries(tr[tnext], side, segnum);
      if !cond {
        tnext := tr[t].d1;
        cond := tnext > 0 && Carries(tr[tnext], side, segnum);
      }
      if cond && tr[t].lseg == tr[tnext].lseg && tr[t].rseg == tr[tnext].rseg {
        ghost var R := State();
      more := MergeGood(Q, t, tnext, side, segnum, since, into, seen);
      KeptTwice(Q, R, State());
      } else {
        PassMoves(Q, State(), history, root, EndsOf(seg[..]), since, side, segnum, t, into, tnext);
        TrailGoesOn(State(), seen, side, segnum, t);
        trail := seen + [tnext];
        t := tnext;
      }
    }

    /** One merge of good neighbours within a pass. */
    method MergeGood(ghost Q: Query, t: int, n: int, side: MergeSide, segnum: int, ghost since: int,
                     ghost into: seq<int>, ghost seen: seq<int>)
      returns (ghost more: seq<int>)
      requires Sound(since) && FlanksKnown(State(), seg[..], segnum) && LinksInRange(State())
      requires PassAt(Q, State(), history, root, EndsOf(seg[..]), since, side, segnum, t, into) && 0 < t
      requires 0 < n < trIdx && (n == tr[t].d0 || n == tr[t].d1) && Carries(tr[n], side, segnum)
      requires tr[t].lseg == tr[n].lseg && tr[t].rseg == tr[n].rseg && TrailAt(State(), seen, side, segnum, t)
      modifies qs, tr
      ensures Sound(since) && FlanksKnown(State(), seg[..], segnum) && LinksInRange(State())
      ensures PassAt(Q, State(), history, root, EndsOf(seg[..]), since, side, segnum, t, more)
      ensures TrailAt(State(), seen, side, segnum, t) && State() == MergedInto(old(State()), t, n)
      ensures Kept(old(State()), State())
      ensures |Below(tr[..], trIdx, tr[t].lo)| < old(|Below(tr[..], trIdx, tr[t].lo)|)
    {
      ghost var R, ends := State(), EndsOf(seg[..]);
      PassMayMerge(Q, R, history, root, ends, since, side, segnum, t, into, n);
      MergeInto(t, n);
      MergeKeepsSound(R, State(), history, root, t, n, since, seg[..], nseg, huge);
      PassMerges(Q, R, State(), history, root, ends, since, side, segnum, t, into, n);
      TrailSurvives(R, State(), seen, side, segnum, t, n);
      more := AbsorbOne(into, t, n);
    }

    // ---------------------------------------------------------- threading a segment

    method CutOne(t: int, segnum: int, links: seq<Links>, ghost since: int)
      requires Sound(since) && FlanksKnown(State(), seg[..], segnum)
      requires UncutAt(State(), t, segnum) && |links| == trIdx + 1 && HasRoom(State(), 1)
      modifies this`qIdx, this`trIdx, this`history, qs, tr
      ensures Sound(since) && FlanksKnown(State(), seg[..], segnum) && Linked(tr[..], links)
      ensures Expanded(old(State()), State(), t) && RowsCut(old(State()), State(), t, segnum)
      ensures qs[old(tr[t].sink)].kind == XNode && qs[old(tr[t].sink)].segnum == segnum
      ensures Kept(old(State()), State())
      ensures Installed(State(), segnum) && history == Tick(old(history), old(tr[t].sink))
      ensures Now() == CutStage(old(Now()), t, segnum, links)
    {
      ghost var R, HR := State(), history;
      var tn := CutAlong(t, segnum, links);
      CutKeepsSound(R, HR, State(), root, t, segnum, since, seg[..], nseg, huge);
      CutKeepsKnown(R, State(), t, segnum, seg[..]);
    }

    /** The k-th trapezoid on the way. */
    method CutNext(segnum: int, walk: seq<int>, links: seq<Links>, k: nat, ghost since: int, ghost Q: Query,
                   ghost H: History)
      requires Sound(since) && FlanksKnown(State(), seg[..], segnum) && k < |walk| && |links| == trIdx + 1
      requires CutSoFar(Q, H, State(), history, root, EndsOf(seg[..]), segnum, walk, k, since) && HasRoom(State(), 1)
      modifies this`qIdx, this`trIdx, this`history, qs, tr
      ensures Sound(since) && FlanksKnown(State(), seg[..], segnum) && Linked(tr[..], links)
      ensures CutSoFar(Q, H, State(), history, root, EndsOf(seg[..]), segnum, walk, k + 1, since)
      ensures qIdx == old(qIdx) + 2 && trIdx == old(trIdx) + 1
      ensures Kept(old(State()), State())
      ensures Installed(State(), segnum) && Now() == CutStage(old(Now()), walk[k], segnum, links)
    {
      ghost var R, HR := State(), history;
      assert UncutAt(R, walk[k], segnum);
      CutOne(walk[k], segnum, links, since);
      CutSoFarStep(Q, H, R, HR, State(), root, EndsOf(seg[..]), segnum, walk, k, since);
    }

    /** The first loop of add_segment's second half: cut every trapezoid on the way. After it
        the links lead down, and nothing is in the way of merging. */
    method CutWalk(segnum: int, walk: seq<int>, links: seq<seq<Links>>, tfirst: int, tlast: int, ghost since: int)
      returns (tfirstr: int, tlastr: int)
      requires Sound(since) && FlanksKnown(State(), seg[..], 0)
      requires 1 <= segnum <= nseg && !seg[segnum].isInserted && 0 < tlast < trIdx
      requires walk != [] && walk[0] == tfirst && Uncut(State(), walk, 0, segnum) && Distinct(walk)
      requires |links| == |walk| && forall k :: 0 <= k < |walk| ==> |links[k]| == trIdx + k + 1
      requires LinksLeadDown(links[|walk| - 1], Spans(State(), walk)) && HasRoom(State(), |walk|)
      modifies this`qIdx, this`trIdx, this`history, qs, tr
      ensures Sound(since) && FlanksKnown(State(), seg[..], segnum) && LinksInRange(State())
      ensures Descending(tr[..], trIdx) && NoneCarriesBoth(State(), segnum)
      ensures AllFresh(State(), history, OnLeft, segnum, since) && AllFresh(State(), history, OnRight, segnum, since)
      ensures trIdx == old(trIdx) + |walk| && Installed(State(), segnum) && Kept(old(State()), State())
      ensures tfirstr == old(trIdx) && 0 <= tlastr < trIdx && tlastr == RightOfLast(old(State()), walk, tlast, |walk|)
      ensures WellFormed(old(State()), old(history), root)
           && SearchesCut(old(State()), old(history), State(), history, root, EndsOf(seg[..]), segnum, walk)
      ensures Now() == CutUpTo(old(Now()), segnum, walk, links, |walk|)
    {
      ghost var S := Now();
      WalkBegins(segnum, walk, links, tfirst, tlast, since);
      tfirstr, tlastr := CutAll(segnum, walk, links, tfirst, tlast, since, S);
      WalkEnds(S, segnum, walk, links, tfirst, tlast, since, tfirstr, tlastr);
    }

    method CutAll(segnum: int, walk: seq<int>, links: seq<seq<Links>>, tfirst: int, tlast: int, ghost since: int,
                  ghost S: Stage)
      returns (tfirstr: int, tlastr: int)
      requires WalkAt(S, segnum, walk, links, tfirst, tlast, 0, since, 0, 0) && HasRoom(State(), |walk|)
      requires |links| == |walk| && forall k :: 0 <= k < |walk| ==> |links[k]| == trIdx + k + 1
      modifies this`qIdx, this`trIdx, this`history, qs, tr
      ensures WalkAt(S, segnum, walk, links, tfirst, tlast, |walk|, since, tfirstr, tlastr)
    {
      tfirstr, tlastr := 0, 0;
      var k := 0;
      while k < |walk|
        invariant k <= |walk| && WalkAt(S, segnum, walk, links, tfirst, tlast, k, since, tfirstr, tlastr)
        invariant qIdx == old(qIdx) + 2 * k && trIdx == old(trIdx) + k
      {
        tfirstr, tlastr := CutRound(segnum, walk, links, tfirst, tlast, k, since, S, tfirstr, tlastr);
        k := k + 1;
      }
    }

    lemma WalkBegins(segnum: int, walk: seq<int>, links: seq<seq<Links>>, tfirst: int, tlast: int, since: int)
      requires Sound(since) && FlanksKnown(State(), seg[..], 0)
      requires 1 <= segnum <= nseg && !seg[segnum].isInserted && 0 < tlast < trIdx
      requires Uncut(State(), walk, 0, segnum) && Distinct(walk) && |links| == |walk|
      ensures WalkAt(Now(), segnum, walk, links, tfirst, tlast, 0, since, 0, 0)
    {
      NothingFlankedYet(State(), history, seg[..], segnum, since);
      FlanksStayKnown(State(), seg[..], segnum);
    }

    lemma WalkEnds(S: Stage, segnum: int, walk: seq<int>, links: seq<seq<Links>>, tfirst: int, tlast: int, since: int,
                   tfirstr: int, tlastr: int)
      requires walk != [] && WalkAt(S, segnum, walk, links, tfirst, tlast, |walk|, since, tfirstr, tlastr)
      requires |links| == |walk| && |links[|walk| - 1]| == trIdx && LinksLeadDown(links[|walk| - 1], Spans(S.Q, walk))
      ensures WellFormed(S.Q, S.H, root) && WellFormed(State(), history, root)
           && SearchesCut(S.Q, S.H, State(), history, root, EndsOf(seg[..]), segnum, walk)
      ensures AllFresh(State(), history, OnLeft, segnum, since) && AllFresh(State(), history, OnRight, segnum, since)
      ensures NoneCarriesBoth(State(), segnum) && trIdx == S.Q.trIdx + |walk|
      ensures Descending(tr[..], trIdx) && LinksInRange(State())
    {
      assert walk[..|walk|] == walk;
      LinkedDescends(State(), links[|walk| - 1], Spans(S.Q, walk));
    }

    /** Where the loop that began at S stands when the first k trapezoids are cut. */
    ghost predicate WalkAt(S: Stage, segnum: int, walk: seq<int>, links: seq<seq<Links>>, tfirst: int, tlast: int,
                           k: nat, since: int, tfirstr: int, tlastr: int)
      requires k <= |walk|
      reads this, qs, tr, seg
    {
      && |links| == |walk| && 0 < tlast < S.Q.trIdx && Sound(since) && FlanksKnown(State(), seg[..], segnum)
      && CutSoFar(S.Q, S.H, State(), history, root, EndsOf(seg[..]), segnum, walk, k, since)
      && qIdx == S.Q.qIdx + 2 * k && (0 < k ==> Linked(tr[..], links[k - 1]) && Installed(State(), segnum))
      && Kept(S.Q, State())
      && tfirstr < trIdx && 0 <= tlastr < trIdx && (0 < k && walk[0] == tfirst ==> tfirstr == S.Q.trIdx)
      && tlastr == RightOfLast(S.Q, walk, tlast, k) && Now() == CutUpTo(S, segnum, walk, links, k)
    }

    method CutRound(segnum: int, walk: seq<int>, links: seq<seq<Links>>, tfirst: int, tlast: int, k: nat,
                    ghost since: int, ghost S: Stage, tfirstr0: int, tlastr0: int)
      returns (tfirstr: int, tlastr: int)
      requires k < |walk| && WalkAt(S, segnum, walk, links, tfirst, tlast, k, since, tfirstr0, tlastr0)
      requires |links[k]| == trIdx + 1 && HasRoom(State(), 1)
      modifies this`qIdx, this`trIdx, this`history, qs, tr
      ensures WalkAt(S, segnum, walk, links, tfirst, tlast, k + 1, since, tfirstr, tlastr)
      ensures qIdx == old(qIdx) + 2 && trIdx == old(trIdx) + 1
    {
      var t := walk[k];
      RoundRows(segnum, walk, links, tfirst, tlast, k, since, S, tfirstr0, tlastr0);
      tfirstr := if t == tfirst then trIdx else tfirstr0;
      tlastr := if SamePoint(tr[t].lo, tr[tlast].lo) then trIdx else tlastr0;
      ghost var R := State();
      CutNext(segnum, walk, links[k], k, since, S.Q, S.H);
      KeptTwice(S.Q, R, State());
    }

    /** The right parts of the first and of the last trapezoid, as the round notes them. */
    lemma RoundRows(segnum: int, walk: seq<int>, links: seq<seq<Links>>, tfirst: int, tlast: int, k: nat,
                    since: int, S: Stage, tfirstr0: int, tlastr0: int)
      requires k < |walk| && WalkAt(S, segnum, walk, links, tfirst, tlast, k, since, tfirstr0, tlastr0)
      ensures 0 < walk[k] < trIdx <= tr.Length && 0 < tlast < trIdx && trIdx == S.Q.trIdx + k
      ensures walk[0] == tfirst ==> (if walk[k] == tfirst then trIdx else tfirstr0) == S.Q.trIdx
      ensures (if SamePoint(tr[walk[k]].lo, tr[tlast].lo) then trIdx else tlastr0) == RightOfLast(S.Q, walk, tlast, k + 1)
    {
      assert UncutAt(S.Q, walk[k], segnum) && Distinct(walk);
    }

    /** Second half of add_segment: cut the trapezoids the segment runs through, then merge
        on either side. A search now ends in the part its old trapezoid's cut put it in, or
        in what that part was merged into. */
    method ThreadSegment(segnum: int, walk: seq<int>, links: seq<seq<Links>>, tfirst: int, tlast: int,
                         ghost since: int)
      returns (ghost into: seq<int>)
      requires Sound(since) && FlanksKnown(State(), seg[..], 0)
      requires 1 <= segnum <= nseg && !seg[segnum].isInserted && 0 < tfirst < trIdx && 0 < tlast < trIdx
      requires walk != [] && walk[0] == tfirst && Uncut(State(), walk, 0, segnum) && Distinct(walk)
      requires |links| == |walk| && forall k :: 0 <= k < |walk| ==> |links[k]| == trIdx + k + 1
      requires LinksLeadDown(links[|walk| - 1], Spans(State(), walk))
      requires HasRoom(State(), |walk|)
      requires Joined(seg[..], nseg) ==> Keyed(State(), seg[segnum].v0) && Keyed(State(), seg[segnum].v1)
      modifies this`qIdx, this`trIdx, this`history, qs, tr, seg
      ensures Valid() && trIdx == old(trIdx) + |walk| && EndsOf(seg[..]) == old(EndsOf(seg[..]))
      ensures seg[..] == old(seg[..])[segnum := old(seg[segnum]).(isInserted := true)]
      ensures WellFormed(old(State()), old(history), root) && |into| == trIdx
           && SearchesThreaded(old(State()), old(history), State(), history, root, EndsOf(seg[..]), segnum, walk, into)
      ensures MergedAlong(State(), into, segnum)
      ensures Now() == ThreadStage(old(Now()), segnum, Route(walk, links), tfirst, tlast)
    {
      into := CutAndMerge(segnum, walk, links, tfirst, tlast, since);
      FinishSegment(segnum, since);
    }

    /** The tables' share of it. */
    method CutAndMerge(segnum: int, walk: seq<int>, links: seq<seq<Links>>, tfirst: int, tlast: int, ghost since: int)
      returns (ghost into: seq<int>)
      requires Sound(since) && FlanksKnown(State(), seg[..], 0)
      requires 1 <= segnum <= nseg && !seg[segnum].isInserted && 0 < tfirst < trIdx && 0 < tlast < trIdx
      requires walk != [] && walk[0] == tfirst && Uncut(State(), walk, 0, segnum) && Distinct(walk)
      requires |links| == |walk| && forall k :: 0 <= k < |walk| ==> |links[k]| == trIdx + k + 1
      requires LinksLeadDown(links[|walk| - 1], Spans(State(), walk)) && HasRoom(State(), |walk|)
      modifies this`qIdx, this`trIdx, this`history, qs, tr
      ensures Sound(since) && FlanksKnown(State(), seg[..], segnum) && LinksInRange(State())
      ensures trIdx == old(trIdx) + |walk| && Installed(State(), segnum) && Kept(old(State()), State())
      ensures WellFormed(old(State()), old(history), root) && |into| == trIdx
           && SearchesThreaded(old(State()), old(history), State(), history, root, EndsOf(seg[..]), segnum, walk, into)
      ensures MergedAlong(State(), into, segnum)
      ensures Now() == ThreadStage(old(Now()), segnum, Route(walk, links), tfirst, tlast)
    {
      ghost var S := Now();
      var tfirstr, tlastr := CutWalk(segnum, walk, links, tfirst, tlast, since);
      ghost var R := State();
      into := MergeBothSides(segnum, tfirst, tlast, tfirstr, tlastr, since);
      KeptTwice(S.Q, R, State());
      ThreadedSearches(S.Q, S.H, R, State(), history, root, EndsOf(seg[..]), segnum, walk, into);
    }

    method MergeBothSides(segnum: int, tfirst: int, tlast: int, tfirstr: int, tlastr: int, ghost since: int)
      returns (ghost into: seq<int>)
      requires Sound(since) && FlanksKnown(State(), seg[..], segnum) && LinksInRange(State())
      requires Descending(tr[..], trIdx) && NoneCarriesBoth(State(), segnum)
      requires AllFresh(State(), history, OnLeft, segnum, since) && AllFresh(State(), history, OnRight, segnum, since)
      requires tfirst < trIdx && 0 <= tlast < tr.Length && tfirstr < trIdx && 0 <= tlastr < tr.Length
      modifies qs, tr
      ensures Sound(since) && FlanksKnown(State(), seg[..], segnum) && LinksInRange(State())
      ensures WellFormed(old(State()), history, root) && |into| == trIdx
           && SearchesFollow(old(State()), State(), history, root, EndsOf(seg[..]), into)
      ensures MergedAlong(State(), into, segnum)
      ensures Kept(old(State()), State())
      ensures var left := MergePass(old(State()), tfirst, tlast, OnLeft, segnum, Rounds(old(State())));
              State() == MergePass(left, tfirstr, tlastr, OnRight, segnum, Rounds(left))
    {
      ghost var R := State();
      ghost var left, seenL := MergeTrapezoids(segnum, tfirst, tlast, OnLeft, since);
      ghost var S := State();
      ghost var right, seenR := MergeTrapezoids(segnum, tfirstr, tlastr, OnRight, since);
      KeptTwice(R, S, State());
      into := FollowTwice(R, S, State(), history, root, EndsOf(seg[..]), segnum, left, right);
    }

    /** The segment counts as inserted from now on. */
    method FinishSegment(segnum: int, ghost since: int)
      requires Sound(since) && FlanksKnown(State(), seg[..], segnum) && LinksInRange(State())
      requires 1 <= segnum <= nseg < seg.Length && IsIn(State(), seg[..], nseg, segnum)
      modifies seg
      ensures Valid() && EndsOf(seg[..]) == old(EndsOf(seg[..]))
      ensures seg[..] == old(seg[..])[segnum := old(seg[segnum]).(isInserted := true)]
    {
      ghost var before := seg[..];
      seg[segnum] := seg[segnum].(isInserted := true);
      CachesGoodLater(State(), history, root, since, before, nseg, seg[..]);
      assert EndsOf(seg[..]) == EndsOf(before);
      OneMoreInstalled(State(), before, seg[..], nseg, segnum);
    }

    // ---------------------------------------------------------- cached roots

    /** Both cached roots of the segment are moved on from where they stand: each becomes
        the sink a search from the top would find. */
    method FindNewRoots(segnum: int)
      requires Valid() && 1 <= segnum <= nseg
      modifies seg
      ensures Valid() && EndsOf(seg[..]) == old(EndsOf(seg[..]))
      ensures forall i :: 0 <= i < seg.Length && (i != segnum || old(seg[i].isInserted)) ==> seg[i] == old(seg[i])
      ensures var s, ends := seg[segnum], EndsOf(seg[..]);
              old(seg[segnum]).isInserted
              || s == old(seg[segnum]).(
                   root0 := tr[Locate(State(), history, root, ends, root, s.v0, s.v1)].sink,
                   root1 := tr[Locate(State(), history, root, ends, root, s.v1, s.v0)].sink)
    {
      if seg[segnum].isInserted { return; }
      ghost var before, ends := seg[..], EndsOf(seg[..]);
      var s := seg[segnum];
      CachedSearchIsPlainSearch(State(), history, root, history.clock, seg[..], nseg, segnum);
      var t0 := Locate(State(), history, root, EndsOf(seg[..]), s.root0, s.v0, s.v1);
      var t1 := Locate(State(), history, root, EndsOf(seg[..]), s.root1, s.v1, s.v0);
      FoundSinkIsPassed(State(), history, root, ends, root, s.v0, s.v1);
      FoundSinkIsPassed(State(), history, root, ends, root, s.v1, s.v0);
      seg[segnum] := s.(root0 := tr[t0].sink, root1 := tr[t1].sink);
      assert EndsOf(seg[..]) == ends;
      NewRootsAreGood(State(), history, root, before, seg[..], nseg, segnum);
      SameContoursInstalled(State(), before, seg[..], nseg);
    }

    // ---------------------------------------------------------- whole runs

    /** The end points of a segment, put in where they were missing: the segment runs from
        tfirst to tlast, neither of which it flanks yet. */
    method EndTrapezoids(segnum: int) returns (tfirst: int, tlast: int)
      requires Valid() && 1 <= segnum <= nseg && !seg[segnum].isInserted
      requires 0 <= seg[segnum].prev < seg.Length && 0 <= seg[segnum].next < seg.Length
      requires HasRoom(State(), EndsNeeded(JobOf(seg[..], segnum)))
      modifies this`qIdx, this`trIdx, this`history, qs, tr
      ensures Sound(old(history.clock)) && FlanksKnown(State(), seg[..], 0)
      ensures UncutAt(State(), tfirst, segnum) && UncutAt(State(), tlast, segnum)
      ensures Joined(seg[..], nseg) ==> Keyed(State(), seg[segnum].v0) && Keyed(State(), seg[segnum].v1)
      ensures var j, ends := JobOf(seg[..], segnum), EndsOf(seg[..]);
              && Ended(Now(), tfirst, tlast) == WithEnds(old(Now()), root, ends, segnum, j)
              && SearchesEnded(old(Now()), Now(), root, ends, j, Found(old(Now()), root, ends, j.hi, j.lo), tlast)
    {
      ghost var S := Now();
      ghost var mid;
      tfirst, tlast, mid := InsertEndpoints(segnum);
      EndsAreThere(S, mid, Now(), root, EndsOf(seg[..]), JobOf(seg[..], segnum), tfirst, tlast);
      NewSegmentFlanksNone(State(), seg[..], segnum, tfirst);
      NewSegmentFlanksNone(State(), seg[..], segnum, tlast);
    }

    /** Add segment number segnum: both end points, then the segment itself. It is refused
        if and only if a table has no room for the splits of this. */
    method AddSegment(segnum: int, route: Router) returns (ok: bool, ghost into: seq<int>)
      requires Valid() && 1 <= segnum <= nseg && !seg[segnum].isInserted && GoodRouter(route)
      requires 0 <= seg[segnum].prev < seg.Length && 0 <= seg[segnum].next < seg.Length
      modifies this`qIdx, this`trIdx, this`history, qs, tr, seg
      ensures ok <==> RoomFor(old(Now()), root, old(EndsOf(seg[..])), segnum, old(JobOf(seg[..], segnum)), route)
      ensures ok ==> Valid() && seg[..] == old(seg[..])[segnum := old(seg[segnum]).(isInserted := true)]
      ensures ok ==> Now() == Added(old(Now()), root, old(EndsOf(seg[..])), segnum, old(JobOf(seg[..], segnum)), route)
      ensures ok ==> var S, ends, j := old(Now()), EndsOf(seg[..]), old(JobOf(seg[..], segnum));
                     var e := WithEnds(S, root, ends, segnum, j);
                     SearchesAdded(S, Now(), root, ends, segnum, j, Found(S, root, ends, j.hi, j.lo), e.tlast,
                                   RouteOf(e, segnum, route).walk, into)
    {
      var j := JobOf(seg[..], segnum);
      if !HasRoom(State(), EndsNeeded(j)) { return false, []; }
      ghost var S, since, ends := Now(), history.clock, EndsOf(seg[..]);
      var tfirst, tlast := EndTrapezoids(segnum);
      ghost var R := Now();
      var r := route(State(), segnum, tfirst, tlast);
      if !HasRoom(State(), |r.walk|) { return false, []; }
      into := ThreadSegment(segnum, r.walk, r.links, tfirst, tlast, since);
      ok := true;
      AddedSearches(S, R, Now(), root, ends, segnum, j, Found(S, root, ends, j.hi, j.lo), tlast, r.walk, into);
    }

    /** c segments of the run are in. */
    ghost predicate Reached(r: Run, c: nat)
      reads this, qs, tr, seg
    {
      && Valid() && root == ROOT && 1 <= nseg == r.I.n && 1 <= c <= nseg && IsOrdering(r.I.permute, nseg)
      && NeighboursOk(r.I.seg, nseg) && UpToRoots(SegmentsAt(r.I, c), seg[..])
      && |r.stage| == |r.room| == nseg + 1 && Now() == r.stage[c]
    }

    /** Add the next segment of the ordering. */
    method AddNext(ghost r: Run, ghost c: nat, segnum: int, route: Router) returns (ok: bool)
      requires IsRun(r) && Reached(r, c) && c < nseg
      requires GoodRouter(route) && route == r.I.route && segnum == NumberAt(r.I, c)
      modifies this`qIdx, this`trIdx, this`history, qs, tr, seg
      ensures ok <==> r.room[c]
      ensures ok ==> Reached(r, c + 1)
    {
      ghost var before := seg[..];
      ghost var into;
      NextIsNew(r.I, before, c);
      RunGoesOn(r, c);
      ok, into := AddSegment(segnum, route);
      if ok { OneMoreInserted(r.I, before, seg[..], c); }
    }

    /** Add segments number c + 1 to m of the ordering. */
    method AddUpTo(ghost r: Run, permute: seq<int>, c: nat, m: int, route: Router) returns (ok: bool)
      requires IsRun(r) && Reached(r, c) && c <= m <= nseg
      requires GoodRouter(route) && route == r.I.route && permute == r.I.permute
      modifies this`qIdx, this`trIdx, this`history, qs, tr, seg
      ensures ok <==> AllTrue(r.room, c, m)
      ensures ok ==> Reached(r, m)
    {
      var i := c + 1;
      while i <= m
        invariant c + 1 <= i <= m + 1 && Reached(r, i - 1) && AllTrue(r.room, c, i - 1)
      {
        ok := AddNext(r, i - 1, permute[i - 1], route);
        if !ok { return; }
        i := i + 1;
      }
      return true;
    }

    /** The cached roots of segments 1 to n still to come are the sinks that searches from the
        top end at. */
    ghost predicate RootsAreSinks(n: int)
      requires WellFormed(State(), history, root) && n < seg.Length
      reads this, qs, tr, seg
    {
      forall i :: 1 <= i <= n && !seg[i].isInserted ==> RootsAt(i)
    }

    ghost predicate RootsAt(i: int)
      requires WellFormed(State(), history, root) && 0 <= i < seg.Length
      reads this, qs, tr, seg
    {
      var s, ends := seg[i], EndsOf(seg[..]);
      && s.root0 == tr[Locate(State(), history, root, ends, root, s.v0, s.v1)].sink
      && s.root1 == tr[Locate(State(), history, root, ends, root, s.v1, s.v0)].sink
    }

    /** New roots for all segments still to come. */
    method FindAllRoots(n: int, ghost r: Run, ghost c: nat)
      requires n == nseg && Reached(r, c)
      modifies seg
      ensures Reached(r, c) && RootsAreSinks(n)
    {
      var i := 1;
      while i <= n
        invariant 1 <= i <= n + 1 && Reached(r, c) && RootsAreSinks(i - 1)
      {
        NextRoots(r, c, i);
        i := i + 1;
      }
    }

    method NextRoots(ghost r: Run, ghost c: nat, i: int)
      requires Reached(r, c) && 1 <= i <= nseg && RootsAreSinks(i - 1)
      modifies seg
      ensures Reached(r, c) && RootsAreSinks(i)
    {
      ghost var before := seg[..];
      FindNewRoots(i);
      SameInserted(SegmentsAt(r.I, c), before, seg[..], i);
      forall j | 1 <= j <= i && !seg[j].isInserted ensures RootsAt(j) {
        assert j < i ==> !before[j].isInserted && old(RootsAt(j));
      }
    }

    /** All segments but the first, in phases with new roots after each but the last. */
    method AddRest(ghost r: Run, permute: seq<int>, marks: seq<int>, route: Router) returns (ok: bool)
      requires IsRun(r) && Reached(r, 1) && IsPhasing(marks, nseg)
      requires GoodRouter(route) && route == r.I.route && permute == r.I.permute
      modifies this`qIdx, this`trIdx, this`history, qs, tr, seg
      ensures ok <==> AllTrue(r.room, 1, nseg)
      ensures ok ==> Reached(r, nseg)
    {
      var h := 1;
      while h < |marks|
        invariant 1 <= h <= |marks| && 1 <= marks[h - 1] && Reached(r, marks[h - 1])
        invariant AllTrue(r.room, 1, marks[h - 1])
      {
        ok := AddUpTo(r, permute, marks[h - 1], marks[h], route);
        if !ok { return; }
        FindAllRoots(nseg, r, marks[h]);
        h := h + 1;
      }
      ok := AddUpTo(r, permute, marks[|marks| - 1], nseg, route);
    }

    /** What the end of a run means. */
    lemma AllAreThere(r: Run)
      requires IsRun(r) && 1 <= nseg && Reached(r, nseg)
      ensures SameContours(r.I.seg, seg[..]) && Now() == StageAt(r.I, nseg)
      ensures Separated(State(), history, ROOT, EndsOf(seg[..]), huge)
      ensures Surrounding()
      ensures forall i :: 1 <= i <= nseg ==> seg[i].isInserted && IsIn(State(), seg[..], nseg, i)
    {
      SearchesSurround(State(), history, ROOT, EndsOf(seg[..]), huge);
      assert r.stage[nseg] == StageAt(r.I, nseg);
      AllAreIn(r.I, seg[..]);
    }
  }

  /** The insertions are done in phases, phase h up to segment number marks[h]. */
  ghost predicate IsPhasing(marks: seq<int>, n: int) {
    && marks != [] && marks[0] == 1 && marks[|marks| - 1] <= n
    && forall h :: 0 < h < |marks| ==> marks[h - 1] <= marks[h] <= n
  }

  /** The structure for the first segment of a run. */
  method Begin(ghost r: Run, seg: array<Segment>, nseg: int, first: int, qsize: nat, trsize: nat, huge: real)
    returns (tz: Trapezoidation)
    requires 1 <= nseg < seg.Length && 8 <= qsize && 5 <= trsize && first == NumberAt(r.I, 0)
    requires IsRun(r) && r.I == Input(seg[..], nseg, r.I.permute, r.I.route, qsize, trsize, huge)
    requires IsOrdering(r.I.permute, nseg) && NeighboursOk(seg[..], nseg)
    requires forall i :: 1 <= i <= nseg ==> !seg[i].isInserted
    modifies seg
    ensures fresh(tz) && fresh(tz.qs) && fresh(tz.tr) && tz.seg == seg && tz.nseg == nseg && tz.huge == huge
    ensures tz.qs.Length == qsize && tz.tr.Length == trsize && tz.Reached(r, 1)
  {
    tz := new Trapezoidation(seg, nseg, first, qsize, trsize, huge);
    FirstIsReached(r.I, seg[..]);
    assert r.stage[1] == StageAt(r.I, 1);
  }

  /** The whole trapezoidation: the segments are added in the given order, and new roots
      found after each phase. It succeeds if and only if the tables have room for every
      segment; then all of them are in, each search ends in a trapezoid that lies around its
      point, and the tables are those of adding the segments with plain searches. */
  method ConstructTrapezoids(seg: array<Segment>, nseg: int, permute: seq<int>, marks: seq<int>, route: Router,
                             qsize: nat, trsize: nat, huge: real)
    returns (tz: Trapezoidation, ok: bool)
    requires 1 <= nseg < seg.Length && 8 <= qsize && 5 <= trsize && GoodRouter(route)
    requires IsOrdering(permute, nseg) && IsPhasing(marks, nseg) && NeighboursOk(seg[..], nseg)
    requires forall i :: 1 <= i <= nseg ==> !seg[i].isInserted
    modifies seg
    ensures fresh(tz) && fresh(tz.qs) && fresh(tz.tr) && tz.seg == seg && tz.nseg == nseg && tz.huge == huge
    ensures tz.qs.Length == qsize && tz.tr.Length == trsize
    ensures var I := Input(old(seg[..]), nseg, permute, route, qsize, trsize, huge);
            (ok <==> RunFits(I)) && (ok ==> tz.Now() == StageAt(I, nseg))
    ensures ok ==> tz.Valid() && Separated(tz.State(), tz.history, ROOT, EndsOf(seg[..]), huge)
    ensures ok ==> tz.root == ROOT && tz.Surrounding()
    ensures ok ==> SameContours(old(seg[..]), seg[..])
    ensures ok ==> forall i :: 1 <= i <= nseg ==> seg[i].isInserted && IsIn(tz.State(), seg[..], nseg, i)
  {
    ghost var r := LaidOut(Input(seg[..], nseg, permute, route, qsize, trsize, huge));
    tz := Begin(r, seg, nseg, permute[0], qsize, trsize, huge);
    ok := tz.AddRest(r, permute, marks, route);
    if ok { tz.AllAreThere(r); }
  }
}
