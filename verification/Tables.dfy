/** The trapezoidation's operations as functions of its two tables: what each of them leaves,
    row for row, and when a whole run fits. */
module Tables {
  import opened Plane
  import opened Trapezoids
  import opened Tolerance
  import opened QueryStructure
  import opened QuerySteps
  import opened Merging
  import opened Insertion
  import opened Threading

  function NodeAt(qs: seq<Node>, x: int): Node { if 0 <= x < |qs| then qs[x] else BLANK }

  function SetNode(qs: seq<Node>, x: int, nd: Node): (r: seq<Node>)
    ensures |r| == |qs|
  {
    if 0 <= x < |qs| then qs[x := nd] else qs
  }

  function SetTrap(tr: seq<Trap>, k: int, t: Trap): (r: seq<Trap>)
    ensures |r| == |tr|
  {
    if 0 <= k < |tr| then tr[k := t] else tr
  }

  // ------------------------------------------------------------ splitting

  /** Sink sk turned into an inner node over two new sinks, for t and for tn. */
  function SinkSplit(qs: seq<Node>, qIdx: int, sk: int, kind: NodeKind, segnum: int, yval: Point, t: int, tn: int):
    (r: seq<Node>)
    ensures |r| == |qs|
  {
    var i1, i2 := qIdx, qIdx + 1;
    var a := SetNode(qs, sk, NodeAt(qs, sk).(kind := kind, segnum := segnum, yval := yval,
                                             left := if kind == XNode then i1 else i2,
                                             right := if kind == XNode then i2 else i1));
    var b := SetNode(a, i1, SinkFor(NodeAt(a, i1), t, sk));
    SetNode(b, i2, SinkFor(NodeAt(b, i2), tn, sk))
  }

  /** Row d, if there is one, has tl as upper neighbour where it had tu. */
  function Rehung(tr: seq<Trap>, d: int, tu: int, tl: int): (r: seq<Trap>)
    ensures |r| == |tr|
  {
    var t := TrapAt(tr, d);
    if d <= 0 then tr else
      SetTrap(tr, d, t.(u0 := if t.u0 == tu then tl else t.u0, u1 := if t.u1 == tu then tl else t.u1))
  }

  /** The rows of a split of tu at the level of p, the lower part going to row tl. */
  function RowsOfSplit(tr: seq<Trap>, tu: int, tl: int, p: Point): (r: seq<Trap>)
    ensures |r| == |tr|
  {
    var t := TrapAt(tr, tu);
    var a := SetTrap(SetTrap(tr, tl, t.(hi := p, u0 := tu, u1 := 0)), tu, t.(lo := p, d0 := tl, d1 := 0));
    Rehung(Rehung(a, t.d0, tu, tl), t.d1, tu, tl)
  }

  function PointSplit(Q: Query, tu: int, p: Point, segnum: int): Query {
    var tl := Q.trIdx;
    var rows := RowsOfSplit(Q.tr, tu, tl, p);
    var a := SetTrap(rows, tu, TrapAt(rows, tu).(sink := Q.qIdx));
    Query(SinkSplit(Q.qs, Q.qIdx, TrapAt(rows, tu).sink, YNode, segnum, p, tu, tl),
          SetTrap(a, tl, TrapAt(a, tl).(sink := Q.qIdx + 1)), Q.qIdx + 2, Q.trIdx + 1)
  }

  function Relinked(tr: seq<Trap>, links: seq<Links>): (r: seq<Trap>)
    ensures |r| == |tr|
  {
    seq(|tr|, k requires 0 <= k < |tr| =>
      if k < |links| then tr[k].(u0 := links[k].u0, u1 := links[k].u1, d0 := links[k].d0, d1 := links[k].d1) else tr[k])
  }

  /** Trapezoid t cut along the segment, the right part going to the next row. */
  function SegmentCut(Q: Query, t: int, segnum: int, links: seq<Links>): Query {
    var tn, row := Q.trIdx, TrapAt(Q.tr, t);
    var a := SetTrap(Q.tr, tn, row.(sink := Q.qIdx + 1, lseg := segnum));
    Query(SinkSplit(Q.qs, Q.qIdx, row.sink, XNode, segnum, NodeAt(Q.qs, row.sink).yval, t, tn),
          Relinked(SetTrap(a, t, row.(sink := Q.qIdx, rseg := segnum)), links), Q.qIdx + 2, Q.trIdx + 1)
  }

  // ------------------------------------------------------------ merging

  function Reattached(tr: seq<Trap>, d: int, n: int, t: int): (r: seq<Trap>)
    ensures |r| == |tr|
  {
    var row := TrapAt(tr, d);
    if d <= 0 then tr
    else SetTrap(tr, d, if row.u0 == n then row.(u0 := t) else if row.u1 == n then row.(u1 := t) else row)
  }

  /** The rows once t has taken over n's lower end and lower neighbours. */
  function RowsOfMerge(tr: seq<Trap>, t: int, n: int): (r: seq<Trap>)
    ensures |r| == |tr|
  {
    var d0, d1 := TrapAt(tr, n).d0, TrapAt(tr, n).d1;
    var a := Reattached(SetTrap(tr, t, TrapAt(tr, t).(d0 := d0)), d0, n, t);
    var b := Reattached(SetTrap(a, t, TrapAt(a, t).(d1 := d1)), d1, n, t);
    var c := SetTrap(b, t, TrapAt(b, t).(lo := TrapAt(b, n).lo));
    SetTrap(c, n, TrapAt(c, n).(state := Trapezoids.Invalid))
  }

  function MergedInto(Q: Query, t: int, n: int): Query {
    var s := TrapAt(Q.tr, n).sink;
    var p := NodeAt(Q.qs, s).parent;
    Q.(qs := SetNode(Q.qs, p, Bypassed(NodeAt(Q.qs, p), s, TrapAt(Q.tr, t).sink)), tr := RowsOfMerge(Q.tr, t, n))
  }

  /** A merge pass from t down to the lower end of tlast, of at most that many rounds. */
  function MergePass(Q: Query, t: int, tlast: int, side: MergeSide, segnum: int, rounds: nat): Query
    decreases rounds
  {
    if rounds == 0 || t <= 0 || !AboveOrSame(TrapAt(Q.tr, t).lo, TrapAt(Q.tr, tlast).lo) then Q
    else
      var n := NextDown(Q.tr, t, side, segnum);
      if Mergeable(Q.tr, t, side, segnum) then MergePass(MergedInto(Q, t, n), t, tlast, side, segnum, rounds - 1)
      else MergePass(Q, n, tlast, side, segnum, rounds - 1)
  }

  lemma MergePassStep(Q: Query, t: int, tlast: int, side: MergeSide, segnum: int, rounds: nat)
    requires rounds > 0 && t > 0 && AboveOrSame(TrapAt(Q.tr, t).lo, TrapAt(Q.tr, tlast).lo)
    ensures MergePass(Q, t, tlast, side, segnum, rounds)
         == if Mergeable(Q.tr, t, side, segnum)
            then MergePass(MergedInto(Q, t, NextDown(Q.tr, t, side, segnum)), t, tlast, side, segnum, rounds - 1)
            else MergePass(Q, NextDown(Q.tr, t, side, segnum), tlast, side, segnum, rounds - 1)
  {
  }

  lemma MergePassEnd(Q: Query, t: int, tlast: int, side: MergeSide, segnum: int, rounds: nat)
    requires t <= 0 || !AboveOrSame(TrapAt(Q.tr, t).lo, TrapAt(Q.tr, tlast).lo)
    ensures MergePass(Q, t, tlast, side, segnum, rounds) == Q
  {
  }

  /** As many rounds as a pass can take. */
  function Rounds(Q: Query): nat { if Q.trIdx < 0 then 0 else Q.trIdx + 1 }

  // ------------------------------------------------------------ one insertion

  /** The tables, and when their nodes were split. */
  datatype Stage = Stage(Q: Query, H: History)

  function Ticked(H: History, sk: int): History { if 0 <= sk < |H.born| then Tick(H, sk) else H }

  function CutStage(s: Stage, t: int, segnum: int, links: seq<Links>): Stage {
    Stage(SegmentCut(s.Q, t, segnum, links), Ticked(s.H, TrapAt(s.Q.tr, t).sink))
  }

  /** The first k trapezoids of the walk cut. */
  function CutUpTo(s: Stage, segnum: int, walk: seq<int>, links: seq<seq<Links>>, k: nat): Stage
    requires k <= |walk| && k <= |links|
  {
    if k == 0 then s else CutStage(CutUpTo(s, segnum, walk, links, k - 1), walk[k - 1], segnum, links[k - 1])
  }

  /** The right part of the last of the first k trapezoids that end where tlast does. */
  function RightOfLast(Q: Query, walk: seq<int>, tlast: int, k: nat): int
    requires k <= |walk|
  {
    if k == 0 then 0
    else if SamePoint(TrapAt(Q.tr, walk[k - 1]).lo, TrapAt(Q.tr, tlast).lo) then Q.trIdx + k - 1
    else RightOfLast(Q, walk, tlast, k - 1)
  }

  /** The trapezoids a segment runs through, from the one its upper end lies in, and all
      neighbour links after each cut. */
  datatype Route = Route(walk: seq<int>, links: seq<seq<Links>>)

  /** The bookkeeping of neighbours, which tells the route. */
  type Router = (Query, int, int, int) -> Route

  /** The segment threaded along its route, and merged along on either side. */
  function ThreadStage(s: Stage, segnum: int, r: Route, tfirst: int, tlast: int): Stage {
    if |r.walk| != |r.links| then s
    else
      var c := CutUpTo(s, segnum, r.walk, r.links, |r.walk|);
      var left := MergePass(c.Q, tfirst, tlast, OnLeft, segnum, Rounds(c.Q));
      var lastr := RightOfLast(s.Q, r.walk, tlast, |r.walk|);
      c.(Q := MergePass(left, s.Q.trIdx, lastr, OnRight, segnum, Rounds(left)))
  }

  /** What inserting a segment has to see to: its higher and its lower end, and which of
      them are in already. */
  datatype Job = Job(hi: Point, lo: Point, hiPresent: bool, loPresent: bool)

  function SegAt(seg: seq<Segment>, k: int): Segment { SegmentAt(seg, k) }

  function JobOf(seg: seq<Segment>, segnum: int): Job {
    var s := SegAt(seg, segnum);
    var up := Above(s.v1, s.v0);
    var before, after := SegAt(seg, s.prev).isInserted, SegAt(seg, s.next).isInserted;
    if up then Job(s.v1, s.v0, after, before) else Job(s.v0, s.v1, before, after)
  }

  /** The higher end is not below the lower one, and both ends come with the flag of the
      segment that shares them. */
  lemma JobIsOrdered(seg: seq<Segment>, segnum: int)
    requires 0 <= segnum < |seg|
    ensures var s, j := seg[segnum], JobOf(seg, segnum);
            var before, after := SegAt(seg, s.prev).isInserted, SegAt(seg, s.next).isInserted;
            && (Apart(s.v0, s.v1) ==> j.hi == j.lo || GreaterThan(j.hi, j.lo)) && j.hi.y >= j.lo.y - EPS
            && ((j.hi, j.hiPresent, j.lo, j.loPresent) == (s.v0, before, s.v1, after)
                || (j.hi, j.hiPresent, j.lo, j.loPresent) == (s.v1, after, s.v0, before))
  {
  }

  function EndsNeeded(j: Job): nat { (if j.hiPresent then 0 else 1) + if j.loPresent then 0 else 1 }

  /** Where the search from the root ends. */
  ghost function Found(s: Stage, root: int, ends: seq<Ends>, v: Point, vo: Point): int {
    if WellFormed(s.Q, s.H, root) then Locate(s.Q, s.H, root, ends, root, v, vo) else 0
  }

  function PutPoint(s: Stage, tu: int, p: Point, segnum: int, present: bool): Stage {
    if present then s else Stage(PointSplit(s.Q, tu, p, segnum), Ticked(s.H, TrapAt(s.Q.tr, tu).sink))
  }

  /** Both end points seen to, the higher one first, and the trapezoids the segment runs
      from and to. */
  datatype Ended = Ended(s: Stage, tfirst: int, tlast: int)

  ghost function WithEnds(s: Stage, root: int, ends: seq<Ends>, segnum: int, j: Job): Ended {
    var tu := Found(s, root, ends, j.hi, j.lo);
    var s1 := PutPoint(s, tu, j.hi, segnum, j.hiPresent);
    var tlast := Found(s1, root, ends, j.lo, j.hi);
    Ended(PutPoint(s1, tlast, j.lo, segnum, j.loPresent), if j.hiPresent then tu else s.Q.trIdx, tlast)
  }

  /** Room for k more splits. */
  predicate HasRoom(Q: Query, k: nat) { Q.qIdx + 2 * k <= |Q.qs| && Q.trIdx + k <= |Q.tr| }

  ghost function RouteOf(e: Ended, segnum: int, route: Router): Route { route(e.s.Q, segnum, e.tfirst, e.tlast) }

  /** The tables have room for the end points that are missing and for all the cuts. */
  ghost predicate RoomFor(s: Stage, root: int, ends: seq<Ends>, segnum: int, j: Job, route: Router) {
    && HasRoom(s.Q, EndsNeeded(j))
    && var e := WithEnds(s, root, ends, segnum, j); HasRoom(e.s.Q, |RouteOf(e, segnum, route).walk|)
  }

  /** The tables after the segment was inserted. */
  ghost function Added(s: Stage, root: int, ends: seq<Ends>, segnum: int, j: Job, route: Router): Stage {
    var e := WithEnds(s, root, ends, segnum, j);
    ThreadStage(e.s, segnum, RouteOf(e, segnum, route), e.tfirst, e.tlast)
  }

  // ------------------------------------------------------------ a whole run

  /** The segments when the first c of the ordering are in, but for their cached roots. */
  function SegmentsAfter(seg: seq<Segment>, n: int, permute: seq<int>, c: nat): (r: seq<Segment>)
    requires c <= |permute|
    ensures |r| == |seg|
  {
    seq(|seg|, k requires 0 <= k < |seg| =>
      if 1 <= k <= n then seg[k].(isInserted := k in permute[..c]) else seg[k])
  }

  /** The same but for cached roots. */
  ghost predicate UpToRoots(a: seq<Segment>, b: seq<Segment>) {
    |a| == |b| && forall k :: 0 <= k < |a| ==> b[k] == a[k].(root0 := b[k].root0, root1 := b[k].root1)
  }

  lemma UpToRootsJob(a: seq<Segment>, b: seq<Segment>, segnum: int)
    requires UpToRoots(a, b) && 0 <= segnum < |a|
    ensures JobOf(b, segnum) == JobOf(a, segnum) && EndsOf(b) == EndsOf(a)
  {
    assert 0 <= a[segnum].prev < |a| ==> b[a[segnum].prev].isInserted == a[a[segnum].prev].isInserted;
    assert 0 <= a[segnum].next < |a| ==> b[a[segnum].next].isInserted == a[a[segnum].next].isInserted;
  }

  /** The tables for the first segment. */
  function FirstStage(s: Segment, first: int, qsize: nat, trsize: nat, huge: real): Stage {
    var high, low := Highest(s.v0, s.v1), Lowest(s.v0, s.v1);
    Stage(Query(seq(qsize, k => InitialNode(k, first, high, low)), seq(trsize, k => InitialTrap(k, first, high, low, huge)),
                8, 5),
          History(seq(qsize, k => if k == 3 then 1 else if k == 5 then 2 else 0), 3))
  }

  const ROOT := 1

  /** What is given to a run. */
  datatype Input = Input(seg: seq<Segment>, n: nat, permute: seq<int>, route: Router, qsize: nat, trsize: nat, huge: real)

  function NumberAt(I: Input, c: nat): int { if c < |I.permute| then I.permute[c] else 0 }

  function SegmentsAt(I: Input, c: nat): seq<Segment> {
    if c <= |I.permute| then SegmentsAfter(I.seg, I.n, I.permute, c) else I.seg
  }

  /** The tables when c segments are in. */
  ghost function StageAt(I: Input, c: nat): Stage {
    if c <= 1 then FirstStage(SegAt(I.seg, NumberAt(I, 0)), NumberAt(I, 0), I.qsize, I.trsize, I.huge)
    else
      Added(StageAt(I, c - 1), ROOT, EndsOf(I.seg), NumberAt(I, c - 1), JobOf(SegmentsAt(I, c - 1), NumberAt(I, c - 1)),
            I.route)
  }

  /** There is room for the segment that is inserted when c are in. */
  ghost predicate RoomAt(I: Input, c: nat) {
    RoomFor(StageAt(I, c), ROOT, EndsOf(I.seg), NumberAt(I, c), JobOf(SegmentsAt(I, c), NumberAt(I, c)), I.route)
  }

  /** There is room for every segment. */
  ghost predicate RunFits(I: Input) { forall c :: 1 <= c < I.n ==> RoomAt(I, c) }

  /** A run laid out: the tables when c segments are in, and whether there is room for the
      next one then. */
  datatype Run = Run(I: Input, stage: seq<Stage>, room: seq<bool>)

  ghost predicate IsRun(r: Run) {
    && |r.stage| == |r.room| == r.I.n + 1
    && (forall c {:trigger RoomAt(r.I, c)} :: 0 <= c <= r.I.n ==> (r.room[c] <==> RoomAt(r.I, c)))
    && forall c {:trigger StageAt(r.I, c)} :: 0 <= c <= r.I.n ==> r.stage[c] == StageAt(r.I, c)
  }

  lemma RunGoesOn(r: Run, c: nat)
    requires IsRun(r) && 1 <= c < r.I.n
    ensures var I, k := r.I, NumberAt(r.I, c);
            var j := JobOf(SegmentsAt(I, c), k);
            && (r.room[c] <==> RoomFor(r.stage[c], ROOT, EndsOf(I.seg), k, j, I.route))
            && r.stage[c + 1] == Added(r.stage[c], ROOT, EndsOf(I.seg), k, j, I.route)
  {
    assert (r.room[c] <==> RoomAt(r.I, c)) && r.stage[c] == StageAt(r.I, c) && r.stage[c + 1] == StageAt(r.I, c + 1);
  }

  lemma LaidOut(I: Input) returns (r: Run)
    ensures IsRun(r) && r.I == I && r.stage[I.n] == StageAt(I, I.n)
    ensures RunFits(I) <==> AllTrue(r.room, 1, I.n)
  {
    r := Run(I, seq(I.n + 1, c requires 0 <= c => StageAt(I, c)), seq(I.n + 1, c requires 0 <= c => RoomAt(I, c)));
    assert forall c :: 0 <= c <= I.n ==> (r.room[c] <==> RoomAt(I, c));
  }

  predicate AllTrue(room: seq<bool>, lo: nat, hi: int)
    requires hi <= |room|
  {
    forall c :: lo <= c < hi ==> room[c]
  }
}
