/** What traverse_polygon does at one trapezoid: whether it splits the current polygon
    there, along which diagonal, and in which order it goes on to the neighbours. */
module Traversal {
  import opened Plane
  import opened Trapezoids

  datatype From = FromUp | FromDown

  /** One recursive call: to which neighbour, from where, and with the new polygon? */
  datatype Visit = Visit(to: int, dir: From, onNew: bool)

  datatype Plan = NoSplit(visits: seq<Visit>) | Split(v0: int, v1: int, visits: seq<Visit>)

  function Cur(to: int, dir: From): Visit { Visit(to, dir, false) }

  function New(to: int, dir: From): Visit { Visit(to, dir, true) }

  /** The decision table of traverse_polygon, branch for branch. */
  function PlanAt(tr: seq<Trap>, seg: seq<Segment>, trnum: int, from: int, dir: From): Plan {
    var t := TrapAt(tr, trnum);
    if t.u0 <= 0 && t.u1 <= 0 then PlanNoneAbove(tr, t, from)
    else if t.d0 <= 0 && t.d1 <= 0 then PlanNoneBelow(tr, t, from)
    else if t.u0 > 0 && t.u1 > 0 then PlanTwoAbove(tr, seg, t, from, dir)
    else PlanOneAbove(tr, seg, t, from, dir)
  }

  /** Just traverse all neighbours. */
  function PlanThrough(t: Trap): Plan {
    NoSplit([Cur(t.u0, FromDown), Cur(t.u1, FromDown), Cur(t.d0, FromUp), Cur(t.d1, FromUp)])
  }

  function PlanNoneAbove(tr: seq<Trap>, t: Trap, from: int): Plan {
    if t.d0 > 0 && t.d1 > 0 then             // downward opening triangle
      var v0, v1 := TrapAt(tr, t.d1).lseg, t.lseg;
      if from == t.d1
      then Split(v1, v0, [Cur(t.d1, FromUp), New(t.d0, FromUp)])
      else Split(v0, v1, [Cur(t.d0, FromUp), New(t.d1, FromUp)])
    else PlanThrough(t)
  }

  function PlanNoneBelow(tr: seq<Trap>, t: Trap, from: int): Plan {
    if t.u0 > 0 && t.u1 > 0 then             // upward opening triangle
      var v0, v1 := t.rseg, TrapAt(tr, t.u0).rseg;
      if from == t.u1
      then Split(v1, v0, [Cur(t.u1, FromDown), New(t.u0, FromDown)])
      else Split(v0, v1, [Cur(t.u0, FromDown), New(t.u1, FromDown)])
    else PlanThrough(t)
  }

  function PlanTwoAbove(tr: seq<Trap>, seg: seq<Segment>, t: Trap, from: int, dir: From): Plan {
    var lseg := SegmentAt(seg, t.lseg);
    if t.d0 > 0 && t.d1 > 0 then             // downward and upward cusps
      var v0, v1 := TrapAt(tr, t.d1).lseg, TrapAt(tr, t.u0).rseg;
      if (dir == FromDown && t.d1 == from) || (dir == FromUp && t.u1 == from)
      then Split(v1, v0, [Cur(t.u1, FromDown), Cur(t.d1, FromUp), New(t.u0, FromDown), New(t.d0, FromUp)])
      else Split(v0, v1, [Cur(t.u0, FromDown), Cur(t.d0, FromUp), New(t.u1, FromDown), New(t.d1, FromUp)])
    else if t.lo == lseg.v1 then             // only downward cusp, left
      var v0, v1 := TrapAt(tr, t.u0).rseg, lseg.next;
      if dir == FromUp && t.u0 == from
      then Split(v1, v0, [Cur(t.u0, FromDown), New(t.d0, FromUp), New(t.u1, FromDown), New(t.d1, FromUp)])
      else Split(v0, v1, [Cur(t.u1, FromDown), Cur(t.d0, FromUp), Cur(t.d1, FromUp), New(t.u0, FromDown)])
    else                                     // only downward cusp, right
      var v0, v1 := t.rseg, TrapAt(tr, t.u0).rseg;
      if dir == FromUp && t.u1 == from
      then Split(v1, v0, [Cur(t.u1, FromDown), New(t.d1, FromUp), New(t.d0, FromUp), New(t.u0, FromDown)])
      else Split(v0, v1, [Cur(t.u0, FromDown), Cur(t.d0, FromUp), Cur(t.d1, FromUp), New(t.u1, FromDown)])
  }

  function PlanOneAbove(tr: seq<Trap>, seg: seq<Segment>, t: Trap, from: int, dir: From): Plan {
    var lseg, rseg := SegmentAt(seg, t.lseg), SegmentAt(seg, t.rseg);
    if t.d0 > 0 && t.d1 > 0 then
      if t.hi == lseg.v0 then                // only upward cusp, left
        var v0, v1 := TrapAt(tr, t.d1).lseg, t.lseg;
        if !(dir == FromDown && t.d0 == from)
        then Split(v1, v0, [Cur(t.u1, FromDown), Cur(t.d1, FromUp), Cur(t.u0, FromDown), New(t.d0, FromUp)])
        else Split(v0, v1, [Cur(t.d0, FromUp), New(t.u0, FromDown), New(t.u1, FromDown), New(t.d1, FromUp)])
      else                                   // only upward cusp, right
        var v0, v1 := TrapAt(tr, t.d1).lseg, rseg.next;
        if dir == FromDown && t.d1 == from
        then Split(v1, v0, [Cur(t.d1, FromUp), New(t.u1, FromDown), New(t.u0, FromDown), New(t.d0, FromUp)])
        else Split(v0, v1, [Cur(t.u0, FromDown), Cur(t.d0, FromUp), Cur(t.u1, FromDown), New(t.d1, FromUp)])
    else if (t.hi == lseg.v0 && t.lo == rseg.v0) || (t.hi == rseg.v1 && t.lo == lseg.v1) then
      var down := t.hi == lseg.v0 && t.lo == rseg.v0;
      var v0, v1 := if down then t.rseg else rseg.next, if down then t.lseg else lseg.next;
      if dir == FromUp
      then Split(v1, v0, [Cur(t.u0, FromDown), Cur(t.u1, FromDown), New(t.d1, FromUp), New(t.d0, FromUp)])
      else Split(v0, v1, [Cur(t.d1, FromUp), Cur(t.d0, FromUp), New(t.u0, FromDown), New(t.u1, FromDown)])
    else                                     // no split possible
      NoSplit([Cur(t.u0, FromDown), Cur(t.d0, FromUp), Cur(t.u1, FromDown), Cur(t.d1, FromUp)])
  }

  // ------------------------------------------------------------ what the table is right about

  predicate CuspAbove(t: Trap) { t.u0 > 0 && t.u1 > 0 }

  predicate CuspBelow(t: Trap) { t.d0 > 0 && t.d1 > 0 }

  /** Where a finished trapezoid's top and bottom points lie: each is a cusp between two
      neighbours, or an end of one side, or of both where nothing is beyond it. Left sides
      run downwards and right sides upwards. */
  predicate Placed(tr: seq<Trap>, seg: seq<Segment>, t: Trap) {
    var lseg, rseg := SegmentAt(seg, t.lseg), SegmentAt(seg, t.rseg);
    && SegmentAt(seg, lseg.next).v0 == lseg.v1 && SegmentAt(seg, rseg.next).v0 == rseg.v1
    && (if CuspAbove(t) then t.u0 != t.u1 && SegmentAt(seg, TrapAt(tr, t.u0).rseg).v0 == t.hi
        else if t.u0 > 0 || t.u1 > 0 then (t.hi == lseg.v0) != (t.hi == rseg.v1)
        else t.hi == lseg.v0 && t.hi == rseg.v1)
    && (if CuspBelow(t) then t.d0 != t.d1 && SegmentAt(seg, TrapAt(tr, t.d1).lseg).v0 == t.lo
        else if t.d0 > 0 || t.d1 > 0 then (t.lo == lseg.v1) != (t.lo == rseg.v0)
        else t.lo == lseg.v1 && t.lo == rseg.v0)
  }

  /** The side of the line from top to bottom a neighbour lies on. */
  predicate LiesLeft(seg: seq<Segment>, t: Trap, x: int, dir: From) {
    if dir == FromDown then (if CuspAbove(t) then x == t.u0 else t.hi != SegmentAt(seg, t.lseg).v0)
    else if CuspBelow(t) then x == t.d0 else t.lo != SegmentAt(seg, t.lseg).v1
  }

  function Opposite(dir: From): From { if dir == FromUp then FromDown else FromUp }

  /** The walk came from a neighbour on that side. */
  predicate CameFrom(t: Trap, from: int, dir: From) {
    from > 0 && if dir == FromUp then from == t.u0 || from == t.u1 else from == t.d0 || from == t.d1
  }

  /** The diagonal v0 -> v1 spans the trapezoid, up along the right of a polygon on its left
      or down along the left of one on its right: the current polygon stays where the walk
      came from, and every neighbour is visited with the polygon on its own side. */
  predicate SplitIsRight(seg: seq<Segment>, t: Trap, from: int, dir: From, v0: int, v1: int, visits: seq<Visit>) {
    var left := LiesLeft(seg, t, from, Opposite(dir));
    && SegmentAt(seg, v0).v0 == (if left then t.lo else t.hi)
    && SegmentAt(seg, v1).v0 == (if left then t.hi else t.lo)
    && forall k :: 0 <= k < |visits| && visits[k].to > 0 ==>
         (visits[k].onNew <==> LiesLeft(seg, t, visits[k].to, visits[k].dir) != left)
  }

  /** Top and bottom are ends of the same side, which needs no diagonal. */
  predicate OnOneSide(seg: seq<Segment>, t: Trap) {
    var lseg, rseg := SegmentAt(seg, t.lseg), SegmentAt(seg, t.rseg);
    && !CuspAbove(t) && !CuspBelow(t)
    && ((t.hi == lseg.v0 && t.lo == lseg.v1) || (t.hi == rseg.v1 && t.lo == rseg.v0))
  }

  /** The decision table is right in every branch. */
  lemma PlanIsRight(tr: seq<Trap>, seg: seq<Segment>, trnum: int, from: int, dir: From)
    requires var t := TrapAt(tr, trnum); Placed(tr, seg, t) && CameFrom(t, from, dir)
    ensures var t, plan := TrapAt(tr, trnum), PlanAt(tr, seg, trnum, from, dir);
            if OnOneSide(seg, t) then plan.NoSplit?
            else plan.Split? && SplitIsRight(seg, t, from, dir, plan.v0, plan.v1, plan.visits)
  {
  }

  /** Whether a trapezoid calls for a diagonal, and between which corners, whatever way the
      walk comes. */
  predicate Splits(tr: seq<Trap>, seg: seq<Segment>, k: int) { PlanAt(tr, seg, k, 0, FromUp).Split? }

  predicate SplitsAlong(tr: seq<Trap>, seg: seq<Segment>, k: int, v0: int, v1: int) {
    var p := PlanAt(tr, seg, k, 0, FromUp);
    p.Split? && ((v0, v1) == (p.v0, p.v1) || (v0, v1) == (p.v1, p.v0))
  }

  /** The way the walk comes decides only in which direction the diagonal is drawn. */
  lemma PlansAgree(tr: seq<Trap>, seg: seq<Segment>, k: int, from: int, dir: From)
    ensures var p := PlanAt(tr, seg, k, from, dir);
            (p.Split? <==> Splits(tr, seg, k)) && (p.Split? ==> SplitsAlong(tr, seg, k, p.v0, p.v1))
  {
  }

  ghost function Splitting(tr: seq<Trap>, seg: seq<Segment>, S: set<int>): set<int> {
    set k | k in S && Splits(tr, seg, k)
  }

  /** A diagonal drawn in a trapezoid, across polygon mcur. */
  datatype Stroke = Stroke(at: int, mcur: int, v0: int, v1: int)

  ghost predicate StrokeOk(tr: seq<Trap>, seg: seq<Segment>, s: Stroke, S: set<int>) {
    s.at in S && SplitsAlong(tr, seg, s.at, s.v0, s.v1)
  }

  /** The strokes are those of the trapezoids in S that call for one, one each. */
  ghost predicate StrokesOf(tr: seq<Trap>, seg: seq<Segment>, drawn: seq<Stroke>, S: set<int>) {
    && (forall i :: 0 <= i < |drawn| ==> StrokeOk(tr, seg, drawn[i], S))
    && (forall i, j :: 0 <= i < j < |drawn| ==> drawn[i].at != drawn[j].at)
    && |drawn| == |Splitting(tr, seg, S)|
  }

  lemma StrokesJoin(tr: seq<Trap>, seg: seq<Segment>, a: seq<Stroke>, b: seq<Stroke>, S: set<int>, T: set<int>)
    requires StrokesOf(tr, seg, a, S) && StrokesOf(tr, seg, b, T) && S !! T
    ensures StrokesOf(tr, seg, a + b, S + T)
  {
    assert Splitting(tr, seg, S + T) == Splitting(tr, seg, S) + Splitting(tr, seg, T);
    forall i | 0 <= i < |a + b| ensures StrokeOk(tr, seg, (a + b)[i], S + T) {
      if i < |a| { assert StrokeOk(tr, seg, a[i], S); } else { assert StrokeOk(tr, seg, b[i - |a|], T); }
    }
    forall i, j | 0 <= i < j < |a + b| ensures (a + b)[i].at != (a + b)[j].at {
      if i < |a| <= j { assert StrokeOk(tr, seg, a[i], S) && StrokeOk(tr, seg, b[j - |a|], T); }
    }
  }

  lemma StrokesHere(tr: seq<Trap>, seg: seq<Segment>, trnum: int, from: int, dir: From, mcur: int)
    ensures var p := PlanAt(tr, seg, trnum, from, dir);
            StrokesOf(tr, seg, if p.Split? then [Stroke(trnum, mcur, p.v0, p.v1)] else [], {trnum})
  {
    PlansAgree(tr, seg, trnum, from, dir);
    if Splits(tr, seg, trnum) { assert Splitting(tr, seg, {trnum}) == {trnum}; }
    else { assert Splitting(tr, seg, {trnum}) == {}; }
  }

  /** No more strokes than trapezoids. */
  lemma FewStrokes(tr: seq<Trap>, seg: seq<Segment>, drawn: seq<Stroke>, S: set<int>)
    requires StrokesOf(tr, seg, drawn, S)
    ensures |drawn| <= |S|
  {
    SubsetSize(Splitting(tr, seg, S), S);
  }

  /** The trapezoids next to k. */
  function Neighbours(tr: seq<Trap>, k: int): set<int> {
    Around(TrapAt(tr, k))
  }

  /** A link that is zero or negative leads nowhere. */
  function Some(x: int): set<int> { if x > 0 then {x} else {} }

  /** Where the first k visits lead. */
  function Reached(vs: seq<Visit>, k: nat): set<int>
    requires k <= |vs|
  {
    if k == 0 then {} else Reached(vs, k - 1) + Some(vs[k - 1].to)
  }

  lemma {:induction false} ReachedGrows(vs: seq<Visit>, k: nat)
    requires k < |vs|
    ensures Reached(vs, k + 1) == Reached(vs, k) + Some(vs[k].to)
    ensures Reached(vs, k + 1) <= Reached(vs, |vs|)
    decreases |vs| - k
  {
    if k + 1 < |vs| { ReachedGrows(vs, k + 1); }
  }

  lemma ReachedByFour(vs: seq<Visit>)
    requires |vs| == 4
    ensures Reached(vs, 4) == Some(vs[0].to) + Some(vs[1].to) + Some(vs[2].to) + Some(vs[3].to)
  {
    assert Reached(vs, 1) == Some(vs[0].to);
    assert Reached(vs, 2) == Some(vs[0].to) + Some(vs[1].to);
    assert Reached(vs, 3) == Reached(vs, 2) + Some(vs[2].to);
  }

  /** Whatever the branch, all neighbours are visited and nothing else. */
  lemma PlanVisitsAllNeighbours(tr: seq<Trap>, seg: seq<Segment>, trnum: int, from: int, dir: From)
    ensures var vs := PlanAt(tr, seg, trnum, from, dir).visits;
            Reached(vs, |vs|) == Neighbours(tr, trnum)
  {
    var t := TrapAt(tr, trnum);
    if t.u0 <= 0 && t.u1 <= 0 {
      NoneAboveGoesAround(tr, t, from);
    } else if t.d0 <= 0 && t.d1 <= 0 {
      NoneBelowGoesAround(tr, t, from);
    } else if t.u0 > 0 && t.u1 > 0 {
      TwoAboveGoesAround(tr, seg, t, from, dir);
    } else {
      OneAboveGoesAround(tr, seg, t, from, dir);
    }
  }

  function Around(t: Trap): set<int> { Some(t.u0) + Some(t.u1) + Some(t.d0) + Some(t.d1) }

  lemma NoneAboveGoesAround(tr: seq<Trap>, t: Trap, from: int)
    requires t.u0 <= 0 && t.u1 <= 0
    ensures var vs := PlanNoneAbove(tr, t, from).visits;
            Reached(vs, |vs|) == Around(t)
  {
    var vs := PlanNoneAbove(tr, t, from).visits;
    if |vs| == 4 { ReachedByFour(vs); } else { assert Reached(vs, 1) == Some(vs[0].to); }
  }

  lemma NoneBelowGoesAround(tr: seq<Trap>, t: Trap, from: int)
    requires t.d0 <= 0 && t.d1 <= 0
    ensures var vs := PlanNoneBelow(tr, t, from).visits;
            Reached(vs, |vs|) == Around(t)
  {
    var vs := PlanNoneBelow(tr, t, from).visits;
    if |vs| == 4 { ReachedByFour(vs); } else { assert Reached(vs, 1) == Some(vs[0].to); }
  }

  /** Four visits to the four neighbours, in any order. */
  predicate CoversAround(vs: seq<Visit>, t: Trap) {
    && |vs| == 4
    && (t.u0 == vs[0].to || t.u0 == vs[1].to || t.u0 == vs[2].to || t.u0 == vs[3].to)
    && (t.u1 == vs[0].to || t.u1 == vs[1].to || t.u1 == vs[2].to || t.u1 == vs[3].to)
    && (t.d0 == vs[0].to || t.d0 == vs[1].to || t.d0 == vs[2].to || t.d0 == vs[3].to)
    && (t.d1 == vs[0].to || t.d1 == vs[1].to || t.d1 == vs[2].to || t.d1 == vs[3].to)
    && (vs[0].to == t.u0 || vs[0].to == t.u1 || vs[0].to == t.d0 || vs[0].to == t.d1)
    && (vs[1].to == t.u0 || vs[1].to == t.u1 || vs[1].to == t.d0 || vs[1].to == t.d1)
    && (vs[2].to == t.u0 || vs[2].to == t.u1 || vs[2].to == t.d0 || vs[2].to == t.d1)
    && (vs[3].to == t.u0 || vs[3].to == t.u1 || vs[3].to == t.d0 || vs[3].to == t.d1)
  }

  lemma CoveredGoesAround(vs: seq<Visit>, t: Trap)
    requires CoversAround(vs, t)
    ensures Reached(vs, |vs|) == Around(t)
  {
    ReachedByFour(vs);
  }

  lemma TwoAboveGoesAround(tr: seq<Trap>, seg: seq<Segment>, t: Trap, from: int, dir: From)
    ensures var vs := PlanTwoAbove(tr, seg, t, from, dir).visits; Reached(vs, |vs|) == Around(t)
  {
    CoveredGoesAround(PlanTwoAbove(tr, seg, t, from, dir).visits, t);
  }

  lemma OneAboveGoesAround(tr: seq<Trap>, seg: seq<Segment>, t: Trap, from: int, dir: From)
    ensures var vs := PlanOneAbove(tr, seg, t, from, dir).visits; Reached(vs, |vs|) == Around(t)
  {
    CoveredGoesAround(PlanOneAbove(tr, seg, t, from, dir).visits, t);
  }

  /** A set of trapezoids no neighbour link leads out of. */
  ghost predicate Closed(tr: seq<Trap>, R: set<int>) {
    forall k {:trigger Neighbours(tr, k)} :: k in R ==> Neighbours(tr, k) <= R
  }

  /** Inside the region every trapezoid is in the table and every diagonal the splitter
      may draw there joins two different vertices. */
  ghost predicate Splittable(tr: seq<Trap>, seg: seq<Segment>, R: set<int>, n: int) {
    && Closed(tr, R)
    && (forall k :: k in R ==> 0 < k < |tr|)
    && (forall k, from, dir :: k in R && PlanAt(tr, seg, k, from, dir).Split? ==>
          var p := PlanAt(tr, seg, k, from, dir);
          1 <= p.v0 <= n && 1 <= p.v1 <= n && p.v0 != p.v1)
  }

  // ------------------------------------------------------------ what a walk achieves

  ghost function NewlyVisited(before: seq<bool>, after: seq<bool>): set<int>
    requires |before| == |after|
  {
    set x | 0 <= x < |after| && after[x] && !before[x]
  }

  ghost function Unvisited(visited: seq<bool>, R: set<int>): set<int> {
    set x | x in R && 0 <= x < |visited| && !visited[x]
  }

  ghost predicate AllVisited(visited: seq<bool>, A: set<int>) {
    forall a :: a in A ==> 0 <= a < |visited| && visited[a]
  }

  /** From visited set `before`, exploring the roots A inside R led to `after`: all roots
      are visited, only trapezoids of R were added, and whatever was added has all its
      neighbours visited. */
  ghost predicate Explored(tr: seq<Trap>, before: seq<bool>, after: seq<bool>, A: set<int>, R: set<int>) {
    && |before| == |after|
    && (forall x :: 0 <= x < |before| && before[x] ==> after[x])
    && AllVisited(after, A)
    && NewlyVisited(before, after) <= R
    && (forall x {:trigger Neighbours(tr, x)} ::
          x in NewlyVisited(before, after) ==> AllVisited(after, Neighbours(tr, x)))
  }

  lemma NothingExplored(tr: seq<Trap>, v: seq<bool>, A: set<int>, R: set<int>)
    requires AllVisited(v, A)
    ensures Explored(tr, v, v, A, R) && NewlyVisited(v, v) == {}
  {
  }

  lemma ExploredCompose(tr: seq<Trap>, v0: seq<bool>, v1: seq<bool>, v2: seq<bool>, A: set<int>, B: set<int>,
                        R: set<int>)
    requires Explored(tr, v0, v1, A, R) && Explored(tr, v1, v2, B, R)
    ensures Explored(tr, v0, v2, A + B, R)
    ensures NewlyVisited(v0, v2) == NewlyVisited(v0, v1) + NewlyVisited(v1, v2)
    ensures NewlyVisited(v0, v1) !! NewlyVisited(v1, v2)
    ensures |NewlyVisited(v0, v2)| == |NewlyVisited(v0, v1)| + |NewlyVisited(v1, v2)|
  {
    assert NewlyVisited(v0, v2) == NewlyVisited(v0, v1) + NewlyVisited(v1, v2);
    assert NewlyVisited(v0, v1) !! NewlyVisited(v1, v2);
    forall x | x in NewlyVisited(v0, v2) ensures AllVisited(v2, Neighbours(tr, x)) {
      if x in NewlyVisited(v0, v1) { assert AllVisited(v1, Neighbours(tr, x)); }
    }
  }

  /** One more visit of a plan, on top of the first k. */
  lemma ExploredStep(tr: seq<Trap>, vs: seq<Visit>, k: nat, v1: seq<bool>, v2: seq<bool>, v3: seq<bool>,
                     R: set<int>)
    requires k < |vs|
    requires Explored(tr, v1, v2, Reached(vs, k), R) && Explored(tr, v2, v3, Some(vs[k].to), R)
    ensures Explored(tr, v1, v3, Reached(vs, k + 1), R)
    ensures NewlyVisited(v1, v3) == NewlyVisited(v1, v2) + NewlyVisited(v2, v3)
    ensures NewlyVisited(v1, v2) !! NewlyVisited(v2, v3)
    ensures |NewlyVisited(v1, v3)| == |NewlyVisited(v1, v2)| + |NewlyVisited(v2, v3)|
  {
    ExploredCompose(tr, v1, v2, v3, Reached(vs, k), Some(vs[k].to), R);
  }

  /** Marking a trapezoid and exploring its neighbours explores the trapezoid. */
  lemma ExploredNode(tr: seq<Trap>, v0: seq<bool>, k: int, v2: seq<bool>, R: set<int>)
    requires 0 < k < |v0| && !v0[k] && k in R
    requires Explored(tr, v0[k := true], v2, Neighbours(tr, k), R)
    ensures Explored(tr, v0, v2, Some(k), R)
    ensures NewlyVisited(v0, v2) == {k} + NewlyVisited(v0[k := true], v2) && k !in NewlyVisited(v0[k := true], v2)
    ensures |NewlyVisited(v0, v2)| == 1 + |NewlyVisited(v0[k := true], v2)|
  {
    var v1 := v0[k := true];
    assert NewlyVisited(v0, v2) == {k} + NewlyVisited(v1, v2);
    assert k !in NewlyVisited(v1, v2);
  }

  lemma UnvisitedShrinks(tr: seq<Trap>, v0: seq<bool>, v1: seq<bool>, A: set<int>, R: set<int>)
    requires Explored(tr, v0, v1, A, R)
    ensures Unvisited(v1, R) <= Unvisited(v0, R)
    ensures |Unvisited(v1, R)| + |NewlyVisited(v0, v1)| == |Unvisited(v0, R)|
  {
    assert Unvisited(v0, R) == Unvisited(v1, R) + NewlyVisited(v0, v1);
    assert Unvisited(v1, R) !! NewlyVisited(v0, v1);
  }

  lemma SubsetSize(A: set<int>, B: set<int>)
    requires A <= B
    ensures |A| <= |B|
  {
    assert B == A + (B - A);
  }

  lemma FewerUnvisited(v: seq<bool>, A: set<int>, B: set<int>)
    requires A <= B
    ensures |Unvisited(v, A)| <= |Unvisited(v, B)|
  {
    SubsetSize(Unvisited(v, A), Unvisited(v, B));
  }

  lemma MarkShrinks(v: seq<bool>, R: set<int>, k: int)
    requires 0 <= k < |v| && !v[k] && k in R
    ensures Unvisited(v[k := true], R) == Unvisited(v, R) - {k} && k in Unvisited(v, R)
    ensures |Unvisited(v[k := true], R)| == |Unvisited(v, R)| - 1
  {
    assert Unvisited(v[k := true], R) == Unvisited(v, R) - {k};
  }

  /** The trapezoids a walk from `start` can get to: those in every closed set around it. */
  ghost function Reachable(tr: seq<Trap>, start: int): set<int> {
    set x: int | 0 < x < |tr| && InEvery(tr, start, x)
  }

  ghost predicate InEvery(tr: seq<Trap>, start: int, x: int) {
    forall C :: Closed(tr, C) && start in C ==> x in C
  }

  /** Inside a splittable region the reachable trapezoids are a splittable region too. */
  lemma ReachableIsSplittable(tr: seq<Trap>, seg: seq<Segment>, R: set<int>, n: int, start: int)
    requires Splittable(tr, seg, R, n) && start in R
    ensures Splittable(tr, seg, Reachable(tr, start), n)
    ensures Reachable(tr, start) <= R && start in Reachable(tr, start)
  {
    var S := Reachable(tr, start);
    assert S <= R;
    forall k | k in S ensures Neighbours(tr, k) <= S {
      forall x | x in Neighbours(tr, k) ensures x in S {
        assert x in R;
        forall C | Closed(tr, C) && start in C ensures x in C { assert k in C; }
      }
    }
  }

  /** A walk from nothing visited ends with exactly the reachable trapezoids visited. */
  lemma WalkVisitsReachable(tr: seq<Trap>, before: seq<bool>, after: seq<bool>, start: int)
    requires Explored(tr, before, after, Some(start), Reachable(tr, start))
    requires start > 0 && forall x :: 0 <= x < |before| ==> !before[x]
    ensures forall x :: 0 <= x < |after| ==> (after[x] <==> x in Reachable(tr, start))
  {
    var V := NewlyVisited(before, after);
    assert Closed(tr, V) by {
      forall k | k in V ensures Neighbours(tr, k) <= V { assert AllVisited(after, Neighbours(tr, k)); }
    }
    assert start in V;
  }
}
