/** The monotone splitter of the triangulator: it walks the trapezoids inside the polygon
    and splices a diagonal into the contour rings wherever a trapezoid calls for one, then
    cuts every ring it is left with into triangles. */
module Splitter {
  import opened Sequences
  import opened Plane
  import opened GreedyCut
  import opened Rings
  import opened Polygons
  import opened Diagonals
  import opened Trapezoids
  import opened Tolerance
  import opened Traversal
  import opened Walks
  import opened Drawings
  import opened Cutting
  import Contours

  /** From drawing D to E the walk visited what is new in `after`, as recorded, and drew the
      diagonals these trapezoids call for. */
  ghost predicate Walked(angle: AngleMeasure, tr: seq<Trap>, seg: seq<Segment>, o: Origin, D: Drawing, before: seq<bool>,
                         E: Drawing, after: seq<bool>, log: seq<Stop>) {
    var drawn := Strokes(tr, seg, log);
    && |before| == |after| && LogOf(tr, seg, o, D.pool.last, log, NewlyVisited(before, after))
    && E == AfterAll(angle, D, drawn)
    && E.pool.last == D.pool.last + |drawn| && E.pool.m == D.pool.m + 2 * |drawn|
  }

  lemma WalkedNowhere(angle: AngleMeasure, tr: seq<Trap>, seg: seq<Segment>, o: Origin, D: Drawing, v: seq<bool>)
    ensures Walked(angle, tr, seg, o, D, v, D, v, [])
  {
    assert NewlyVisited(v, v) == {};
  }

  lemma WalkedOn(angle: AngleMeasure, tr: seq<Trap>, seg: seq<Segment>, o: Origin, D: Drawing, v1: seq<bool>, E: Drawing,
                 v2: seq<bool>, F: Drawing, v3: seq<bool>, a: seq<Stop>, b: seq<Stop>)
    requires Walked(angle, tr, seg, o, D, v1, E, v2, a) && Walked(angle, tr, seg, o, E, v2, F, v3, b)
    requires NewlyVisited(v1, v3) == NewlyVisited(v1, v2) + NewlyVisited(v2, v3)
    requires NewlyVisited(v1, v2) !! NewlyVisited(v2, v3)
    ensures Walked(angle, tr, seg, o, D, v1, F, v3, a + b)
  {
    LogJoin(tr, seg, o, D.pool.last, a, b, NewlyVisited(v1, v2), NewlyVisited(v2, v3));
    StrokesBoth(tr, seg, a, b);
    AfterBoth(angle, D, Strokes(tr, seg, a), Strokes(tr, seg, b));
  }

  /** A trapezoid whose neighbours were all walked has been walked itself. */
  lemma WalkedNode(angle: AngleMeasure, tr: seq<Trap>, seg: seq<Segment>, D: Drawing, v0: seq<bool>, E: Drawing,
                   F: Drawing, v2: seq<bool>, s: Stop, R: set<int>, later: seq<Stop>)
    requires var k := s.call.to;
             && 0 < k < |v0| && !v0[k] && k in R && Explored(tr, v0[k := true], v2, Neighbours(tr, k), R)
             && Entered(angle, tr, seg, s, D, E) && Walked(angle, tr, seg, Under(s), E, v0[k := true], F, v2, later)
    ensures Explored(tr, v0, v2, Some(s.call.to), R)
    ensures Walked(angle, tr, seg, Given(s.call), D, v0, F, v2, [s] + later)
  {
    var k := s.call.to;
    ExploredNode(tr, v0, k, v2, R);
    LogUnder(tr, seg, s, later, NewlyVisited(v0[k := true], v2));
    AfterBoth(angle, D, StrokeAt(tr, seg, s.call), Strokes(tr, seg, later));
  }

  /** The stop's own diagonal was drawn, if it calls for one. */
  ghost predicate Entered(angle: AngleMeasure, tr: seq<Trap>, seg: seq<Segment>, s: Stop, D: Drawing, E: Drawing) {
    var drawn := StrokeAt(tr, seg, s.call);
    && s.last == D.pool.last && E == AfterAll(angle, D, drawn)
    && E.pool.last == D.pool.last + |drawn| && E.pool.m == D.pool.m + 2 * |drawn|
  }

  lemma EntersWith(angle: AngleMeasure, tr: seq<Trap>, seg: seq<Segment>, s: Stop, D: Drawing, E: Drawing)
    requires s.last == D.pool.last
    requires var p := PlanOf(tr, seg, s.call);
             if p.Split? then E == Struck(angle, D, s.call.mcur, p.v0, p.v1)
                              && E.pool.last == D.pool.last + 1 && E.pool.m == D.pool.m + 2
             else E == D
    ensures Entered(angle, tr, seg, s, D, E)
  {
    var p := PlanOf(tr, seg, s.call);
    if p.Split? { AfterOne(angle, D, Stroke(s.call.to, s.call.mcur, p.v0, p.v1)); }
  }

  /** One more visit was made. */
  lemma WalkedVisit(angle: AngleMeasure, tr: seq<Trap>, seg: seq<Segment>, s: Stop, D: Drawing, v1: seq<bool>,
                    E: Drawing, v2: seq<bool>, F: Drawing, v3: seq<bool>, k: nat, R: set<int>, a: seq<Stop>,
                    b: seq<Stop>)
    requires var vs := PlanOf(tr, seg, s.call).visits;
             && k < |vs| && Explored(tr, v1, v2, Reached(vs, k), R) && Explored(tr, v2, v3, Some(vs[k].to), R)
             && Walked(angle, tr, seg, Under(s), D, v1, E, v2, a)
             && Walked(angle, tr, seg, Given(CallAt(tr, seg, s, k)), E, v2, F, v3, b)
    ensures var vs := PlanOf(tr, seg, s.call).visits;
            Explored(tr, v1, v3, Reached(vs, k + 1), R) && Walked(angle, tr, seg, Under(s), D, v1, F, v3, a + b)
    ensures |Unvisited(v3, R)| <= |Unvisited(v2, R)|
  {
    var vs := PlanOf(tr, seg, s.call).visits;
    UnvisitedShrinks(tr, v2, v3, Some(vs[k].to), R);
    ExploredStep(tr, vs, k, v1, v2, v3, R);
    LedByCall(tr, seg, s, k, b);
    WalkedOn(angle, tr, seg, Under(s), D, v1, E, v2, F, v3, a, b);
  }

  /** There is room for the next visit. */
  lemma RoomForVisit(angle: AngleMeasure, tr: seq<Trap>, seg: seq<Segment>, o: Origin, D: Drawing, v1: seq<bool>,
                     E: Drawing, v2: seq<bool>, vs: seq<Visit>, k: nat, R: set<int>, a: seq<Stop>)
    requires k < |vs| && Explored(tr, v1, v2, Reached(vs, k), R) && Walked(angle, tr, seg, o, D, v1, E, v2, a)
    requires Reached(vs, |vs|) <= R
    ensures E.pool.m + 2 * |Unvisited(v2, R)| <= D.pool.m + 2 * |Unvisited(v1, R)|
    ensures E.pool.last + |Unvisited(v2, R)| <= D.pool.last + |Unvisited(v1, R)| && D.pool.last <= E.pool.last
    ensures vs[k].to > 0 ==> vs[k].to in R
  {
    ReachedGrows(vs, k);
    UnvisitedShrinks(tr, v1, v2, Reached(vs, k), R);
    FewStrokes(tr, seg, Strokes(tr, seg, a), NewlyVisited(v1, v2));
  }

  /** The triangles bound together exactly what the contours bound, for every edge weight
      that changes sign with the edge's direction. */
  ghost predicate SameBoundaryAs(ts: seq<Triangle>, cs: seq<seq<int>>) {
    forall W :: Antisymmetric(W) ==> TriangleSum(W, ts) == ContourSum(W, cs)
  }

  /** A triangle of the trapezoidation that lies inside: the walk may start there. */
  predicate InsidePolygon(seg: seq<Segment>, t: Trap) {
    && t.state != Invalid && t.lseg > 0 && t.rseg > 0
    && ((t.u0 <= 0 && t.u1 <= 0) || (t.d0 <= 0 && t.d1 <= 0))
    && GreaterThan(SegmentAt(seg, t.rseg).v1, SegmentAt(seg, t.rseg).v0)
  }

  /** A triangle with both sides is inside exactly if what is to the left of its right side is
      to the left of that side's direction, as the inside of a contour is. */
  lemma InsideIsLeft(seg: seq<Segment>, t: Trap, lo: Point, hi: Point, v: Point)
    requires t.state != Invalid && t.lseg > 0 && t.rseg > 0
    requires (t.u0 <= 0 && t.u1 <= 0) || (t.d0 <= 0 && t.d1 <= 0)
    requires var s := SegmentAt(seg, t.rseg); (lo, hi) == (s.v0, s.v1) || (lo, hi) == (s.v1, s.v0)
    requires lo.y < v.y < hi.y && LeftOfLine(lo, hi, v)
    ensures var s := SegmentAt(seg, t.rseg); InsidePolygon(seg, t) <==> Cross(s.v0, s.v1, v) > 0.0
  {
  }

  /** The call the walk sets out with. */
  function FirstCall(tr: seq<Trap>, start: int): Call {
    var t := TrapAt(tr, start);
    if t.u0 > 0 then Call(0, start, t.u0, FromUp) else Call(0, start, t.d0, FromDown)
  }

  /** Every diagonal is right, and every trapezoid but the first was entered with the polygon on
      its side of the diagonal of the one the walk came from. */
  ghost predicate WalkedRight(tr: seq<Trap>, seg: seq<Segment>, start: int, log: seq<Stop>) {
    && (forall i :: 0 <= i < |log| ==> RightAt(tr, seg, log[i]))
    && (forall i :: 0 <= i < |log| ==> log[i].call == FirstCall(tr, start) || EntersRight(tr, seg, log, i))
  }

  /** Whether the walk sets out at all: it looks at the first link up and the first down. */
  predicate SetsOut(t: Trap) { t.u0 > 0 || t.d0 > 0 }

  /** While every diagonal touches the polygon it is to split, the walk loses no entry. */
  lemma WalkKeepsEntries(angle: AngleMeasure, tr: seq<Trap>, seg: seq<Segment>, R: set<int>, n: int, cs: seq<seq<int>>,
                         D: Drawing, drawn: seq<Stroke>)
    requires Coherent(D.pool, D.shape, n, cs) && Splittable(tr, seg, R, n) && StrokesOf(tr, seg, drawn, R)
    requires AfterAll(angle, D, drawn).pool.last == D.pool.last + |drawn|
    ensures (forall k :: 0 <= k < |drawn| ==> OwnAt(angle, D, drawn, k)) ==> NoEntryLost(D, AfterAll(angle, D, drawn))
  {
    AllWerePossible(angle, D, drawn);
    forall k | 0 <= k < |drawn| ensures 1 <= drawn[k].v0 <= n && 1 <= drawn[k].v1 <= n && drawn[k].v0 != drawn[k].v1 {
      assert StrokeOk(tr, seg, drawn[k], R);
      assert PlanAt(tr, seg, drawn[k].at, 0, FromUp).Split?;
    }
    if forall k :: 0 <= k < |drawn| ==> OwnAt(angle, D, drawn, k) { OwnStrokesLoseNone(angle, D, n, cs, drawn); }
  }

  lemma WalkIsDone(angle: AngleMeasure, tr: seq<Trap>, seg: seq<Segment>, D: Drawing, before: seq<bool>, E: Drawing,
                   after: seq<bool>, start: int, log: seq<Stop>)
    requires 0 < start < |tr| == |before| == |after| && (forall k :: 0 <= k < |before| ==> !before[k])
    requires var A := if SetsOut(tr[start]) then Some(start) else {}; Explored(tr, before, after, A, Reachable(tr, start))
    requires SetsOut(tr[start]) || after == before
    requires Walked(angle, tr, seg, Given(FirstCall(tr, start)), D, before, E, after, log)
    ensures forall x :: 0 <= x < |tr| ==> (after[x] <==> SetsOut(tr[start]) && x in Reachable(tr, start))
    ensures var S := if SetsOut(tr[start]) then Reachable(tr, start) else {};
            && LogOf(tr, seg, Given(FirstCall(tr, start)), D.pool.last, log, S)
            && (AllPlaced(tr, seg, S) && Mutual(tr, S) ==> WalkedRight(tr, seg, start, log))
  {
    var S := if SetsOut(tr[start]) then Reachable(tr, start) else {};
    if SetsOut(tr[start]) { WalkVisitsReachable(tr, before, after, start); }
    assert NewlyVisited(before, after) == S;
    if AllPlaced(tr, seg, S) && Mutual(tr, S) && SetsOut(tr[start]) {
      WalkIsRight(tr, seg, FirstCall(tr, start), D.pool.last, log, S);
    }
  }

  class Monotone {
    const mchain: array<Link>          // the chain elements of all polygons
    const vert: array<VertexChain>     // the chains through each vertex
    const mon: array<int>              // a position on each polygon
    const visited: array<bool>         // trapezoids already walked
    const tr: seq<Trap>                // the finished trapezoidation, read only
    const seg: seq<Segment>
    const angle: AngleMeasure          // how get_vertex_positions measures an angle
    var chainIdx: int
    var monIdx: int
    var op: seq<Triangle>              // the triangles emitted so far
    ghost var shape: Shape
    ghost const n: int
    ghost const contours: seq<seq<int>>

    /** The tables cleared and filled from the contours' segments. */
    constructor (tr: seq<Trap>, seg: seq<Segment>, angle: AngleMeasure, n: int,
                 ghost cntr: seq<nat>, ghost vertices: seq<Point>)
      requires 1 <= n == Contours.Sum(cntr) < |seg| && |tr| == 4 * |seg|
      requires Contours.ContoursOk(seg, vertices, Contours.Blocks(cntr, 1))
      ensures Valid() && this.tr == tr && this.seg == seg && this.n == n
      ensures contours == Contours.Blocks(cntr, 1) && chainIdx == n && monIdx == 0 && op == []
      ensures mchain.Length == visited.Length == |tr| && vert.Length == mon.Length == |seg|
      ensures fresh(mchain) && fresh(vert) && fresh(mon) && fresh(visited)
      ensures forall k :: 0 <= k < visited.Length ==> !visited[k]
      ensures Points() == PointsOf(Contours.InitialVertices(seg, n, |seg|))
    {
      this.tr, this.seg, this.angle := tr, seg, angle;
      mchain := new Link[|tr|](_ => Link(0, 0, 0, false));
      vert := new VertexChain[|seg|](_ => VertexChain(ORIGIN, [], []));
      mon := new int[|seg|](_ => 0);
      visited := new bool[|tr|](_ => false);
      chainIdx, monIdx, op := n, 0, [];
      this.n, contours, shape := n, Contours.Blocks(cntr, 1), Shape(Contours.Blocks(cntr, 1), 0);
      new;
      for i := 1 to n + 1
        modifies mchain, vert
        invariant mchain[..] == Contours.InitialChains(seg, i - 1, |tr|)
        invariant vert[..] == Contours.InitialVertices(seg, i - 1, |seg|)
        invariant forall k :: 0 <= k < visited.Length ==> !visited[k]
      {
        mchain[i] := Link(i, seg[i].next, seg[i].prev, false);
        vert[i] := VertexChain(seg[i].v0, [seg[i].next], [i]);
      }
      mon[0] := 1;
      Contours.InitialPoolIsCoherent(seg, vertices, cntr, |tr|, State());
    }

    ghost function State(): Pool
      reads this, mchain, vert, mon
    {
      Pool(mchain[..], vert[..], mon[..], chainIdx, monIdx)
    }

    ghost function Now(): Drawing
      reads this, mchain, vert, mon
    {
      Drawing(State(), shape)
    }

    ghost predicate Valid()
      reads this, mchain, vert, mon
    {
      Coherent(State(), shape, n, contours)
    }

    method GetVertexPositions(v0: int, v1: int) returns (ip: nat, iq: nat)
      requires Valid() && 1 <= v0 <= n && 1 <= v1 <= n
      ensures ip == ChooseSlot(angle, vert[..], v0, v1)
      ensures iq == ChooseSlot(angle, vert[..], v1, v0)
      ensures UsableSlot(State(), v0, ip) && UsableSlot(State(), v1, iq)
    {
      assert SlotsOk(State(), v0) && SlotsOk(State(), v1);
      var best := -4.0;
      ip := 0;
      for i := 0 to |vert[v0].vnext|
        invariant (ip, best) == Widest(angle, vert[..], vert[v0], vert[v1].pt, i)
      {
        var nx := vert[v0].vnext[i];
        if 0 < nx < vert.Length {
          var temp := angle(vert[v0].pt, vert[nx].pt, vert[v1].pt);
          if temp > best { best, ip := temp, i; }
        }
      }
      best := -4.0;
      iq := 0;
      for i := 0 to |vert[v1].vnext|
        invariant (iq, best) == Widest(angle, vert[..], vert[v1], vert[v0].pt, i)
      {
        var nx := vert[v1].vnext[i];
        if 0 < nx < vert.Length {
          var temp := angle(vert[v1].pt, vert[nx].pt, vert[v0].pt);
          if temp > best { best, iq := temp, i; }
        }
      }
      WidestIsUsed(angle, vert[..], vert[v0], vert[v1].pt, |vert[v0].vnext|);
      WidestIsUsed(angle, vert[..], vert[v1], vert[v0].pt, |vert[v1].vnext|);
    }

    method MakeNewMonotonePoly(mcur: int, v0: int, v1: int) returns (mnew: int)
      requires Valid() && 1 <= v0 <= n && 1 <= v1 <= n && v0 != v1
      requires 0 <= mcur <= monIdx && monIdx + 1 < mon.Length && chainIdx + 2 < mchain.Length
      modifies mchain, vert, mon, `chainIdx, `monIdx, `shape
      ensures Valid() && mnew == monIdx == old(monIdx) + 1 && Points() == old(Points())
      ensures old(CanStrike(angle, State(), mcur, v0, v1)) && chainIdx == old(chainIdx) + 2
      ensures Now() == Struck(angle, old(Now()), mcur, v0, v1)
    {
      var ip, iq := GetVertexPositions(v0, v1);
      ghost var D := Now();
      StrikeIsGood(angle, D, n, contours, mcur, v0, v1);
      DiagonalKeepsPoints(D.pool, mcur, v0, v1, ip, iq);
      mnew := StoreDiagonal(mcur, v0, v1, ip, iq);
      shape := Struck(angle, D, mcur, v0, v1).shape;
    }

    /** The table updates of make_new_monotone_poly, once the slots are chosen. */
    method StoreDiagonal(mcur: int, v0: int, v1: int, ip: nat, iq: nat) returns (mnew: int)
      requires v0 != v1 && UsableSlot(State(), v0, ip) && UsableSlot(State(), v1, iq)
      requires 0 <= mcur <= monIdx && monIdx + 1 < mon.Length
      requires 0 < chainIdx && chainIdx + 2 < mchain.Length
      requires var p, q := vert[v0].vpos[ip], vert[v1].vpos[iq];
               && 0 < p <= chainIdx && 0 < q <= chainIdx
               && 0 < mchain[p].next <= chainIdx && 0 < mchain[q].prev <= chainIdx
               && (mchain[q].prev == p ==> mchain[p].next == q)
      modifies mchain, vert, mon, `chainIdx, `monIdx
      ensures State() == AddDiagonal(old(State()), mcur, v0, v1, ip, iq)
      ensures mnew == monIdx
    {
      monIdx := monIdx + 1;
      mnew := monIdx;
      var p := vert[v0].vpos[ip];
      var q := vert[v1].vpos[iq];
      chainIdx := chainIdx + 1;
      var i := chainIdx;
      chainIdx := chainIdx + 1;
      var j := chainIdx;
      Splice(p, q, i, j, v0, v1);
      AttachSlots(v0, v1, ip, i, j);
      mon[mcur] := p;
      mon[mnew] := i;
    }

    /** The vertex table's share of a diagonal. */
    method AttachSlots(v0: int, v1: int, ip: nat, i: int, j: int)
      requires 0 <= v0 < vert.Length && 0 <= v1 < vert.Length && v0 != v1
      requires ip < |vert[v0].vnext| && 0 <= i < mchain.Length
      modifies vert
      ensures vert[..] == AddSlots(old(vert[..]), v0, v1, ip, VnumAt(mchain[..], mchain[i].next), i, j)
    {
      vert[v0] := vert[v0].(vnext := vert[v0].vnext[ip := v1]);
      vert[v0] := vert[v0].(vpos := vert[v0].vpos + [i],
                            vnext := vert[v0].vnext + [VnumAt(mchain[..], mchain[i].next)]);
      vert[v1] := vert[v1].(vpos := vert[v1].vpos + [j], vnext := vert[v1].vnext + [v0]);
    }

    /** The pointer surgery of make_new_monotone_poly, store by store. */
    method Splice(p: int, q: int, i: int, j: int, v0: int, v1: int)
      requires 0 < p < mchain.Length && 0 < q < mchain.Length && 0 < i < mchain.Length && 0 < j < mchain.Length
      requires p != i && p != j && q != i && q != j && i != j
      requires 0 < mchain[p].next < mchain.Length && mchain[p].next != i && mchain[p].next != j
      requires 0 < mchain[q].prev < mchain.Length && mchain[q].prev != i && mchain[q].prev != j
      requires mchain[q].prev == p ==> mchain[p].next == q
      modifies mchain
      ensures mchain[..] == Spliced(old(mchain[..]), p, q, i, j, v0, v1)
    {
      ghost var t := mchain[..];
      JoinCopies(p, i, j, v0, v1);
      ghost var t6, b := mchain[..], BeforeCopy(t, p, q, i);
      assert mchain[q].prev == b;
      mchain[j] := mchain[j].(prev := mchain[q].prev);
      mchain[mchain[q].prev] := mchain[mchain[q].prev].(next := j);
      ghost var t8 := SetNext(SetPrev(t6, j, b), b, j);
      assert mchain[..] == t8;

      mchain[p] := mchain[p].(next := q);
      mchain[q] := mchain[q].(prev := p);
      assert mchain[..] == SetPrev(SetNext(t8, p, q), q, p);
      StoresSplice(t, p, q, i, j, b, v0, v1);
    }

    /** Its first stores: the copies i and j are filled in and joined, and i takes over what
        came after p. */
    method JoinCopies(p: int, i: int, j: int, v0: int, v1: int)
      requires 0 < p < mchain.Length && 0 < i < mchain.Length && 0 < j < mchain.Length && i != j && p != i && p != j
      requires 0 < mchain[p].next < mchain.Length && mchain[p].next != i && mchain[p].next != j
      modifies mchain
      ensures var t := old(mchain[..]);
              var t4 := SetPrev(SetNext(SetVnum(SetVnum(t, i, v0), j, v1), i, t[p].next), t[p].next, i);
              mchain[..] == SetNext(SetPrev(t4, i, j), j, i)
    {
      ghost var t := mchain[..];
      mchain[i] := mchain[i].(vnum := v0);
      mchain[j] := mchain[j].(vnum := v1);
      ghost var t2 := SetVnum(SetVnum(t, i, v0), j, v1);
      assert mchain[..] == t2;

      mchain[i] := mchain[i].(next := mchain[p].next);
      mchain[mchain[p].next] := mchain[mchain[p].next].(prev := i);
      ghost var t4 := SetPrev(SetNext(t2, i, t[p].next), t[p].next, i);
      assert mchain[..] == t4;
      mchain[i] := mchain[i].(prev := j);
      mchain[j] := mchain[j].(next := i);
      assert mchain[..] == SetNext(SetPrev(t4, i, j), j, i);
    }

    ghost function Points(): (p: seq<Point>)
      reads vert
    {
      PointsOf(vert[..])
    }

    /** Room for one more diagonal per trapezoid of R still to be walked. */
    ghost predicate Roomy(R: set<int>)
      reads this, visited
    {
      && chainIdx + 2 * |Unvisited(visited[..], R)| < mchain.Length
      && monIdx + |Unvisited(visited[..], R)| < mon.Length
    }

    /** The splitter: it walks exactly the trapezoids that can be reached from the first
        triangle inside, and draws exactly the diagonals these call for. */
    method MonotonateTrapezoids(ghost R: set<int>) returns (nmonpoly: int, ghost start: int, ghost log: seq<Stop>)
      requires Valid() && monIdx == 0 && visited.Length == |tr|
      requires forall k :: 0 <= k < visited.Length ==> !visited[k]
      requires Splittable(tr, seg, R, n) && Roomy(R)
      requires forall k :: 0 <= k < |tr| && InsidePolygon(seg, tr[k]) ==> k in R
      requires exists k :: 0 <= k < |tr| && InsidePolygon(seg, tr[k])
      modifies mchain, vert, mon, visited, `chainIdx, `monIdx, `shape
      ensures Valid() && Points() == old(Points())
      ensures 0 < start < |tr| && InsidePolygon(seg, tr[start])
      ensures forall k :: 0 <= k < start ==> !InsidePolygon(seg, tr[k])
      ensures forall x :: 0 <= x < |tr| ==>
                (visited[x] <==> SetsOut(tr[start]) && x in Reachable(tr, start))
      ensures RecordOf(log, start) && EntriesKept(old(Now()), log)
      ensures Now() == AfterAll(angle, old(Now()), Strokes(tr, seg, log))
      ensures nmonpoly == monIdx + 1 == 1 + |Strokes(tr, seg, log)|
    {
      ghost var v0 := visited[..];
      var i := FirstInside();
      start := i;
      ReachableIsSplittable(tr, seg, R, n, start);
      ghost var S := Reachable(tr, start);
      FewerUnvisited(v0, S, R);
      log := WalkAll(i, S);
      nmonpoly := monIdx + 1;
    }

    /** The walk from trapezoid i, with nothing visited before. */
    method WalkAll(i: int, ghost S: set<int>) returns (ghost log: seq<Stop>)
      requires Valid() && monIdx == 0 && visited.Length == |tr| && forall k :: 0 <= k < visited.Length ==> !visited[k]
      requires 0 < i < |tr| && S == Reachable(tr, i) && Splittable(tr, seg, S, n) && i in S && Roomy(S)
      modifies mchain, vert, mon, visited, `chainIdx, `monIdx, `shape
      ensures Valid() && Points() == old(Points())
      ensures forall x :: 0 <= x < |tr| ==> (visited[x] <==> SetsOut(tr[i]) && x in S)
      ensures Now() == AfterAll(angle, old(Now()), Strokes(tr, seg, log)) && monIdx == |Strokes(tr, seg, log)|
      ensures RecordOf(log, i) && EntriesKept(old(Now()), log)
    {
      ghost var v0, D := visited[..], Now();
      log := WalkFrom(i, S);
      WalkIsDone(angle, tr, seg, D, v0, Now(), visited[..], i, log);
      WalkKeepsEntries(angle, tr, seg, if SetsOut(tr[i]) then S else {}, n, contours, D, Strokes(tr, seg, log));
    }

    /** The record of a whole walk from trapezoid i: once at each trapezoid that can be reached;
        and where these are well placed, with right diagonals and the right polygons. */
    ghost predicate RecordOf(log: seq<Stop>, i: int)
      requires 0 <= i < |tr|
    {
      var S := if SetsOut(tr[i]) then Reachable(tr, i) else {};
      && LogOf(tr, seg, Given(FirstCall(tr, i)), 0, log, S)
      && (AllPlaced(tr, seg, S) && Mutual(tr, S) ==> WalkedRight(tr, seg, i, log))
    }

    /** If every diagonal touched the polygon it was to split, no polygon lost its entry. */
    ghost predicate EntriesKept(D: Drawing, log: seq<Stop>) {
      var drawn := Strokes(tr, seg, log);
      (forall k :: 0 <= k < |drawn| ==> OwnAt(angle, D, drawn, k)) ==> NoEntryLost(D, AfterAll(angle, D, drawn))
    }

    /** The walk sets out from its first trapezoid, with polygon 0. */
    method WalkFrom(i: int, ghost S: set<int>) returns (ghost log: seq<Stop>)
      requires Valid() && 0 <= monIdx && visited.Length == |tr|
      requires Splittable(tr, seg, S, n) && i in S && Roomy(S)
      modifies mchain, vert, mon, visited, `chainIdx, `monIdx, `shape
      ensures Valid() && Points() == old(Points())
      ensures Explored(tr, old(visited[..]), visited[..], if SetsOut(tr[i]) then Some(i) else {}, S)
      ensures SetsOut(tr[i]) || visited[..] == old(visited[..])
      ensures Walked(angle, tr, seg, Given(FirstCall(tr, i)), old(Now()), old(visited[..]), Now(), visited[..], log)
    {
      if tr[i].u0 > 0 {
        log := TraversePolygon(0, i, tr[i].u0, FromUp, S);
      } else if tr[i].d0 > 0 {
        log := TraversePolygon(0, i, tr[i].d0, FromDown, S);
      } else {
        log := [];
        NothingExplored(tr, visited[..], {}, S);
        WalkedNowhere(angle, tr, seg, Given(FirstCall(tr, i)), Now(), visited[..]);
      }
    }

    /** The first triangle inside. */
    method FirstInside() returns (i: int)
      requires exists k :: 0 <= k < |tr| && InsidePolygon(seg, tr[k])
      ensures 0 <= i < |tr| && InsidePolygon(seg, tr[i]) && forall k :: 0 <= k < i ==> !InsidePolygon(seg, tr[k])
    {
      i := 0;
      while i < |tr| && !InsidePolygon(seg, tr[i])
        invariant 0 <= i <= |tr| && forall k :: 0 <= k < i ==> !InsidePolygon(seg, tr[k])
      {
        i := i + 1;
      }
    }

    /** The walk over the neighbours: whatever `trnum` reaches inside the region R is visited
        once, and exactly the diagonals these trapezoids call for are drawn. The record tells
        with which polygon each was entered, and from where. */
    method TraversePolygon(mcur: int, trnum: int, from: int, dir: From, ghost R: set<int>)
      returns (ghost log: seq<Stop>)
      requires Valid() && 0 <= mcur <= monIdx && visited.Length == |tr|
      requires Splittable(tr, seg, R, n) && (trnum > 0 ==> trnum in R) && Roomy(R)
      modifies mchain, vert, mon, visited, `chainIdx, `monIdx, `shape
      ensures Valid() && Points() == old(Points())
      ensures Explored(tr, old(visited[..]), visited[..], Some(trnum), R)
      ensures Walked(angle, tr, seg, Given(Call(mcur, trnum, from, dir)), old(Now()), old(visited[..]), Now(),
                     visited[..], log)
      decreases |Unvisited(visited[..], R)|, 0
    {
      ghost var v0, call := visited[..], Call(mcur, trnum, from, dir);
      if trnum <= 0 || visited[trnum] {
        NothingExplored(tr, v0, Some(trnum), R);
        WalkedNowhere(angle, tr, seg, Given(call), Now(), v0);
        return [];
      }
      ghost var D, s := Now(), Stop(call, monIdx);
      var mnew, plan := EnterTrapezoid(mcur, trnum, from, dir, R);
      ghost var E := Now();
      VisitsBegin(s, R);
      ghost var v1 := visited[..];
      ghost var later := VisitFrom(mcur, mnew, trnum, plan.visits, 0, R, s, E, v1, Points(), []);
      VisitsEnd(s, E, v1, old(Points()), plan.visits, R, later);
      WalkedNode(angle, tr, seg, D, v0, E, Now(), visited[..], s, R, later);
      log := [s] + later;
    }

    /** Mark the trapezoid, and draw its diagonal if it calls for one. */
    method EnterTrapezoid(mcur: int, trnum: int, from: int, dir: From, ghost R: set<int>)
      returns (mnew: int, plan: Plan)
      requires Valid() && 0 <= mcur <= monIdx && visited.Length == |tr|
      requires Splittable(tr, seg, R, n) && trnum in R && !visited[trnum] && Roomy(R)
      modifies mchain, vert, mon, visited, `chainIdx, `monIdx, `shape
      ensures Valid() && Points() == old(Points()) && 0 <= mcur <= monIdx && 0 <= mnew <= monIdx && Roomy(R)
      ensures visited[..] == old(visited[..])[trnum := true]
      ensures |Unvisited(visited[..], R)| < |Unvisited(old(visited[..]), R)|
      ensures plan == PlanAt(tr, seg, trnum, from, dir) && Reached(plan.visits, |plan.visits|) == Neighbours(tr, trnum) <= R
      ensures var s := Stop(Call(mcur, trnum, from, dir), old(monIdx));
              mnew == Other(tr, seg, s) && Entered(angle, tr, seg, s, old(Now()), Now())
    {
      visited[trnum] := true;
      MarkShrinks(old(visited[..]), R, trnum);
      assert visited[..] == old(visited[..])[trnum := true];
      PlanVisitsAllNeighbours(tr, seg, trnum, from, dir);
      mnew, plan := DrawHere(mcur, trnum, from, dir);
    }

    /** The diagonal the trapezoid calls for. */
    method DrawHere(mcur: int, trnum: int, from: int, dir: From) returns (mnew: int, plan: Plan)
      requires Valid() && 0 <= mcur <= monIdx && monIdx + 1 < mon.Length && chainIdx + 2 < mchain.Length
      requires var p := PlanAt(tr, seg, trnum, from, dir); p.Split? ==> 1 <= p.v0 <= n && 1 <= p.v1 <= n && p.v0 != p.v1
      modifies mchain, vert, mon, `chainIdx, `monIdx, `shape
      ensures Valid() && Points() == old(Points()) && plan == PlanAt(tr, seg, trnum, from, dir)
      ensures monIdx == old(monIdx) + (if plan.Split? then 1 else 0) && 0 <= mnew <= monIdx
      ensures chainIdx == old(chainIdx) + (if plan.Split? then 2 else 0)
      ensures var s := Stop(Call(mcur, trnum, from, dir), old(monIdx));
              mnew == Other(tr, seg, s) && Entered(angle, tr, seg, s, old(Now()), Now())
    {
      ghost var D, s := Now(), Stop(Call(mcur, trnum, from, dir), monIdx);
      plan := PlanAt(tr, seg, trnum, from, dir);
      mnew := mcur;
      if plan.Split? {
        mnew := MakeNewMonotonePoly(mcur, plan.v0, plan.v1);
      }
      EntersWith(angle, tr, seg, s, D, Now());
    }

    /** The recursive calls of traverse_polygon at one trapezoid, in the planned order, from
        number k on. */
    method VisitFrom(mcur: int, mnew: int, trnum: int, visits: seq<Visit>, k: nat, ghost R: set<int>, ghost s: Stop,
                     ghost D: Drawing, ghost v1: seq<bool>, ghost pts: seq<Point>, ghost here: seq<Stop>)
      returns (ghost log: seq<Stop>)
      requires k <= |visits| && VisitedUpTo(s, D, v1, pts, visits, k, R, here)
      requires MayVisit(mcur, mnew, trnum, visits, R, s, D, v1)
      modifies mchain, vert, mon, visited, `chainIdx, `monIdx, `shape
      ensures VisitedUpTo(s, D, v1, pts, visits, |visits|, R, log)
      decreases |Unvisited(visited[..], R)|, 2, |visits| - k
    {
      log := here;
      if k < |visits| {
        log := VisitNext(mcur, mnew, trnum, visits, k, R, s, D, v1, pts, here);
        log := VisitFrom(mcur, mnew, trnum, visits, k + 1, R, s, D, v1, pts, log);
      }
    }

    /** What the calls at a stop need, from first to last. */
    ghost predicate MayVisit(mcur: int, mnew: int, trnum: int, visits: seq<Visit>, R: set<int>, s: Stop, D: Drawing,
                             v1: seq<bool>) {
      && 0 <= mcur <= D.pool.last && 0 <= mnew <= D.pool.last && visited.Length == |tr|
      && mcur == s.call.mcur && mnew == Other(tr, seg, s) && trnum == s.call.to
      && Splittable(tr, seg, R, n) && Reached(visits, |visits|) <= R
      && D.pool.m + 2 * |Unvisited(v1, R)| < mchain.Length && D.pool.last + |Unvisited(v1, R)| < mon.Length
    }

    lemma VisitsBegin(s: Stop, R: set<int>)
      requires Valid()
      ensures VisitedUpTo(s, Now(), visited[..], Points(), PlanOf(tr, seg, s.call).visits, 0, R, [])
    {
      NothingExplored(tr, visited[..], {}, R);
      WalkedNowhere(angle, tr, seg, Under(s), Now(), visited[..]);
      assert TouredUpTo(s, Now(), visited[..], Points(), PlanOf(tr, seg, s.call).visits, 0, R, [], Now(), visited[..]);
    }

    lemma VisitsEnd(s: Stop, D: Drawing, v1: seq<bool>, pts: seq<Point>, visits: seq<Visit>, R: set<int>, log: seq<Stop>)
      requires VisitedUpTo(s, D, v1, pts, visits, |visits|, R, log)
      ensures TouredUpTo(s, D, v1, pts, visits, |visits|, R, log, Now(), visited[..])
    {
    }

    /** The first k of the planned visits were made. */
    ghost predicate VisitedUpTo(s: Stop, D: Drawing, v1: seq<bool>, pts: seq<Point>, visits: seq<Visit>, k: nat,
                                R: set<int>, log: seq<Stop>)
      requires k <= |visits|
      reads this, mchain, vert, mon, visited
    {
      exists E, v2 :: E == Now() && v2 == visited[..] && TouredUpTo(s, D, v1, pts, visits, k, R, log, E, v2)
    }

    /** They led to drawing E, with v2 visited. */
    ghost predicate TouredUpTo(s: Stop, D: Drawing, v1: seq<bool>, pts: seq<Point>, visits: seq<Visit>, k: nat,
                               R: set<int>, log: seq<Stop>, E: Drawing, v2: seq<bool>)
      requires k <= |visits|
    {
      && Coherent(E.pool, E.shape, n, contours) && PointsOf(E.pool.vs) == pts
      && Explored(tr, v1, v2, Reached(visits, k), R)
      && visits == PlanOf(tr, seg, s.call).visits && Walked(angle, tr, seg, Under(s), D, v1, E, v2, log)
    }

    method VisitNext(mcur: int, mnew: int, trnum: int, visits: seq<Visit>, k: nat, ghost R: set<int>, ghost s: Stop,
                     ghost D: Drawing, ghost v1: seq<bool>, ghost pts: seq<Point>, ghost here: seq<Stop>)
      returns (ghost log: seq<Stop>)
      requires k < |visits| && VisitedUpTo(s, D, v1, pts, visits, k, R, here)
      requires MayVisit(mcur, mnew, trnum, visits, R, s, D, v1)
      modifies mchain, vert, mon, visited, `chainIdx, `monIdx, `shape
      ensures VisitedUpTo(s, D, v1, pts, visits, k + 1, R, log)
      ensures |Unvisited(visited[..], R)| <= |Unvisited(old(visited[..]), R)|
      decreases |Unvisited(visited[..], R)|, 1
    {
      ghost var v2, E := visited[..], Now();
      assert TouredUpTo(s, D, v1, pts, visits, k, R, here, E, v2);
      RoomForVisit(angle, tr, seg, Under(s), D, v1, E, v2, visits, k, R, here);
      ghost var more := TraversePolygon(if visits[k].onNew then mnew else mcur, visits[k].to, trnum, visits[k].dir, R);
      WalkedVisit(angle, tr, seg, s, D, v1, E, v2, Now(), visited[..], k, R, here, more);
      log := here + more;
      assert TouredUpTo(s, D, v1, pts, visits, k + 1, R, log, Now(), visited[..]);
    }

    /** The cutter: convex corners are cut off a monotone polygon as soon as they appear; r is
        the polygon's ring in the order the cutter walks it. */
    method TriangulateSinglePolygon(nvert: int, posmax: int, side: Side, ghost r: seq<int>)
      requires Walkable(mchain[..], Points(), r, posmax, side, vert.Length)
      modifies `op
      ensures var w := Vertices(mchain[..], r); op == old(op) + Cut(Points(), w[..2], w[2..])
    {
      ghost var w := Vertices(mchain[..], r);
      WalkStarts(mchain[..], Points(), r, posmax, side, vert.Length);
      WalkIsLaidOut(r, posmax, side);
      var rc := new int[vert.Length];
      var ri, tmp, vpos, v, endv;
      if side == RightStraight {
        rc[0] := mchain[posmax].vnum;
        tmp := mchain[posmax].next;
        rc[1] := mchain[tmp].vnum;
        ri := 1;
        vpos := mchain[tmp].next;
        v := mchain[vpos].vnum;
        endv := mchain[mchain[posmax].prev].vnum;
        if endv == 0 { endv := nvert; }
      } else {
        tmp := mchain[posmax].next;
        rc[0] := mchain[tmp].vnum;
        tmp := mchain[tmp].next;
        rc[1] := mchain[tmp].vnum;
        ri := 1;
        vpos := mchain[tmp].next;
        v := mchain[vpos].vnum;
        endv := mchain[posmax].vnum;
      }
      assert rc[0] == w[0] && rc[1] == w[1];
      CutChain(rc, vpos, endv, r, w);
    }

    lemma WalkIsLaidOut(r: seq<int>, posmax: int, side: Side)
      requires Walkable(mchain[..], Points(), r, posmax, side, vert.Length)
      ensures LaidOut(r, Vertices(mchain[..], r))
    {
      var t, w := mchain[..], Vertices(mchain[..], r);
      forall k | 0 <= k < |w| ensures 0 < r[k] < mchain.Length && mchain[r[k]].vnum == w[k] { assert LinkedAt(t, r, k); }
      forall k: nat | 2 <= k < |w| - 1 ensures FollowedBy(r, k) { assert LinkedAt(t, r, k); }
    }

    /** The ring r with vertex numbers w, laid out in the pool for the cutter to walk. */
    ghost predicate LaidOut(r: seq<int>, w: seq<int>)
      reads mchain, vert
    {
      && |r| == |w| && 2 < |w|
      && (forall k :: 0 <= k < |w| ==> 0 < r[k] < mchain.Length && mchain[r[k]].vnum == w[k])
      && (forall k :: 0 <= k < |w| ==> 0 < w[k] < vert.Length)
      && (forall k: nat :: 2 <= k < |w| - 1 ==> FollowedBy(r, k))
    }

    ghost predicate FollowedBy(r: seq<int>, k: nat)
      requires k + 1 < |r|
      reads mchain
    {
      0 <= r[k] < mchain.Length && mchain[r[k]].next == r[k + 1]
    }

    /** The cutter's loop, from the two vertices in rc and the walk at position vpos. */
    method CutChain(rc: array<int>, start: int, endv: int, ghost r: seq<int>, ghost w: seq<int>)
      requires LaidOut(r, w) && |w| <= rc.Length && rc != mon
      requires Distinct(w) && Arrives(Points(), w[..2], w[2..]) && endv == w[|w| - 1] && start == r[2]
      requires rc[0] == w[0] && rc[1] == w[1]
      modifies rc, `op
      ensures op == old(op) + Cut(Points(), w[..2], w[2..])
    {
      ghost var pts, m := Points(), |w|;
      var vpos := start;
      var v := mchain[vpos].vnum;
      var ri := 1;
      ghost var k, st := 2, w[..2];
      while v != endv || ri > 1
        invariant 2 <= k < m && ri < k && vpos == r[k] && v == w[k]
        invariant Holds(rc, ri, st) && Arrives(pts, st, w[k..])
        invariant op + Cut(pts, st, w[k..]) == old(op) + Cut(pts, w[..2], w[2..])
        decreases m - k, ri
      {
        ri, v, vpos, st, k := CutRound(rc, ri, v, vpos, st, k, r, w, pts);
      }
      assert w[k..] == [v] && st == [rc[0], rc[1]];
      op := op + [Triangle(rc[ri - 1], rc[ri], v)];
    }

    /** Does the chain turn left at b, between a and v? */
    method IsConvex(v: int, a: int, b: int) returns (convex: bool)
      requires 0 <= v < vert.Length && 0 <= a < vert.Length && 0 <= b < vert.Length
      ensures convex <==> CrossAt(Points(), v, a, b) > 0.0
    {
      convex := Cross(vert[v].pt, vert[a].pt, vert[b].pt) > 0.0;
    }

    /** One round: a convex corner is cut off, otherwise v joins the chain. */
    method CutRound(rc: array<int>, ri0: int, v0: int, vpos0: int, ghost st0: seq<int>, ghost k0: nat,
                    ghost r: seq<int>, ghost w: seq<int>, ghost pts: seq<Point>)
      returns (ri: int, v: int, vpos: int, ghost st: seq<int>, ghost k: nat)
      requires LaidOut(r, w) && |w| <= rc.Length && rc != mon && pts == Points()
      requires 2 <= k0 < |w| && ri0 < k0 && vpos0 == r[k0] && v0 == w[k0]
      requires Holds(rc, ri0, st0) && Arrives(pts, st0, w[k0..]) && (k0 < |w| - 1 || ri0 > 1)
      modifies rc, `op
      ensures 2 <= k < |w| && ri < k && vpos == r[k] && v == w[k]
      ensures (k == k0 && ri == ri0 - 1) || k == k0 + 1
      ensures Holds(rc, ri, st) && Arrives(pts, st, w[k..])
      ensures op + Cut(pts, st, w[k..]) == old(op) + Cut(pts, st0, w[k0..])
    {
      ri, v, vpos, st, k := ri0, v0, vpos0, st0, k0;
      assert w[k..][0] == v;
      var convex := false;
      if ri > 0 { convex := IsConvex(v, rc[ri - 1], rc[ri]); }
      assert convex == LastConvex(pts, st, w[k..]);
      if convex {          // convex corner: cut it off
        op := op + [Triangle(rc[ri - 1], rc[ri], v)];
        st := st[..ri];
        ri := ri - 1;
      } else {             // v is left for later
        assert w[k..][1..] == w[k + 1..];
        ri, v, vpos := Advance(rc, ri, v, vpos, st, k, r, w);
        st, k := st + [v0], k + 1;
      }
    }

    /** The chain grows by v, and the walk goes on. */
    method Advance(rc: array<int>, ri0: int, v0: int, vpos0: int, ghost st: seq<int>, ghost k: nat,
                   ghost r: seq<int>, ghost w: seq<int>)
      returns (ri: int, v: int, vpos: int)
      requires LaidOut(r, w) && rc != mon && Holds(rc, ri0, st) && ri0 + 1 < rc.Length
      requires 2 <= k < |w| - 1 && vpos0 == r[k] && v0 == w[k]
      modifies rc
      ensures ri == ri0 + 1 && vpos == r[k + 1] && v == w[k + 1] && Holds(rc, ri, st + [v0])
    {
      ri := ri0 + 1;
      rc[ri] := v0;
      assert FollowedBy(r, k);
      vpos := mchain[vpos0].next;
      v := mchain[vpos].vnum;
    }

    /** The reflex chain st sits in rc[0..ri]. */
    ghost predicate Holds(rc: array<int>, ri: int, st: seq<int>)
      reads rc
    {
      && 0 <= ri < rc.Length && |st| == ri + 1
      && forall i :: 0 <= i <= ri ==> rc[i] == st[i] && 0 < st[i] < vert.Length
    }

    /** Walk one polygon from its entry: mark it, and find its top and its lowest point.
        A polygon some other entry already led to is recognised by its marks. */
    method ScanPolygon(first: int, ghost c: seq<int>, ghost done: bool, ghost pts: seq<Point>)
      returns (processed: bool, vcount: int, p: int, posmax: int, ymin: Point)
      requires pts == Points() && Scannable(mchain[..], c, vert.Length, done) && c[0] == first
      modifies mchain
      ensures SameLinks(old(mchain[..]), mchain[..]) && ChangedWithin(old(mchain[..]), mchain[..], c)
      ensures MarkedAs(mchain[..], c, true) && processed == done
      ensures !done ==> vcount == |c| && p == first
      ensures !done ==> IsTop(old(mchain[..]), pts, c, posmax) && IsLowest(old(mchain[..]), pts, c, ymin)
    {
      ghost var t, n := mchain[..], |c|;
      vcount := 1;
      processed := false;
      assert LinkedAt(t, c, 0);
      var vfirst := mchain[first].vnum;
      var ymax := vert[vfirst].pt;
      ymin := vert[vfirst].pt;
      posmax := first;
      Mark(first, t, c, 0);
      p := mchain[first].next;
      var v := mchain[p].vnum;
      assert PointAt(t, pts, c[0]) == ymax;
      while v != vfirst
        invariant 1 <= vcount <= n && p == c[After(vcount - 1, n)] && v == t[p].vnum
        invariant mchain[..] == MarkFirst(t, c, vcount) && (done ==> vcount == 1)
        invariant TopSoFar(t, pts, c, vcount, posmax, ymax) && LowSoFar(t, pts, c, vcount, ymin)
        decreases n - vcount
      {
        assert vcount < n;
        MarkFirstMarks(t, c, vcount, vcount, done);
        if mchain[p].marked {
          processed := true;
          break;
        }
        p, v, posmax, ymax, ymin := ScanNext(p, v, posmax, ymax, ymin, t, pts, c, vcount);
        vcount := vcount + 1;
      }
      if !processed { FirstIsUnique(t, c, vcount); FirstIsUnique(t, c, 1); }
      MarkFirstLinks(t, c, vcount);
      MarkFirstRing(t, c, vcount, done);
    }

    /** One more position of a polygon that was not led to before. */
    method ScanNext(p0: int, v0: int, posmax0: int, ymax0: Point, ymin0: Point,
                    ghost t: Table, ghost pts: seq<Point>, ghost c: seq<int>, ghost k: nat)
      returns (p: int, v: int, posmax: int, ymax: Point, ymin: Point)
      requires pts == Points() && IsRing(t, c) && PositionsOk(t, c, vert.Length) && k < |c| && p0 == c[k]
      requires v0 == t[p0].vnum && mchain[..] == MarkFirst(t, c, k)
      requires TopSoFar(t, pts, c, k, posmax0, ymax0) && LowSoFar(t, pts, c, k, ymin0)
      modifies mchain
      ensures p == c[After(k, |c|)] && v == t[p].vnum && mchain[..] == MarkFirst(t, c, k + 1)
      ensures TopSoFar(t, pts, c, k + 1, posmax, ymax) && LowSoFar(t, pts, c, k + 1, ymin)
    {
      assert LinkedAt(t, c, k);
      Mark(p0, t, c, k);
      posmax, ymax, ymin := UpdateExtremes(p0, v0, posmax0, ymax0, ymin0, t, pts, c, k);
      p := mchain[p0].next;
      v := mchain[p].vnum;
    }

    /** Triangulate every polygon, each once although several entries may lead to it. The
        triangles are positive, as many as the contours and the merges call for, and they
        bound together exactly what the contours bound. */
    method TriangulateMonotonePolygons(nvert: int, nmonpoly: int) returns (count: int)
      requires Valid() && nmonpoly == monIdx + 1 && AllEntered(State(), shape)
      requires AllCuttable(mchain[..], Points(), shape.rings, vert.Length)
      modifies mchain, `op
      ensures count == |op| == n - 2 * |contours| + 4 * shape.merges
      ensures Positive(Points(), op)
      ensures SameBoundaryAs(op, contours)
    {
      ghost var t, pts, rs := mchain[..], Points(), shape.rings;
      ghost var done := seq(|rs|, _ => false);
      op := [];
      NothingEmitted(pts, t, rs, done);
      var i := 0;
      while i < nmonpoly
        invariant 0 <= i <= nmonpoly && |done| == |rs|
        invariant SameLinks(t, mchain[..]) && MarksAgree(mchain[..], rs, done)
        invariant Emitted(pts, t, rs, done, op) && EntriesDone(mon[..], i, rs, done)
      {
        done := CutNext(nvert, i, t, pts, done);
        i := i + 1;
      }
      PassComplete(pts, t, rs, done, mon[..], i, chainIdx, op);
      count := |op|;
    }

    /** One entry's turn. */
    method CutNext(nvert: int, i: int, ghost t: Table, ghost pts: seq<Point>, ghost done: seq<bool>)
      returns (ghost after: seq<bool>)
      requires 0 <= i <= monIdx < mon.Length && pts == Points() && |done| == |shape.rings|
      requires Partition(t, shape.rings, chainIdx) && 1 <= mon[i] <= chainIdx
      requires AllCuttable(t, pts, shape.rings, vert.Length)
      requires SameLinks(t, mchain[..]) && MarksAgree(mchain[..], shape.rings, done)
      requires Emitted(pts, t, shape.rings, done, op) && EntriesDone(mon[..], i, shape.rings, done)
      modifies mchain, `op
      ensures |after| == |shape.rings| && SameLinks(t, mchain[..])
      ensures MarksAgree(mchain[..], shape.rings, after)
      ensures Emitted(pts, t, shape.rings, after, op) && EntriesDone(mon[..], i + 1, shape.rings, after)
    {
      ghost var u, rs := mchain[..], shape.rings;
      assert OnSome(rs, mon[i]);
      ghost var a := RingOf(rs, mon[i]);
      BeforeTurn(t, u, pts, rs, chainIdx, vert.Length, done, a, mon[i]);
      ghost var ts := CutEntry(nvert, i, RotateTo(rs[a], mon[i]), done[a], pts);
      AfterTurn(t, u, mchain[..], pts, rs, chainIdx, done, a, mon[..], i, old(op), ts);
      after := done[a := true];
    }

    /** Cut the polygon entry i leads to, unless an earlier entry led to it already. */
    method CutEntry(nvert: int, i: int, ghost r: seq<int>, ghost done: bool, ghost pts: seq<Point>)
      returns (ghost ts: seq<Triangle>)
      requires pts == Points() && 0 <= i < mon.Length
      requires Scannable(mchain[..], r, vert.Length, done) && r[0] == mon[i]
      requires CutsWell(mchain[..], pts, r, vert.Length)
      modifies mchain, `op
      ensures SameLinks(old(mchain[..]), mchain[..]) && ChangedWithin(old(mchain[..]), mchain[..], r)
      ensures MarkedAs(mchain[..], r, true) && op == old(op) + ts
      ensures if done then ts == [] else Triangulates(pts, ts, Vertices(old(mchain[..]), r))
    {
      ghost var t := mchain[..];
      var processed, vcount, p, posmax, ymin := ScanPolygon(mon[i], r, done, pts);
      ts := [];
      if !processed {
        if vcount == 3 {
          assert LinkedAt(t, r, 0) && LinkedAt(t, r, 1) && LinkedAt(t, r, 2);
          ts := EmitTriangle(p, t);
        } else {
          ts := CutWalk(nvert, posmax, ymin, t, r, pts);
        }
      }
    }

    /** Already a triangle. */
    method EmitTriangle(p: int, ghost t: Table) returns (ghost ts: seq<Triangle>)
      requires SameLinks(t, mchain[..]) && 0 <= p < |t| && 0 <= t[p].next < |t| && 0 <= t[p].prev < |t|
      modifies `op
      ensures ts == [TriangleAt(t, p)] && op == old(op) + ts
    {
      op := op + [Triangle(mchain[p].vnum, mchain[mchain[p].next].vnum, mchain[mchain[p].prev].vnum)];
      ts := [TriangleAt(t, p)];
    }

    /** Triangulate a longer polygon, its straight side told by the top's successor. */
    method CutWalk(nvert: int, posmax: int, ymin: Point, ghost t: Table, ghost c: seq<int>, ghost pts: seq<Point>)
      returns (ghost ts: seq<Triangle>)
      requires pts == Points() && SameLinks(t, mchain[..])
      requires GoodCut(t, pts, c, vert.Length, posmax, ymin)
      modifies `op
      ensures op == old(op) + ts && Triangulates(pts, ts, Vertices(t, c))
    {
      var v := mchain[mchain[posmax].next].vnum;
      var side := if vert[v].pt == ymin then LeftStraight else RightStraight;
      assert side == SideOf(t, pts, posmax, ymin);
      ghost var r := WalkOf(t, c, posmax, side);
      WalkableSame(t, mchain[..], pts, r, posmax, side, vert.Length);
      TriangulateSinglePolygon(nvert, posmax, side, r);
      ghost var w := Vertices(t, r);
      ts := Cut(pts, w[..2], w[2..]);
    }

    /** Take position p, with vertex v, into the running maximum and minimum. */
    method UpdateExtremes(p: int, v: int, posmax0: int, ymax0: Point, ymin0: Point,
                          ghost t: Table, ghost pts: seq<Point>, ghost c: seq<int>, ghost k: nat)
      returns (posmax: int, ymax: Point, ymin: Point)
      requires pts == Points() && k < |c| && p == c[k] && 0 <= p < |t| && t[p].vnum == v && 0 <= v < vert.Length
      requires TopSoFar(t, pts, c, k, posmax0, ymax0) && LowSoFar(t, pts, c, k, ymin0)
      ensures TopSoFar(t, pts, c, k + 1, posmax, ymax) && LowSoFar(t, pts, c, k + 1, ymin)
    {
      posmax, ymax, ymin := posmax0, ymax0, ymin0;
      ExtremesStep(t, pts, c, k, posmax, ymax, ymin);
      if GreaterThan(vert[v].pt, ymax) {
        ymax := vert[v].pt;
        posmax := p;
      }
      if GreaterThan(ymin, vert[v].pt) {
        ymin := vert[v].pt;
      }
    }

    /** Mark the position the walk along c has reached. */
    method Mark(p: int, ghost t: Table, ghost c: seq<int>, ghost k: nat)
      requires k < |c| && p == c[k] && forall l :: 0 <= l < |c| ==> 0 <= c[l] < |t|
      requires mchain[..] == MarkFirst(t, c, k)
      modifies mchain
      ensures mchain[..] == MarkFirst(t, c, k + 1)
      ensures mchain[p].next == t[p].next
      ensures 0 <= t[p].next < |t| ==> mchain[t[p].next].vnum == t[t[p].next].vnum
    {
      mchain[p] := mchain[p].(marked := true);
      MarkFirstLinks(t, c, k + 1);
      assert mchain[..][p] == mchain[p];
    }
  }
}
