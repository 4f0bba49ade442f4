/** Drawing diagonals: which slot an end point uses, what one diagonal and a series of them
    make of the tables, and whether every polygon keeps an entry. */
module Drawings {
  import opened Plane
  import opened Sequences
  import opened Rings
  import opened Polygons
  import opened Diagonals
  import opened Traversal

  type AngleMeasure = (Point, Point, Point) -> real

  /** Among the first k slots of vertex c, the used one with the widest angle towards
      `other`; slot 0 when none measures above the start value. */
  function Widest(angle: AngleMeasure, vs: seq<VertexChain>, c: VertexChain, other: Point, k: nat): (r: (nat, real))
    requires k <= |c.vnext|
  {
    if k == 0 then (0, -4.0)
    else
      var best := Widest(angle, vs, c, other, k - 1);
      var nx := c.vnext[k - 1];
      if 0 < nx < |vs| && angle(c.pt, vs[nx].pt, other) > best.1
      then (k - 1, angle(c.pt, vs[nx].pt, other)) else best
  }

  function ChooseSlot(angle: AngleMeasure, vs: seq<VertexChain>, v: int, w: int): nat
    requires 0 <= v < |vs| && 0 <= w < |vs|
  {
    Widest(angle, vs, vs[v], vs[w].pt, |vs[v].vnext|).0
  }

  /** The scan settles on a slot in use, and no slot in use is wider. */
  lemma {:induction false} WidestIsUsed(angle: AngleMeasure, vs: seq<VertexChain>, c: VertexChain, other: Point, k: nat)
    requires k <= |c.vnext| && |c.vnext| >= 1 && c.vnext[0] > 0
    ensures Widest(angle, vs, c, other, k).0 < |c.vnext| && c.vnext[Widest(angle, vs, c, other, k).0] > 0
    ensures forall l :: 0 <= l < k && 0 < c.vnext[l] < |vs| ==>
              angle(c.pt, vs[c.vnext[l]].pt, other) <= Widest(angle, vs, c, other, k).1
  {
    if k > 0 { WidestIsUsed(angle, vs, c, other, k - 1); }
  }

  /** Is slot l of c in use, and what does it measure? */
  predicate InUse(vs: seq<VertexChain>, c: VertexChain, l: nat)
    requires l < |c.vnext|
  {
    0 < c.vnext[l] < |vs|
  }

  function MeasureAt(angle: AngleMeasure, vs: seq<VertexChain>, c: VertexChain, other: Point, l: nat): real
    requires l < |c.vnext| && InUse(vs, c, l)
  {
    angle(c.pt, vs[c.vnext[l]].pt, other)
  }

  /** The scan settles on the first of the slots that measure most; on slot 0 only if none
      measures more than -4. */
  lemma {:induction false} WidestWins(angle: AngleMeasure, vs: seq<VertexChain>, c: VertexChain, other: Point, k: nat)
    requires k <= |c.vnext|
    ensures var (r, best) := Widest(angle, vs, c, other, k);
            && (best > -4.0 ==> r < k && InUse(vs, c, r) && MeasureAt(angle, vs, c, other, r) == best)
            && (best <= -4.0 ==> r == 0 && best == -4.0)
            && (forall l :: 0 <= l < k && InUse(vs, c, l) ==> MeasureAt(angle, vs, c, other, l) <= best)
            && (forall l :: 0 <= l < r && l < k && InUse(vs, c, l) ==> MeasureAt(angle, vs, c, other, l) < best)
  {
    if k > 0 { WidestWins(angle, vs, c, other, k - 1); }
  }

  /** The tables, and the polygons they hold. */
  datatype Drawing = Drawing(pool: Pool, shape: Shape)

  /** There are positions and room for the diagonal. */
  predicate CanStrike(angle: AngleMeasure, P: Pool, mcur: int, v0: int, v1: int) {
    && 0 <= v0 < |P.vs| && 0 <= v1 < |P.vs|
    && UsableSlot(P, v0, ChooseSlot(angle, P.vs, v0, v1)) && UsableSlot(P, v1, ChooseSlot(angle, P.vs, v1, v0))
    && 0 <= mcur <= P.last && P.last + 1 < |P.mon| && 0 <= P.m && P.m + 2 < |P.t|
  }

  /** The position on v0's side that the slots lead to. */
  function PositionOf(angle: AngleMeasure, P: Pool, v0: int, v1: int): int
    requires 0 <= v0 < |P.vs| && 0 <= v1 < |P.vs| && UsableSlot(P, v0, ChooseSlot(angle, P.vs, v0, v1))
  {
    P.vs[v0].vpos[ChooseSlot(angle, P.vs, v0, v1)]
  }

  /** The tables after one diagonal, and after a whole series. */
  ghost function Struck(angle: AngleMeasure, D: Drawing, mcur: int, v0: int, v1: int): Drawing {
    var P := D.pool;
    if !CanStrike(angle, P, mcur, v0, v1) then D
    else
      var p, q := PositionOf(angle, P, v0, v1), PositionOf(angle, P, v1, v0);
      Drawing(AddDiagonal(P, mcur, v0, v1, ChooseSlot(angle, P.vs, v0, v1), ChooseSlot(angle, P.vs, v1, v0)),
              if OnSome(D.shape.rings, p) && OnSome(D.shape.rings, q) then AddToShape(D.shape, p, q, P.m) else D.shape)
  }

  /** A diagonal between two vertices may be stored where the slots lead to, and keeps the
      tables coherent. */
  lemma StrikeIsGood(angle: AngleMeasure, D: Drawing, n: int, cs: seq<seq<int>>, mcur: int, v0: int, v1: int)
    requires Coherent(D.pool, D.shape, n, cs) && CanStrike(angle, D.pool, mcur, v0, v1)
    requires 1 <= v0 <= n && 1 <= v1 <= n && v0 != v1
    ensures var P, p, q := D.pool, PositionOf(angle, D.pool, v0, v1), PositionOf(angle, D.pool, v1, v0);
            && 0 < p <= P.m && 0 < q <= P.m && OnSome(D.shape.rings, p) && OnSome(D.shape.rings, q)
            && 0 < P.t[p].next <= P.m && 0 < P.t[q].prev <= P.m && (P.t[q].prev == p ==> P.t[p].next == q)
            && Struck(angle, D, mcur, v0, v1)
               == Drawing(AddDiagonal(P, mcur, v0, v1, ChooseSlot(angle, P.vs, v0, v1), ChooseSlot(angle, P.vs, v1, v0)),
                          AddToShape(D.shape, p, q, P.m))
    ensures var E := Struck(angle, D, mcur, v0, v1);
            Coherent(E.pool, E.shape, n, cs)
  {
    var P, ip, iq := D.pool, ChooseSlot(angle, D.pool.vs, v0, v1), ChooseSlot(angle, D.pool.vs, v1, v0);
    DiagonalMayBeStored(P, D.shape, n, cs, mcur, v0, v1, ip, iq);
  }

  lemma DiagonalKeepsPoints(P: Pool, mcur: int, v0: int, v1: int, ip: nat, iq: nat)
    requires UsableSlot(P, v0, ip) && UsableSlot(P, v1, iq)
    requires 0 <= mcur <= P.last && P.last + 1 < |P.mon| && 0 <= P.m && P.m + 2 < |P.t|
    ensures PointsOf(AddDiagonal(P, mcur, v0, v1, ip, iq).vs) == PointsOf(P.vs)
  {
    var t := AddDiagonal(P, mcur, v0, v1, ip, iq).t;
    SlotsKeepPoints(P.vs, v0, v1, ip, VnumAt(t, t[P.m + 1].next), P.m + 1, P.m + 2);
  }

  ghost function AfterAll(angle: AngleMeasure, D: Drawing, drawn: seq<Stroke>): Drawing {
    if drawn == [] then D
    else
      var s := drawn[|drawn| - 1];
      Struck(angle, AfterAll(angle, D, drawn[..|drawn| - 1]), s.mcur, s.v0, s.v1)
  }

  lemma {:induction false} AfterBoth(angle: AngleMeasure, D: Drawing, a: seq<Stroke>, b: seq<Stroke>)
    ensures AfterAll(angle, D, a + b) == AfterAll(angle, AfterAll(angle, D, a), b)
  {
    if b == [] {
      assert a + b == a;
    } else {
      AfterBoth(angle, D, a, b[..|b| - 1]);
      assert (a + b)[..|a + b| - 1] == a + b[..|b| - 1];
    }
  }

  lemma AfterOne(angle: AngleMeasure, D: Drawing, s: Stroke)
    ensures AfterAll(angle, D, [s]) == Struck(angle, D, s.mcur, s.v0, s.v1)
  {
    assert [s][..0] == [];
  }

  /** Enough strokes for every one of them to have been possible. */
  lemma {:induction false} AllWerePossible(angle: AngleMeasure, D: Drawing, drawn: seq<Stroke>)
    ensures AfterAll(angle, D, drawn).pool.last <= D.pool.last + |drawn|
    ensures AfterAll(angle, D, drawn).pool.last == D.pool.last + |drawn| ==>
              forall k :: 0 <= k < |drawn| ==> PossibleAt(angle, D, drawn, k)
  {
    if drawn != [] {
      var n, init := |drawn| - 1, drawn[..|drawn| - 1];
      AllWerePossible(angle, D, init);
      forall k | 0 <= k < |drawn| && AfterAll(angle, D, drawn).pool.last == D.pool.last + |drawn|
        ensures PossibleAt(angle, D, drawn, k)
      {
        if k < n { assert drawn[..k] == init[..k] && PossibleAt(angle, D, init, k); }
      }
    }
  }

  /** Stroke number k could be drawn, after the earlier ones. */
  ghost predicate PossibleAt(angle: AngleMeasure, D: Drawing, drawn: seq<Stroke>, k: nat)
    requires k < |drawn|
  {
    CanStrike(angle, AfterAll(angle, D, drawn[..k]).pool, drawn[k].mcur, drawn[k].v0, drawn[k].v1)
  }

  // ------------------------------------------------------------ entries

  ghost predicate HasEntry(P: Pool, c: seq<int>) { exists k :: 0 <= k <= P.last < |P.mon| && P.mon[k] in c }

  /** The polygon the stroke is to split, mcur, is one of those it touches. */
  ghost predicate OnOwnPolygon(angle: AngleMeasure, D: Drawing, mcur: int, v0: int, v1: int) {
    var P, rs := D.pool, D.shape.rings;
    CanStrike(angle, P, mcur, v0, v1) ==>
      var p, q := PositionOf(angle, P, v0, v1), PositionOf(angle, P, v1, v0);
      OnSome(rs, p) && OnSome(rs, q) && (P.mon[mcur] in rs[RingOf(rs, p)] || P.mon[mcur] in rs[RingOf(rs, q)])
  }

  ghost predicate OwnAt(angle: AngleMeasure, D: Drawing, drawn: seq<Stroke>, k: nat)
    requires k < |drawn|
  {
    OnOwnPolygon(angle, AfterAll(angle, D, drawn[..k]), drawn[k].mcur, drawn[k].v0, drawn[k].v1)
  }

  /** Every polygon has an entry, or had none before and was not touched. */
  ghost predicate NoEntryLost(D: Drawing, E: Drawing) {
    forall f :: 0 <= f < |E.shape.rings| ==> EntryKept(D, E, E.shape.rings[f])
  }

  ghost predicate EntryKept(D: Drawing, E: Drawing, c: seq<int>) {
    HasEntry(E.pool, c) || (c in D.shape.rings && !HasEntry(D.pool, c))
  }

  lemma StruckChanges(angle: AngleMeasure, D: Drawing, n: int, cs: seq<seq<int>>, mcur: int, v0: int, v1: int)
    requires Coherent(D.pool, D.shape, n, cs) && CanStrike(angle, D.pool, mcur, v0, v1)
    requires 1 <= v0 <= n && 1 <= v1 <= n && v0 != v1
    ensures var P, p, q := D.pool, PositionOf(angle, D.pool, v0, v1), PositionOf(angle, D.pool, v1, v0);
            var E := Struck(angle, D, mcur, v0, v1);
            && OnSome(D.shape.rings, p) && OnSome(D.shape.rings, q)
            && E.pool.mon == P.mon[mcur := p][P.last + 1 := P.m + 1] && E.pool.last == P.last + 1
            && E.shape.rings == SpliceRings(D.shape.rings, p, q, P.m + 1, P.m + 2)
  {
    StrikeIsGood(angle, D, n, cs, mcur, v0, v1);
  }

  lemma StrokeLosesNone(angle: AngleMeasure, D: Drawing, n: int, cs: seq<seq<int>>, mcur: int, v0: int, v1: int)
    requires Coherent(D.pool, D.shape, n, cs) && CanStrike(angle, D.pool, mcur, v0, v1)
    requires 1 <= v0 <= n && 1 <= v1 <= n && v0 != v1 && OnOwnPolygon(angle, D, mcur, v0, v1)
    ensures NoEntryLost(D, Struck(angle, D, mcur, v0, v1))
  {
    StruckChanges(angle, D, n, cs, mcur, v0, v1);
    SplicedLosesNone(D, Struck(angle, D, mcur, v0, v1), mcur, PositionOf(angle, D.pool, v0, v1),
                     PositionOf(angle, D.pool, v1, v0));
  }

  lemma SplicedLosesNone(D: Drawing, E: Drawing, mcur: int, p: int, q: int)
    requires var P, rs := D.pool, D.shape.rings;
             && Partition(P.t, rs, P.m) && OnSome(rs, p) && OnSome(rs, q)
             && 0 <= mcur <= P.last && P.last + 1 < |P.mon|
             && E.pool.mon == P.mon[mcur := p][P.last + 1 := P.m + 1] && E.pool.last == P.last + 1
             && E.shape.rings == SpliceRings(rs, p, q, P.m + 1, P.m + 2)
             && (P.mon[mcur] in rs[RingOf(rs, p)] || P.mon[mcur] in rs[RingOf(rs, q)])
    ensures NoEntryLost(D, E)
  {
    SpliceRingsAre(D.shape.rings, p, q, D.pool.m + 1, D.pool.m + 2);
    TouchedLosesNone(D, E, mcur, p, RingOf(D.shape.rings, p), RingOf(D.shape.rings, q));
  }

  lemma TouchedLosesNone(D: Drawing, E: Drawing, mcur: int, p: int, a: nat, b: nat)
    requires var P, rs := D.pool, D.shape.rings;
             && Partition(P.t, rs, P.m) && a < |rs| && b < |rs| && RingsAfter(rs, a, b, p, P.m + 1, E.shape.rings)
             && 0 <= mcur <= P.last && P.last + 1 < |P.mon|
             && E.pool.mon == P.mon[mcur := p][P.last + 1 := P.m + 1] && E.pool.last == P.last + 1
             && (P.mon[mcur] in rs[a] || P.mon[mcur] in rs[b])
    ensures NoEntryLost(D, E)
  {
    forall f | 0 <= f < |E.shape.rings| ensures EntryKept(D, E, E.shape.rings[f]) {
      EntryAfter(D.pool, D.shape.rings, E.pool, mcur, p, a, b, E.shape.rings, f);
    }
  }

  lemma EntryAfter(P: Pool, rs: seq<seq<int>>, Q: Pool, mcur: int, p: int, a: nat, b: nat, ss: seq<seq<int>>, f: nat)
    requires Partition(P.t, rs, P.m) && f < |ss| && RingsAfter(rs, a, b, p, P.m + 1, ss) && a < |rs| && b < |rs|
    requires 0 <= mcur <= P.last && P.last + 1 < |P.mon|
    requires Q.mon == P.mon[mcur := p][P.last + 1 := P.m + 1] && Q.last == P.last + 1
    requires P.mon[mcur] in rs[a] || P.mon[mcur] in rs[b]
    ensures HasEntry(Q, ss[f]) || (ss[f] in rs && !HasEntry(P, ss[f]))
  {
    if p in ss[f] {
      assert Q.mon[mcur] == p;
    } else if P.m + 1 in ss[f] {
      assert Q.mon[Q.last] == P.m + 1;
    } else {
      assert WasThere(rs, a, b, ss[f]);
      var e :| 0 <= e < |rs| && e != a && e != b && rs[e] == ss[f];
      assert Apart(rs[e], rs[a]) && Apart(rs[e], rs[b]);
      if HasEntry(P, ss[f]) {
        var k :| 0 <= k <= P.last < |P.mon| && P.mon[k] in ss[f];
        assert k != mcur && Q.mon[k] == P.mon[k];
      }
    }
  }

  /** As long as every stroke touches the polygon it is to split, no polygon loses its entry:
      in the end only contours without one that nothing touched have none. */
  lemma {:induction false} OwnStrokesLoseNone(angle: AngleMeasure, D: Drawing, n: int, cs: seq<seq<int>>,
                                              drawn: seq<Stroke>)
    requires Coherent(D.pool, D.shape, n, cs)
    requires forall k :: 0 <= k < |drawn| ==> PossibleAt(angle, D, drawn, k) && OwnAt(angle, D, drawn, k)
    requires forall k :: 0 <= k < |drawn| ==> 1 <= drawn[k].v0 <= n && 1 <= drawn[k].v1 <= n && drawn[k].v0 != drawn[k].v1
    ensures var E := AfterAll(angle, D, drawn); Coherent(E.pool, E.shape, n, cs) && NoEntryLost(D, E)
  {
    if drawn != [] {
      var i, s, init := |drawn| - 1, drawn[|drawn| - 1], drawn[..|drawn| - 1];
      forall k | 0 <= k < |init| ensures PossibleAt(angle, D, init, k) && OwnAt(angle, D, init, k) {
        assert init[..k] == drawn[..k] && PossibleAt(angle, D, drawn, k) && OwnAt(angle, D, drawn, k);
      }
      OwnStrokesLoseNone(angle, D, n, cs, init);
      assert PossibleAt(angle, D, drawn, i) && OwnAt(angle, D, drawn, i);
      var C, E := AfterAll(angle, D, init), AfterAll(angle, D, drawn);
      StrikeIsGood(angle, C, n, cs, s.mcur, s.v0, s.v1);
      StrokeLosesNone(angle, C, n, cs, s.mcur, s.v0, s.v1);
      LosesNoneTwice(D, C, E);
    }
  }

  lemma LosesNoneTwice(D: Drawing, C: Drawing, E: Drawing)
    requires NoEntryLost(D, C) && NoEntryLost(C, E)
    ensures NoEntryLost(D, E)
  {
    forall f | 0 <= f < |E.shape.rings| ensures EntryKept(D, E, E.shape.rings[f]) {
      var c := E.shape.rings[f];
      assert EntryKept(C, E, c);
      if !HasEntry(E.pool, c) {
        var g :| 0 <= g < |C.shape.rings| && C.shape.rings[g] == c;
        assert EntryKept(D, C, C.shape.rings[g]);
      }
    }
  }
}
