/** The state the monotone splitter works on, as a value, and what one diagonal does to
    all of it: the pool, the vertex slots, the polygon entries and the counters. */
module Diagonals {
  import opened Sequences
  import opened Plane
  import opened GreedyCut
  import opened Rings
  import opened Polygons

  /** Per vertex: its point, and for every chain through it the next vertex and its
      position on that chain. */
  datatype VertexChain = VertexChain(pt: Point, vnext: seq<int>, vpos: seq<int>)

  datatype Pool = Pool(
    t: Table,                 // chain elements; 1..m are in use
    vs: seq<VertexChain>,     // by vertex number; 1..n are in use
    mon: seq<int>,            // a position on polygon k, for k <= last
    m: int,
    last: int)

  /** The polygons the pool holds, and how many diagonals joined two of them. */
  datatype Shape = Shape(rings: seq<seq<int>>, merges: nat)

  ghost function ContourSum(W: (int, int) -> real, cs: seq<seq<int>>): real {
    if cs == [] then 0.0 else RingSum(W, cs[0]) + ContourSum(W, cs[1..])
  }

  /** Slot k of vertex v names a position that carries v; unused slots have no next. */
  ghost predicate SlotsOk(P: Pool, v: int)
    requires 0 <= v < |P.vs| && P.m < |P.t|
  {
    var c := P.vs[v];
    && |c.vnext| == |c.vpos| >= 1 && c.vnext[0] > 0
    && forall k :: 0 <= k < |c.vpos| && c.vnext[k] > 0 ==> 1 <= c.vpos[k] <= P.m && P.t[c.vpos[k]].vnum == v
  }

  /** Vertex numbers, vertex slots and polygon entries all refer to used table rows. */
  ghost predicate Referring(P: Pool, n: int) {
    && 1 <= n < |P.vs| && 0 <= P.m < |P.t| && 0 <= P.last < |P.mon|
    && (forall x :: 1 <= x <= P.m ==> 1 <= P.t[x].vnum <= n)
    && (forall v :: 1 <= v <= n ==> SlotsOk(P, v))
    && (forall k :: 0 <= k <= P.last ==> 1 <= P.mon[k] <= P.m)
    && (forall x :: 0 <= x < |P.t| ==> !P.t[x].marked)
  }

  /** The slots of vertex v are at different positions, and each tells which vertex follows
      there. */
  ghost predicate SlotsTellAt(P: Pool, v: int)
    requires 0 <= v < |P.vs|
  {
    var c := P.vs[v];
    && |c.vnext| == |c.vpos| && Distinct(c.vpos)
    && forall k :: 0 <= k < |c.vpos| ==> SlotTells(P, v, k)
  }

  predicate SlotTells(P: Pool, v: int, k: nat)
    requires 0 <= v < |P.vs| && k < |P.vs[v].vpos| == |P.vs[v].vnext|
  {
    var x := P.vs[v].vpos[k];
    1 <= x <= P.m < |P.t| && P.t[x].vnum == v && VnumAt(P.t, P.t[x].next) == P.vs[v].vnext[k]
  }

  /** Position x is in one of its vertex's slots. */
  predicate HasSlot(P: Pool, x: int) {
    0 <= x < |P.t| && 0 <= P.t[x].vnum < |P.vs| && x in P.vs[P.t[x].vnum].vpos
  }

  /** The slots of all vertices 1..n tell where all positions are and what follows there. */
  ghost predicate SlotsTell(P: Pool, n: int) {
    && n < |P.vs| && (forall v {:trigger SlotsTellAt(P, v)} :: 1 <= v <= n ==> SlotsTellAt(P, v))
    && (forall x {:trigger HasSlot(P, x)} :: 1 <= x <= P.m ==> HasSlot(P, x))
  }

  /** The rings bound together what the contours cs bound. */
  ghost predicate SameBoundary(t: Table, rs: seq<seq<int>>, cs: seq<seq<int>>) {
    forall W :: Antisymmetric(W) ==> Boundary(W, t, rs) == ContourSum(W, cs)
  }

  /** Positions 1..m are partitioned into rings, polygon entries and vertex slots point
      into them, the slots tell what follows, and the rings bound what the contours cs bounded. */
  ghost predicate Coherent(P: Pool, S: Shape, n: int, cs: seq<seq<int>>) {
    && Partition(P.t, S.rings, P.m)
    && Referring(P, n) && SlotsTell(P, n)
    && P.m == n + 2 * P.last
    && P.m - 2 * |S.rings| == n - 2 * |cs| + 4 * S.merges
    && SameBoundary(P.t, S.rings, cs)
  }

  function PointsOf(vs: seq<VertexChain>): (p: seq<Point>)
    ensures |p| == |vs|
  {
    seq(|vs|, v requires 0 <= v < |vs| => vs[v].pt)
  }

  /** A slot the splitter may choose: one in use. */
  predicate UsableSlot(P: Pool, v: int, k: nat) {
    0 <= v < |P.vs| && k < |P.vs[v].vnext| == |P.vs[v].vpos| && P.vs[v].vnext[k] > 0
    && 0 <= P.vs[v].vpos[k] < |P.t|
  }

  /** The vertex slots after a diagonal: slot ip of v0 now leads to v1, the copies of
      both ends open a new slot each. */
  function AddSlots(vs: seq<VertexChain>, v0: int, v1: int, ip: nat, after: int, i: int, j: int): seq<VertexChain>
    requires 0 <= v0 < |vs| && 0 <= v1 < |vs| && ip < |vs[v0].vnext|
  {
    var c0, c1 := vs[v0], vs[v1];
    vs[v0 := c0.(vnext := c0.vnext[ip := v1] + [after], vpos := c0.vpos + [i])]
      [v1 := c1.(vnext := c1.vnext + [v0], vpos := c1.vpos + [j])]
  }

  function VnumAt(t: Table, x: int): int { if 0 <= x < |t| then t[x].vnum else 0 }

  /** Everything make_new_monotone_poly changes, given the slots it chose. */
  function AddDiagonal(P: Pool, mcur: int, v0: int, v1: int, ip: nat, iq: nat): (Q: Pool)
    requires UsableSlot(P, v0, ip) && UsableSlot(P, v1, iq)
    requires 0 <= mcur <= P.last && P.last + 1 < |P.mon| && 0 <= P.m && P.m + 2 < |P.t|
  {
    var p, q := P.vs[v0].vpos[ip], P.vs[v1].vpos[iq];
    var i, j := P.m + 1, P.m + 2;
    var t := Spliced(P.t, p, q, i, j, v0, v1);
    Pool(t, AddSlots(P.vs, v0, v1, ip, VnumAt(t, t[i].next), i, j),
         P.mon[mcur := p][P.last + 1 := i], j, P.last + 1)
  }

  ghost function AddToShape(S: Shape, p: int, q: int, m: int): Shape
    requires OnSome(S.rings, p) && OnSome(S.rings, q)
  {
    Shape(SpliceRings(S.rings, p, q, m + 1, m + 2),
          S.merges + if RingOf(S.rings, p) == RingOf(S.rings, q) then 0 else 1)
  }

  lemma SlotsKeepPoints(vs: seq<VertexChain>, v0: int, v1: int, ip: nat, after: int, i: int, j: int)
    requires 0 <= v0 < |vs| && 0 <= v1 < |vs| && ip < |vs[v0].vnext|
    ensures PointsOf(AddSlots(vs, v0, v1, ip, after, i, j)) == PointsOf(vs)
  {
  }

  /** Table t extends table u: rows 1..m keep their vertex numbers, two rows join. */
  predicate Extends(t: Table, u: Table, m: int, v0: int, v1: int) {
    && |t| == |u| && 0 <= m && m + 2 < |u|
    && (forall x :: 1 <= x <= m ==> t[x].vnum == u[x].vnum)
    && t[m + 1].vnum == v0 && t[m + 2].vnum == v1
    && (forall x :: 0 <= x < |t| ==> t[x].marked == u[x].marked)
  }

  lemma SplicedExtends(u: Table, m: int, p: int, q: int, v0: int, v1: int)
    requires 0 <= p < |u| && 0 <= q < |u| && 0 <= m && m + 2 < |u|
    ensures Extends(Spliced(u, p, q, m + 1, m + 2, v0, v1), u, m, v0, v1)
  {
  }

  lemma SlotsStayOk(P: Pool, Q: Pool, v: int, v0: int, v1: int, ip: nat, after: int)
    requires 0 <= v < |P.vs| && 0 <= P.m < |P.t| && SlotsOk(P, v)
    requires 0 <= v0 < |P.vs| && 0 <= v1 < |P.vs| && v0 != v1 && ip < |P.vs[v0].vnext| && v0 > 0 && v1 > 0
    requires P.vs[v0].vnext[ip] > 0
    requires Extends(Q.t, P.t, P.m, v0, v1) && Q.m == P.m + 2
    requires Q.vs == AddSlots(P.vs, v0, v1, ip, after, P.m + 1, P.m + 2)
    ensures SlotsOk(Q, v)
  {
    var c, d := P.vs[v], Q.vs[v];
    forall k | 0 <= k < |d.vpos| && d.vnext[k] > 0
      ensures 1 <= d.vpos[k] <= Q.m && Q.t[d.vpos[k]].vnum == v
    {
      if k < |c.vpos| {
        assert d.vpos[k] == c.vpos[k] && c.vnext[k] > 0;
      }
    }
  }

  lemma ReferencesStayOk(P: Pool, Q: Pool, n: int, mcur: int, v0: int, v1: int, ip: nat, p: int, after: int)
    requires Referring(P, n) && 1 <= v0 <= n && 1 <= v1 <= n && v0 != v1 && 1 <= p <= P.m
    requires ip < |P.vs[v0].vnext| && P.vs[v0].vnext[ip] > 0
    requires 0 <= mcur <= P.last && P.last + 1 < |P.mon|
    requires Extends(Q.t, P.t, P.m, v0, v1) && Q.m == P.m + 2
    requires Q.vs == AddSlots(P.vs, v0, v1, ip, after, P.m + 1, P.m + 2)
    requires Q.mon == P.mon[mcur := p][P.last + 1 := P.m + 1] && Q.last == P.last + 1
    ensures Referring(Q, n)
  {
    EntriesStayOk(P, Q, n, mcur, v0, v1, p);
    forall v | 1 <= v <= n ensures SlotsOk(Q, v) {
      assert SlotsOk(P, v);
      SlotsStayOk(P, Q, v, v0, v1, ip, after);
    }
  }

  lemma DiagonalKeepsReferring(P: Pool, n: int, mcur: int, v0: int, v1: int, ip: nat, iq: nat)
    requires Referring(P, n) && 1 <= v0 <= n && 1 <= v1 <= n && v0 != v1
    requires UsableSlot(P, v0, ip) && UsableSlot(P, v1, iq)
    requires 0 <= mcur <= P.last && P.last + 1 < |P.mon| && P.m + 2 < |P.t|
    ensures Referring(AddDiagonal(P, mcur, v0, v1, ip, iq), n)
    ensures 1 <= P.vs[v0].vpos[ip] <= P.m && P.t[P.vs[v0].vpos[ip]].vnum == v0
    ensures 1 <= P.vs[v1].vpos[iq] <= P.m && P.t[P.vs[v1].vpos[iq]].vnum == v1
  {
    assert SlotsOk(P, v0) && SlotsOk(P, v1);
    var p, q := P.vs[v0].vpos[ip], P.vs[v1].vpos[iq];
    var Q := AddDiagonal(P, mcur, v0, v1, ip, iq);
    SplicedExtends(P.t, P.m, p, q, v0, v1);
    ReferencesStayOk(P, Q, n, mcur, v0, v1, ip, p, VnumAt(Q.t, Q.t[P.m + 1].next));
  }

  /** One diagonal keeps the whole state coherent, whichever slots were chosen. */
  lemma DiagonalKeepsCoherent(P: Pool, S: Shape, n: int, cs: seq<seq<int>>,
                              mcur: int, v0: int, v1: int, ip: nat, iq: nat)
    requires Coherent(P, S, n, cs)
    requires 1 <= v0 <= n && 1 <= v1 <= n && v0 != v1
    requires UsableSlot(P, v0, ip) && UsableSlot(P, v1, iq)
    requires 0 <= mcur <= P.last && P.last + 1 < |P.mon| && P.m + 2 < |P.t|
    ensures OnSome(S.rings, P.vs[v0].vpos[ip]) && OnSome(S.rings, P.vs[v1].vpos[iq])
    ensures Coherent(AddDiagonal(P, mcur, v0, v1, ip, iq),
                     AddToShape(S, P.vs[v0].vpos[ip], P.vs[v1].vpos[iq], P.m), n, cs)
  {
    DiagonalKeepsReferring(P, n, mcur, v0, v1, ip, iq);
    var p, q := P.vs[v0].vpos[ip], P.vs[v1].vpos[iq];
    var Q, S' := AddDiagonal(P, mcur, v0, v1, ip, iq), AddToShape(S, p, q, P.m);
    SplicedRings(P.t, S.rings, P.m, p, q, v0, v1, cs, Q.t, S'.rings);
    DiagonalKeepsSlots(P, S.rings, n, mcur, v0, v1, ip, iq);
    IsCoherent(Q, S', n, cs);
  }

  /** What follows position x after the splice. */
  lemma SuccessorAfter(t: Table, rs: seq<seq<int>>, m: int, p: int, q: int, v0: int, v1: int, x: int)
    requires Partition(t, rs, m) && 1 <= p <= m && 1 <= q <= m && m + 2 < |t| && t[q].vnum == v1
    requires 1 <= x <= m
    ensures var u := Spliced(t, p, q, m + 1, m + 2, v0, v1);
            VnumAt(u, u[x].next) == if x == p then v1 else VnumAt(t, t[x].next)
  {
    MirroredLinks(t, rs, m, x);
    MirroredLinks(t, rs, m, q);
  }

  /** A diagonal keeps the slots telling: the chosen one is told the other end point, and
      both copies get one of their own. */
  lemma DiagonalKeepsSlots(P: Pool, rs: seq<seq<int>>, n: int, mcur: int, v0: int, v1: int, ip: nat, iq: nat)
    requires Partition(P.t, rs, P.m) && Referring(P, n) && SlotsTell(P, n)
    requires 1 <= v0 <= n && 1 <= v1 <= n && v0 != v1
    requires UsableSlot(P, v0, ip) && UsableSlot(P, v1, iq)
    requires 0 <= mcur <= P.last && P.last + 1 < |P.mon| && P.m + 2 < |P.t|
    ensures SlotsTell(AddDiagonal(P, mcur, v0, v1, ip, iq), n)
  {
    var Q := AddDiagonal(P, mcur, v0, v1, ip, iq);
    assert SlotsTellAt(P, v0) && SlotsTellAt(P, v1) && SlotsOk(P, v0) && SlotsOk(P, v1);
    var p, q := P.vs[v0].vpos[ip], P.vs[v1].vpos[iq];
    SplicedExtends(P.t, P.m, p, q, v0, v1);
    forall v | 1 <= v <= n ensures SlotsTellAt(Q, v) {
      assert SlotsTellAt(P, v);
      VertexKeepsSlots(P, rs, Q, v, v0, v1, ip, p, q);
    }
    forall x | 1 <= x <= Q.m ensures HasSlot(Q, x) {
      if x <= P.m {
        assert HasSlot(P, x);
        StillIn(P.vs[P.t[x].vnum].vpos, Q.vs[P.t[x].vnum].vpos, x);
      } else {
        var c := Q.vs[if x == P.m + 1 then v0 else v1].vpos;
        assert c[|c| - 1] == x;
      }
    }
  }

  lemma StillIn(c: seq<int>, d: seq<int>, x: int)
    requires x in c && c <= d
    ensures x in d
  {
    var k := Index(c, x);
    assert d[k] == x;
  }

  lemma VertexKeepsSlots(P: Pool, rs: seq<seq<int>>, Q: Pool, v: int, v0: int, v1: int, ip: nat, p: int, q: int)
    requires Partition(P.t, rs, P.m) && 0 <= v < |P.vs| && SlotsTellAt(P, v) && P.m + 2 < |P.t|
    requires 0 <= v0 < |P.vs| && 0 <= v1 < |P.vs| && v0 != v1 && ip < |P.vs[v0].vnext| == |P.vs[v0].vpos|
    requires 1 <= p <= P.m && 1 <= q <= P.m && P.vs[v0].vpos[ip] == p && P.t[p].vnum == v0 && P.t[q].vnum == v1
    requires Q.t == Spliced(P.t, p, q, P.m + 1, P.m + 2, v0, v1) && Q.m == P.m + 2
    requires Q.vs == AddSlots(P.vs, v0, v1, ip, VnumAt(Q.t, Q.t[P.m + 1].next), P.m + 1, P.m + 2)
    ensures SlotsTellAt(Q, v)
  {
    var c, d := P.vs[v], Q.vs[v];
    MirroredLinks(P.t, rs, P.m, q);
    forall k | 0 <= k < |d.vpos| ensures SlotTells(Q, v, k) {
      if k < |c.vpos| {
        assert SlotTells(P, v, k);
        assert k != ip && v == v0 ==> c.vpos[k] != p;
        SuccessorAfter(P.t, rs, P.m, p, q, v0, v1, c.vpos[k]);
      }
    }
    forall i, j | 0 <= i < j < |d.vpos| ensures d.vpos[i] != d.vpos[j] {
      assert i < |c.vpos| && SlotTells(P, v, i);
    }
  }

  lemma IsCoherent(Q: Pool, S: Shape, n: int, cs: seq<seq<int>>)
    requires Partition(Q.t, S.rings, Q.m)
    requires Referring(Q, n) && SlotsTell(Q, n)
    requires Q.m == n + 2 * Q.last && Q.m - 2 * |S.rings| == n - 2 * |cs| + 4 * S.merges
    requires SameBoundary(Q.t, S.rings, cs)
    ensures Coherent(Q, S, n, cs)
  {
  }

  lemma EntriesStayOk(P: Pool, Q: Pool, n: int, mcur: int, v0: int, v1: int, p: int)
    requires Referring(P, n) && 1 <= v0 <= n && 1 <= v1 <= n && 1 <= p <= P.m
    requires 0 <= mcur <= P.last && P.last + 1 < |P.mon|
    requires Extends(Q.t, P.t, P.m, v0, v1) && Q.m == P.m + 2
    requires Q.mon == P.mon[mcur := p][P.last + 1 := P.m + 1] && Q.last == P.last + 1
    ensures forall x :: 1 <= x <= Q.m ==> 1 <= Q.t[x].vnum <= n
    ensures forall k :: 0 <= k <= Q.last ==> 1 <= Q.mon[k] <= Q.m
  {
  }

  lemma SplicedRings(t: Table, rs: seq<seq<int>>, m: int, p: int, q: int, v0: int, v1: int, cs: seq<seq<int>>,
                     u: Table, ss: seq<seq<int>>)
    requires Partition(t, rs, m) && SameBoundary(t, rs, cs)
    requires 1 <= p <= m && 1 <= q <= m && m + 2 < |t| && t[p].vnum == v0 && t[q].vnum == v1
    requires OnSome(rs, p) && OnSome(rs, q)
    requires u == Spliced(t, p, q, m + 1, m + 2, v0, v1) && ss == SpliceRings(rs, p, q, m + 1, m + 2)
    ensures Partition(u, ss, m + 2) && SameBoundary(u, ss, cs)
    ensures |ss| == if RingOf(rs, p) == RingOf(rs, q) then |rs| + 1 else |rs| - 1
  {
    SplicePartition(t, rs, m, p, q, v0, v1);
    forall W | Antisymmetric(W) ensures Boundary(W, u, ss) == ContourSum(W, cs) {
      SpliceKeepsBoundary(t, rs, m, p, q, W);
    }
  }

  /** Every used position's links stay among used positions and are mirrored. */
  lemma MirroredLinks(t: Table, rs: seq<seq<int>>, m: int, x: int)
    requires Partition(t, rs, m) && 1 <= x <= m
    ensures 1 <= t[x].next <= m && t[t[x].next].prev == x
    ensures 1 <= t[x].prev <= m && t[t[x].prev].next == x
  {
    assert OnSome(rs, x);
    var a :| 0 <= a < |rs| && x in rs[a];
    var c := rs[a];
    RingLinks(t, c, m, Index(c, x));
  }

  lemma RingLinks(t: Table, c: seq<int>, m: int, k: nat)
    requires IsRing(t, c) && Within(c, m) && m < |t| && k < |c|
    ensures var x := c[k]; 1 <= x <= m && 1 <= t[x].next <= m && t[t[x].next].prev == x
    ensures var x := c[k]; 1 <= x <= m && 1 <= t[x].prev <= m && t[t[x].prev].next == x
  {
    assert LinkedAt(t, c, k) && LinkedAt(t, c, After(k, |c|)) && LinkedAt(t, c, Before(k, |c|));
  }

  /** Every polygon has an entry in mon. */
  ghost predicate AllEntered(P: Pool, S: Shape) {
    forall a :: 0 <= a < |S.rings| ==> exists k :: 0 <= k <= P.last < |P.mon| && P.mon[k] in S.rings[a]
  }

  /** The tables have what storing a diagonal needs, and are coherent again after it. */
  lemma DiagonalMayBeStored(P: Pool, S: Shape, n: int, cs: seq<seq<int>>,
                            mcur: int, v0: int, v1: int, ip: nat, iq: nat)
    requires Coherent(P, S, n, cs)
    requires 1 <= v0 <= n && 1 <= v1 <= n && v0 != v1
    requires UsableSlot(P, v0, ip) && UsableSlot(P, v1, iq)
    requires 0 <= mcur <= P.last && P.last + 1 < |P.mon| && P.m + 2 < |P.t|
    ensures var p, q := P.vs[v0].vpos[ip], P.vs[v1].vpos[iq];
            && 0 < p <= P.m && 0 < q <= P.m && OnSome(S.rings, p) && OnSome(S.rings, q)
            && 0 < P.t[p].next <= P.m && 0 < P.t[q].prev <= P.m && (P.t[q].prev == p ==> P.t[p].next == q)
            && Coherent(AddDiagonal(P, mcur, v0, v1, ip, iq), AddToShape(S, p, q, P.m), n, cs)
  {
    DiagonalKeepsCoherent(P, S, n, cs, mcur, v0, v1, ip, iq);
    DiagonalKeepsReferring(P, n, mcur, v0, v1, ip, iq);
    MirroredLinks(P.t, S.rings, P.m, P.vs[v0].vpos[ip]);
    MirroredLinks(P.t, S.rings, P.m, P.vs[v1].vpos[iq]);
  }

  // ------------------------------------------------------------ entries

  /** Some entry other than number mcur leads to ring e. */
  ghost predicate EnteredElsewhere(P: Pool, S: Shape, mcur: int, e: int)
    requires 0 <= e < |S.rings|
  {
    exists k :: 0 <= k <= P.last < |P.mon| && k != mcur && P.mon[k] in S.rings[e]
  }

  /** All rings but a and b have such an entry. */
  ghost predicate AllEnteredElsewhere(P: Pool, S: Shape, mcur: int, a: nat, b: nat) {
    forall e :: 0 <= e < |S.rings| && e != a && e != b ==> EnteredElsewhere(P, S, mcur, e)
  }

  /** The rings after a diagonal: its own have p or the copy i, and all others are as before. */
  ghost predicate RingsAfter(rs: seq<seq<int>>, a: nat, b: nat, p: int, i: int, ss: seq<seq<int>>) {
    && (forall f {:trigger WasThere(rs, a, b, ss[f])} ::
          0 <= f < |ss| ==> p in ss[f] || i in ss[f] || WasThere(rs, a, b, ss[f]))
    && (forall e {:trigger StillThere(rs, e, ss)} :: 0 <= e < |rs| && e != a && e != b ==> StillThere(rs, e, ss))
  }

  ghost predicate WasThere(rs: seq<seq<int>>, a: nat, b: nat, c: seq<int>) {
    exists e :: 0 <= e < |rs| && e != a && e != b && rs[e] == c
  }

  predicate StillThere(rs: seq<seq<int>>, e: int, ss: seq<seq<int>>)
    requires 0 <= e < |rs|
  {
    rs[e] in ss
  }

  lemma SpliceRingsAre(rs: seq<seq<int>>, p: int, q: int, i: int, j: int)
    requires OnSome(rs, p) && OnSome(rs, q)
    ensures RingsAfter(rs, RingOf(rs, p), RingOf(rs, q), p, i, SpliceRings(rs, p, q, i, j))
  {
    var ss, a, b := SpliceRings(rs, p, q, i, j), RingOf(rs, p), RingOf(rs, q);
    var c := RotateTo(rs[a], p);
    if a == b {
      var s := StepsTo(c, q);
      assert FirstHalf(c, s)[0] == p && SecondHalf(c, s, i, j)[0] == i;
      assert forall f :: 0 <= f < |ss| ==> ss[f] == if f == |rs| then SecondHalf(c, s, i, j)
                                                    else if f == a then FirstHalf(c, s) else rs[f];
      forall f | 0 <= f < |ss| ensures p in ss[f] || i in ss[f] || WasThere(rs, a, b, ss[f]) {
        if f != a && f != |rs| { assert rs[f] == ss[f]; }
      }
      forall e | 0 <= e < |rs| && e != a ensures StillThere(rs, e, ss) { assert ss[e] == rs[e]; }
    } else {
      var full := rs[a := Merged(c, RotateTo(rs[b], q), i, j)];
      assert full[a][0] == p;
      assert forall f :: 0 <= f < |ss| ==> ss[f] == full[if f < b then f else f + 1];
      forall f | 0 <= f < |ss|
        ensures p in ss[f] || WasThere(rs, a, b, ss[f])
      {
        var e := if f < b then f else f + 1;
        if e != a { assert rs[e] == ss[f]; }
      }
      forall e | 0 <= e < |rs| && e != a && e != b ensures StillThere(rs, e, ss) {
        assert ss[if e < b then e else e - 1] == rs[e];
      }
    }
  }

  /** After a diagonal every polygon has an entry exactly if every polygon it does not touch
      has one that is not redirected. */
  lemma DiagonalKeepsEntries(P: Pool, S: Shape, n: int, mcur: int, v0: int, v1: int, ip: nat,
                             iq: nat)
    requires Partition(P.t, S.rings, P.m) && Referring(P, n)
    requires 1 <= v0 <= n && 1 <= v1 <= n && v0 != v1
    requires UsableSlot(P, v0, ip) && UsableSlot(P, v1, iq)
    requires 0 <= mcur <= P.last && P.last + 1 < |P.mon| && P.m + 2 < |P.t|
    ensures var p, q := P.vs[v0].vpos[ip], P.vs[v1].vpos[iq];
            && OnSome(S.rings, p) && OnSome(S.rings, q)
            && (AllEntered(AddDiagonal(P, mcur, v0, v1, ip, iq), AddToShape(S, p, q, P.m)) <==>
                AllEnteredElsewhere(P, S, mcur, RingOf(S.rings, p), RingOf(S.rings, q)))
  {
    DiagonalKeepsReferring(P, n, mcur, v0, v1, ip, iq);
    var p, q := P.vs[v0].vpos[ip], P.vs[v1].vpos[iq];
    RedirectsEntry(P, S, AddDiagonal(P, mcur, v0, v1, ip, iq), AddToShape(S, p, q, P.m), mcur, p, q);
  }

  lemma RedirectsEntry(P: Pool, S: Shape, Q: Pool, T: Shape, mcur: int, p: int, q: int)
    requires Partition(P.t, S.rings, P.m) && OnSome(S.rings, p) && OnSome(S.rings, q)
    requires 0 <= mcur <= P.last && P.last + 1 < |P.mon|
    requires Q.mon == P.mon[mcur := p][P.last + 1 := P.m + 1] && Q.last == P.last + 1
    requires T.rings == SpliceRings(S.rings, p, q, P.m + 1, P.m + 2)
    ensures AllEntered(Q, T) <==> AllEnteredElsewhere(P, S, mcur, RingOf(S.rings, p), RingOf(S.rings, q))
  {
    SpliceRingsAre(S.rings, p, q, P.m + 1, P.m + 2);
    EntriesRedirected(P, S, Q, T, mcur, p, q);
  }

  lemma EntriesRedirected(P: Pool, S: Shape, Q: Pool, T: Shape, mcur: int, p: int, q: int)
    requires Partition(P.t, S.rings, P.m) && OnSome(S.rings, p) && OnSome(S.rings, q)
    requires 0 <= mcur <= P.last && P.last + 1 < |P.mon|
    requires Q.mon == P.mon[mcur := p][P.last + 1 := P.m + 1] && Q.last == P.last + 1
    requires RingsAfter(S.rings, RingOf(S.rings, p), RingOf(S.rings, q), p, P.m + 1, T.rings)
    ensures AllEntered(Q, T) <==> AllEnteredElsewhere(P, S, mcur, RingOf(S.rings, p), RingOf(S.rings, q))
  {
    var a, b := RingOf(S.rings, p), RingOf(S.rings, q);
    if AllEntered(Q, T) {
      forall e | 0 <= e < |S.rings| && e != a && e != b ensures EnteredElsewhere(P, S, mcur, e) {
        assert StillThere(S.rings, e, T.rings);
        EntryWasThere(P, S, Q, T, mcur, p, e);
      }
    }
    if AllEnteredElsewhere(P, S, mcur, a, b) {
      forall f | 0 <= f < |T.rings| ensures exists k :: 0 <= k <= Q.last < |Q.mon| && Q.mon[k] in T.rings[f] {
        if p in T.rings[f] {
          assert Q.mon[mcur] == p;
        } else if P.m + 1 in T.rings[f] {
          assert Q.mon[Q.last] == P.m + 1;
        } else {
          assert WasThere(S.rings, a, b, T.rings[f]);
          var e :| 0 <= e < |S.rings| && e != a && e != b && S.rings[e] == T.rings[f];
          assert EnteredElsewhere(P, S, mcur, e);
          var k :| 0 <= k <= P.last && k != mcur && P.mon[k] in S.rings[e];
          assert Q.mon[k] == P.mon[k];
        }
      }
    }
  }

  lemma EntryWasThere(P: Pool, S: Shape, Q: Pool, T: Shape, mcur: int, p: int, e: int)
    requires Partition(P.t, S.rings, P.m) && OnSome(S.rings, p) && 0 <= e < |S.rings| && e != RingOf(S.rings, p)
    requires AllEntered(Q, T) && S.rings[e] in T.rings
    requires 0 <= mcur <= P.last && P.last + 1 < |P.mon|
    requires Q.mon == P.mon[mcur := p][P.last + 1 := P.m + 1] && Q.last == P.last + 1
    ensures EnteredElsewhere(P, S, mcur, e)
  {
    var f :| 0 <= f < |T.rings| && T.rings[f] == S.rings[e];
    var k :| 0 <= k <= Q.last < |Q.mon| && Q.mon[k] in T.rings[f];
    assert Apart(S.rings[e], S.rings[RingOf(S.rings, p)]);
    assert Within(S.rings[e], P.m);
    assert k != mcur && k != Q.last;
    assert P.mon[k] in S.rings[e];
  }
}
