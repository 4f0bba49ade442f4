/** The polygon's contours as they are laid out in the segment table: one circular list
    per contour, each over a block of consecutive vertex numbers. */
module Contours {
  import opened Sequences
  import opened Plane
  import opened Rings
  import opened Polygons
  import opened Diagonals
  import opened Trapezoids
  import GreedyCut

  function Sum(cntr: seq<nat>): nat {
    if cntr == [] then 0 else cntr[0] + Sum(cntr[1..])
  }

  function Block(first: int, len: nat): (b: seq<int>)
    ensures |b| == len
  {
    seq(len, k => first + k)
  }

  /** The contours' vertex numbers, from vertex `first` on; empty contours leave no ring. */
  function Blocks(cntr: seq<nat>, first: int): seq<seq<int>> {
    if cntr == [] then []
    else if cntr[0] == 0 then Blocks(cntr[1..], first)
    else [Block(first, cntr[0])] + Blocks(cntr[1..], first + cntr[0])
  }

  /** Segment k of contour c runs from its own vertex to the next one's, and is linked to
      both neighbours. */
  predicate ContourAt(seg: seq<Segment>, vertices: seq<Point>, c: seq<int>, k: nat)
    requires k < |c|
  {
    && 0 < c[k] < |seg|
    && seg[c[k]].next == c[After(k, |c|)] && seg[c[k]].prev == c[Before(k, |c|)]
    && seg[c[k]].v0 == At(vertices, c[k]) && seg[c[k]].v1 == At(vertices, c[After(k, |c|)])
  }

  ghost predicate ContourOk(seg: seq<Segment>, vertices: seq<Point>, c: seq<int>) {
    forall k :: 0 <= k < |c| ==> ContourAt(seg, vertices, c, k)
  }

  ghost predicate ContoursOk(seg: seq<Segment>, vertices: seq<Point>, cs: seq<seq<int>>) {
    forall a :: 0 <= a < |cs| ==> ContourOk(seg, vertices, cs[a])
  }

  // ------------------------------------------------------------ the blocks partition 1..n

  lemma {:induction false} BlocksPartition(cntr: seq<nat>, first: int)
    ensures TotalLength(Blocks(cntr, first)) == Sum(cntr)
    ensures Disjoint(Blocks(cntr, first), first, first + Sum(cntr))
    ensures forall x :: first <= x < first + Sum(cntr) ==> OnSome(Blocks(cntr, first), x)
  {
    if cntr != [] {
      var rest, b := first + cntr[0], Block(first, cntr[0]);
      BlocksPartition(cntr[1..], rest);
      if cntr[0] > 0 {
        var bs := Blocks(cntr[1..], rest);
        assert ([b] + bs)[1..] == bs;
        BlockBefore(b, bs, first, rest, rest + Sum(cntr[1..]));
      }
    }
  }

  /** Non-empty rings without repetition, apart from each other, all inside the range. */
  ghost predicate Disjoint(cs: seq<seq<int>>, lo: int, hi: int) {
    && (forall a :: 0 <= a < |cs| ==> cs[a] != [] && Distinct(cs[a]) && InRange(cs[a], lo, hi))
    && (forall a, b :: 0 <= a < |cs| && 0 <= b < |cs| && a != b ==> Apart(cs[a], cs[b]))
  }

  /** A block in front of others that lie behind it. */
  lemma BlockBefore(b: seq<int>, bs: seq<seq<int>>, first: int, rest: int, end: int)
    requires first < rest <= end && b == Block(first, rest - first) && Disjoint(bs, rest, end)
    requires forall x :: rest <= x < end ==> OnSome(bs, x)
    ensures Disjoint([b] + bs, first, end)
    ensures forall x :: first <= x < end ==> OnSome([b] + bs, x)
  {
    var all := [b] + bs;
    assert forall a :: 1 <= a < |all| ==> all[a] == bs[a - 1];
    forall x | first <= x < end ensures OnSome(all, x) {
      if x < rest {
        assert all[0][x - first] == x;
      } else {
        assert OnSome(bs, x);
        var a :| 0 <= a < |bs| && x in bs[a];
        assert x in all[a + 1];
      }
    }
    forall a | 1 <= a < |all| ensures InRange(all[a], rest, end) { assert InRange(bs[a - 1], rest, end); }
    forall a, d | 0 <= a < |all| && 0 <= d < |all| && a != d ensures Apart(all[a], all[d]) {
      if a > 0 && d > 0 { assert Apart(bs[a - 1], bs[d - 1]); }
    }
  }

  ghost predicate InRange(c: seq<int>, lo: int, hi: int) {
    forall k :: 0 <= k < |c| ==> lo <= c[k] < hi
  }

  /** The chain elements a fresh run starts from: one per vertex, linked as the segments. */
  function InitialChains(seg: seq<Segment>, n: int, size: nat): Table {
    seq(size, x requires 0 <= x < size =>
      if 1 <= x <= n then Link(x, SegmentAt(seg, x).next, SegmentAt(seg, x).prev, false) else Link(0, 0, 0, false))
  }

  /** Well-built contours are a partition of the pool into rings, and the rings bound what
      the contours bound. */
  lemma ContoursAreRings(seg: seq<Segment>, vertices: seq<Point>, cntr: seq<nat>, size: nat)
    requires Sum(cntr) < size && Sum(cntr) < |seg| && ContoursOk(seg, vertices, Blocks(cntr, 1))
    ensures Partition(InitialChains(seg, Sum(cntr), size), Blocks(cntr, 1), Sum(cntr))
    ensures SameBoundary(InitialChains(seg, Sum(cntr), size), Blocks(cntr, 1), Blocks(cntr, 1))
  {
    var n, cs := Sum(cntr), Blocks(cntr, 1);
    var t := InitialChains(seg, n, size);
    BlocksPartition(cntr, 1);
    forall a | 0 <= a < |cs| ensures IsRing(t, cs[a]) && Within(cs[a], n) {
      assert ContourOk(seg, vertices, cs[a]) && InRange(cs[a], 1, 1 + n);
      forall k | 0 <= k < |cs[a]| ensures LinkedAt(t, cs[a], k) {
        assert ContourAt(seg, vertices, cs[a], k);
      }
    }
    forall W | GreedyCut.Antisymmetric(W) ensures Boundary(W, t, cs) == ContourSum(W, cs) {
      assert forall a :: 0 <= a < |cs| ==> InRange(cs[a], 1, 1 + n);
      OwnVertices(W, seg, n, size, cs);
    }
  }

  lemma {:induction false} OwnVertices(W: (int, int) -> real, seg: seq<Segment>, n: int, size: nat, cs: seq<seq<int>>)
    requires n < size && forall a :: 0 <= a < |cs| ==> InRange(cs[a], 1, 1 + n)
    ensures Boundary(W, InitialChains(seg, n, size), cs) == ContourSum(W, cs)
  {
    if cs != [] {
      assert InRange(cs[0], 1, 1 + n);
      assert Vertices(InitialChains(seg, n, size), cs[0]) == cs[0];
      OwnVertices(W, seg, n, size, cs[1..]);
    }
  }

  /** The splitter's tables before the first diagonal. */
  function InitialVertices(seg: seq<Segment>, n: int, size: nat): seq<VertexChain> {
    seq(size, v requires 0 <= v < size =>
      if 1 <= v <= n then VertexChain(SegmentAt(seg, v).v0, [SegmentAt(seg, v).next], [v])
      else VertexChain(ORIGIN, [], []))
  }

  lemma InitialPoolIsCoherent(seg: seq<Segment>, vertices: seq<Point>, cntr: seq<nat>, chains: nat, P: Pool)
    requires 1 <= Sum(cntr) < |seg| <= chains && ContoursOk(seg, vertices, Blocks(cntr, 1))
    requires P.t == InitialChains(seg, Sum(cntr), chains) && P.vs == InitialVertices(seg, Sum(cntr), |seg|)
    requires |P.mon| == |seg| && P.mon[0] == 1 && P.m == Sum(cntr) && P.last == 0
    ensures Coherent(P, Shape(Blocks(cntr, 1), 0), Sum(cntr), Blocks(cntr, 1))
  {
    var n, cs := Sum(cntr), Blocks(cntr, 1);
    ContoursAreRings(seg, vertices, cntr, chains);
    forall v | 1 <= v <= n ensures SlotsOk(P, v) && SlotsTellAt(P, v) && HasSlot(P, v) {
      MirroredLinks(P.t, cs, n, v);
    }
  }

  // ------------------------------------------------------------ building the table

  lemma {:induction false} BlocksSnoc(cntr: seq<nat>, len: nat, first: int)
    ensures Sum(cntr + [len]) == Sum(cntr) + len
    ensures Blocks(cntr + [len], first)
         == Blocks(cntr, first) + if len == 0 then [] else [Block(first + Sum(cntr), len)]
  {
    if cntr == [] {
      assert cntr + [len] == [len];
      assert [len][1..] == [];
    } else {
      assert (cntr + [len])[1..] == cntr[1..] + [len];
      BlocksSnoc(cntr[1..], len, first + if cntr[0] == 0 then 0 else cntr[0]);
    }
  }

  /** What storing vertex j of the contour of n >= 2 vertices from `first` does to segment
      first + k: its own fields when k == j, its end point when j follows k. */
  function Stored(s: Segment, vertices: seq<Point>, first: int, n: nat, j: nat, k: nat): Segment {
    var s1 := if k == Before(j, n) then s.(v1 := At(vertices, first + j)) else s;
    if k == j
    then s1.(v0 := At(vertices, first + j), next := first + After(j, n), prev := first + Before(j, n),
             isInserted := false)
    else s1
  }

  /** Segment k of the contour when j of its vertices have been stored: its own links are
      set once its vertex is, its end point once the next one is. */
  predicate PartlyBuilt(seg: seq<Segment>, vertices: seq<Point>, first: int, n: nat, j: nat, k: nat) {
    && 0 < first + k < |seg|
    && (k < j ==> seg[first + k].next == first + After(k, n) && seg[first + k].prev == first + Before(k, n)
                  && seg[first + k].v0 == At(vertices, first + k))
    && (After(k, n) < j ==> seg[first + k].v1 == At(vertices, first + After(k, n)))
  }

  lemma StoredBuilds(before: seq<Segment>, after: seq<Segment>, vertices: seq<Point>, first: int, n: nat,
                     j: nat, k: nat)
    requires |before| == |after| && j < n && k < n
    requires PartlyBuilt(before, vertices, first, n, j, k)
    requires after[first + k] == Stored(before[first + k], vertices, first, n, j, k)
    ensures PartlyBuilt(after, vertices, first, n, j + 1, k)
  {
  }

  /** One vertex of the contour, with the three cases of the inner loop. */
  method StoreVertex(vertices: seq<Point>, first: int, npoints: nat, j: nat, seg: array<Segment>)
    requires 0 < first && 2 <= npoints && first + npoints <= seg.Length && j < npoints
    modifies seg
    ensures forall x :: first <= x < first + npoints ==>
              seg[x] == Stored(old(seg[x]), vertices, first, npoints, j, x - first)
    ensures forall x :: 0 <= x < seg.Length && !(first <= x < first + npoints) ==> seg[x] == old(seg[x])
  {
    var i, last := first + j, first + npoints - 1;
    seg[i] := seg[i].(v0 := At(vertices, i));
    if i == last {
      seg[i] := seg[i].(next := first);
      seg[i] := seg[i].(prev := i - 1);
      seg[i - 1] := seg[i - 1].(v1 := seg[i].v0);
    } else if i == first {
      seg[i] := seg[i].(next := i + 1);
      seg[i] := seg[i].(prev := last);
      seg[last] := seg[last].(v1 := seg[i].v0);
    } else {
      seg[i] := seg[i].(prev := i - 1);
      seg[i] := seg[i].(next := i + 1);
      seg[i - 1] := seg[i - 1].(v1 := seg[i].v0);
    }
    seg[i] := seg[i].(isInserted := false);
  }

  /** One contour of two or more points becomes a ring of segments. */
  method BuildContour(vertices: seq<Point>, first: int, npoints: nat, seg: array<Segment>)
    requires 0 < first && 2 <= npoints && first + npoints <= seg.Length
    modifies seg
    ensures ContourOk(seg[..], vertices, Block(first, npoints))
    ensures forall x :: 0 <= x < seg.Length && !(first <= x < first + npoints) ==> seg[x] == old(seg[x])
  {
    var j := 0;
    while j < npoints
      invariant 0 <= j <= npoints
      invariant forall k: nat :: k < npoints ==> PartlyBuilt(seg[..], vertices, first, npoints, j, k)
      invariant forall x :: 0 <= x < seg.Length && !(first <= x < first + npoints) ==> seg[x] == old(seg[x])
    {
      ghost var before, was := seg[..], j;
      StoreVertex(vertices, first, npoints, j, seg);
      j := j + 1;
      forall k: nat | k < npoints ensures PartlyBuilt(seg[..], vertices, first, npoints, j, k) {
        StoredBuilds(before, seg[..], vertices, first, npoints, was, k);
      }
    }
    var c := Block(first, npoints);
    forall k | 0 <= k < npoints ensures ContourAt(seg[..], vertices, c, k) {
      assert PartlyBuilt(seg[..], vertices, first, npoints, j, k);
    }
  }

  /** A contour of a single point: it takes the branch of the last point only, so it is
      linked back to the segment before its own and overwrites that one's end point. */
  method BuildSinglePoint(vertices: seq<Point>, first: int, seg: array<Segment>)
    requires 0 < first < seg.Length
    modifies seg
    ensures seg[first].prev == first - 1
    ensures seg[first - 1] == old(seg[first - 1]).(v1 := At(vertices, first))
    ensures forall x :: 0 <= x < seg.Length && x != first - 1 && x != first ==> seg[x] == old(seg[x])
  {
    seg[first] := seg[first].(v0 := At(vertices, first));
    seg[first] := seg[first].(next := first);
    seg[first] := seg[first].(prev := first - 1);
    seg[first - 1] := seg[first - 1].(v1 := seg[first].v0);
    seg[first] := seg[first].(isInserted := false);
  }

  /** Every single point contour keeps its wrong back link. */
  ghost predicate SinglesAstray(seg: seq<Segment>, cs: seq<seq<int>>) {
    forall a :: 0 <= a < |cs| && |cs[a]| == 1 ==> 0 <= cs[a][0] < |seg| && seg[cs[a][0]].prev == cs[a][0] - 1
  }

  lemma {:induction false} SingleHasBlock(cntr: seq<nat>, first: int)
    ensures 1 in cntr <==> exists a :: 0 <= a < |Blocks(cntr, first)| && |Blocks(cntr, first)[a]| == 1
  {
    if cntr != [] {
      var rest := Blocks(cntr[1..], first + cntr[0]);
      SingleHasBlock(cntr[1..], first + cntr[0]);
      assert 1 in cntr <==> cntr[0] == 1 || 1 in cntr[1..];
      if cntr[0] == 0 {
        assert Blocks(cntr, first) == rest;
      } else {
        var all := Blocks(cntr, first);
        assert all == [Block(first, cntr[0])] + rest;
        assert |all[0]| == cntr[0];
        if a :| 0 <= a < |rest| && |rest[a]| == 1 { assert all[a + 1] == rest[a]; }
        if b :| 1 <= b < |all| && |all[b]| == 1 { assert rest[b - 1] == all[b]; }
      }
    }
  }

  lemma {:induction false} SumJoin(a: seq<nat>, b: seq<nat>)
    ensures Sum(a + b) == Sum(a) + Sum(b)
  {
    if a == [] {
      assert a + b == b;
    } else {
      assert (a + b)[1..] == a[1..] + b;
      SumJoin(a[1..], b);
    }
  }

  /** Contour c of a length the table can hold ends up well built unless it is a single
      point; then it is astray. */
  ghost predicate BuiltOrAstray(seg: seq<Segment>, vertices: seq<Point>, c: seq<int>) {
    if |c| == 1 then 0 <= c[0] < |seg| && seg[c[0]].prev == c[0] - 1 else ContourOk(seg, vertices, c)
  }

  /** Below i the two tables differ at most in end points, and in none unless `loose`. */
  ghost predicate SameBelow(before: seq<Segment>, after: seq<Segment>, i: int, loose: bool) {
    && |before| == |after| && i <= |after|
    && forall x :: 0 <= x < i ==>
         after[x].prev == before[x].prev && (!loose ==> after[x] == before[x])
  }

  lemma EarlierSurvive(before: seq<Segment>, after: seq<Segment>, vertices: seq<Point>, cs: seq<seq<int>>,
                       i: int, loose: bool)
    requires SameBelow(before, after, i, loose)
    requires forall a :: 0 <= a < |cs| ==> InRange(cs[a], 1, i)
    ensures SinglesAstray(before, cs) ==> SinglesAstray(after, cs)
    ensures ContoursOk(before, vertices, cs) && !loose ==> ContoursOk(after, vertices, cs)
  {
    forall a | 0 <= a < |cs| && |cs[a]| == 1 && SinglesAstray(before, cs)
      ensures 0 <= cs[a][0] < |after| && after[cs[a][0]].prev == cs[a][0] - 1
    {
      assert InRange(cs[a], 1, i);
    }
    if ContoursOk(before, vertices, cs) && !loose {
      forall a | 0 <= a < |cs| ensures ContourOk(after, vertices, cs[a]) {
        assert ContourOk(before, vertices, cs[a]) && InRange(cs[a], 1, i);
        forall k | 0 <= k < |cs[a]| ensures ContourAt(after, vertices, cs[a], k) {
          assert ContourAt(before, vertices, cs[a], k);
        }
      }
    }
  }

  lemma SinglesSpoil(seg: seq<Segment>, vertices: seq<Point>, cs: seq<seq<int>>, a: nat)
    requires SinglesAstray(seg, cs) && a < |cs| && |cs[a]| == 1
    ensures !ContoursOk(seg, vertices, cs)
  {
    assert !ContourAt(seg, vertices, cs[a], 0);
    assert !ContourOk(seg, vertices, cs[a]);
  }

  /** One contour, of any number of points. */
  method AddContour(vertices: seq<Point>, first: int, npoints: nat, seg: array<Segment>)
    requires 0 < first && first + npoints <= seg.Length
    modifies seg
    ensures SameBelow(old(seg[..]), seg[..], first, npoints == 1)
    ensures BuiltOrAstray(seg[..], vertices, Block(first, npoints))
  {
    if npoints == 1 {
      BuildSinglePoint(vertices, first, seg);
    } else if npoints > 1 {
      BuildContour(vertices, first, npoints, seg);
    }
  }

  /** The table after the contours `done`. */
  ghost predicate Built(seg: seq<Segment>, vertices: seq<Point>, done: seq<nat>) {
    && SinglesAstray(seg, Blocks(done, 1))
    && (1 !in done ==> ContoursOk(seg, vertices, Blocks(done, 1)))
  }

  lemma BuiltGrows(before: seq<Segment>, after: seq<Segment>, vertices: seq<Point>, done: seq<nat>, npoints: nat)
    requires Built(before, vertices, done)
    requires SameBelow(before, after, 1 + Sum(done), npoints == 1)
    requires BuiltOrAstray(after, vertices, Block(1 + Sum(done), npoints))
    ensures Built(after, vertices, done + [npoints])
  {
    var bs, b := Blocks(done, 1), Block(1 + Sum(done), npoints);
    BlocksSnoc(done, npoints, 1);
    BlocksPartition(done, 1);
    EarlierSurvive(before, after, vertices, bs, 1 + Sum(done), npoints == 1);
    if npoints != 0 { OneMoreBlock(after, vertices, bs, b); }
  }

  lemma OneMoreBlock(seg: seq<Segment>, vertices: seq<Point>, bs: seq<seq<int>>, b: seq<int>)
    requires SinglesAstray(seg, bs) && BuiltOrAstray(seg, vertices, b)
    ensures SinglesAstray(seg, bs + [b])
    ensures ContoursOk(seg, vertices, bs) && |b| != 1 ==> ContoursOk(seg, vertices, bs + [b])
  {
    var all := bs + [b];
    assert forall a :: 0 <= a < |bs| ==> all[a] == bs[a];
    assert all[|bs|] == b;
  }

  /** The whole table, contour after contour: it holds one ring per contour exactly when
      no contour is a single point. */
  method BuildContours(cntr: seq<nat>, vertices: seq<Point>, seg: array<Segment>) returns (n: int)
    requires Sum(cntr) < seg.Length
    modifies seg
    ensures n == Sum(cntr)
    ensures ContoursOk(seg[..], vertices, Blocks(cntr, 1)) <==> 1 !in cntr
  {
    var i, ccount := 1, 0;
    while ccount < |cntr|
      invariant 0 <= ccount <= |cntr| && i == 1 + Sum(cntr[..ccount])
      invariant Built(seg[..], vertices, cntr[..ccount])
    {
      ghost var done, before := cntr[..ccount], seg[..];
      var npoints := cntr[ccount];
      SumStep(cntr, ccount);
      AddContour(vertices, i, npoints, seg);
      BuiltGrows(before, seg[..], vertices, done, npoints);
      assert cntr[..ccount + 1] == done + [npoints];
      ccount, i := ccount + 1, i + npoints;
    }
    assert cntr[..ccount] == cntr;
    n := i - 1;
    OkWithoutSingles(seg[..], vertices, cntr);
  }

  lemma OkWithoutSingles(seg: seq<Segment>, vertices: seq<Point>, cntr: seq<nat>)
    requires Built(seg, vertices, cntr)
    ensures ContoursOk(seg, vertices, Blocks(cntr, 1)) <==> 1 !in cntr
  {
    SingleHasBlock(cntr, 1);
    if 1 in cntr {
      var a :| 0 <= a < |Blocks(cntr, 1)| && |Blocks(cntr, 1)[a]| == 1;
      SinglesSpoil(seg, vertices, Blocks(cntr, 1), a);
    }
  }

  lemma SumStep(cntr: seq<nat>, k: nat)
    requires k < |cntr|
    ensures Sum(cntr[..k + 1]) == Sum(cntr[..k]) + cntr[k] <= Sum(cntr)
  {
    assert cntr[..k + 1] == cntr[..k] + [cntr[k]];
    assert cntr == cntr[..k + 1] + cntr[k + 1..];
    SumJoin(cntr[..k + 1], cntr[k + 1..]);
    BlocksSnoc(cntr[..k], cntr[k], 1);
  }
}
