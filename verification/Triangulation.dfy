/** The triangulator from the contours to the splitter's first state: the segment table is
    built, the segments are inserted in random order, and the splitter starts from the
    finished trapezoidation. */
module Triangulation {
  import opened Sequences
  import opened Plane
  import opened Rings
  import opened Polygons
  import opened Diagonals
  import opened Trapezoids
  import opened Trapezoidation
  import opened Ordering
  import opened QueryStructure
  import opened Insertion
  import opened Tables
  import opened Separation
  import opened Drawings
  import Splitter
  import Contours

  /** Segments of well-built contours have their neighbours in the table. */
  lemma ContoursGiveNeighbours(seg: seq<Segment>, vertices: seq<Point>, cntr: seq<nat>)
    requires Contours.Sum(cntr) < |seg| && Contours.ContoursOk(seg, vertices, Contours.Blocks(cntr, 1))
    ensures NeighboursOk(seg, Contours.Sum(cntr))
  {
    var n, cs := Contours.Sum(cntr), Contours.Blocks(cntr, 1);
    Contours.BlocksPartition(cntr, 1);
    forall i | 1 <= i <= n ensures 0 <= seg[i].prev < |seg| && 0 <= seg[i].next < |seg| {
      assert OnSome(cs, i);
      var a := RingOf(cs, i);
      var c := cs[a];
      var k := Index(c, i);
      assert Contours.ContourOk(seg, vertices, c) && Contours.ContourAt(seg, vertices, c, k);
      assert Contours.InRange(c, 1, 1 + n);
    }
  }

  /** The trapezoidation leaves the contours as they are. */
  lemma ContoursSurvive(before: seq<Segment>, after: seq<Segment>, vertices: seq<Point>, cs: seq<seq<int>>)
    requires SameContours(before, after) && Contours.ContoursOk(before, vertices, cs)
    ensures Contours.ContoursOk(after, vertices, cs)
  {
    forall a | 0 <= a < |cs| ensures Contours.ContourOk(after, vertices, cs[a]) {
      assert Contours.ContourOk(before, vertices, cs[a]);
      forall k | 0 <= k < |cs[a]| ensures Contours.ContourAt(after, vertices, cs[a], k) {
        assert Contours.ContourAt(before, vertices, cs[a], k);
      }
    }
  }

  /** Initialise an instance: no segment is in yet, and their order is drawn. */
  method Initialise(n: nat, seg: array<Segment>, rand: seq<nat>, permute: array<int>)
    requires |rand| == n && n < permute.Length && n < seg.Length
    modifies seg, permute
    ensures SameContours(old(seg[..]), seg[..])
    ensures permute[1..n + 1] == OrderOf(n, rand) && IsOrdering(permute[1..n + 1], n)
    ensures forall i :: 1 <= i <= n ==> !seg[i].isInserted
  {
    var i := 1;
    while i <= n
      invariant 1 <= i <= n + 1 && SameContours(old(seg[..]), seg[..])
      invariant forall j :: 1 <= j < i ==> !seg[j].isInserted
    {
      seg[i] := seg[i].(isInserted := false);
      i := i + 1;
    }
    GenerateRandomOrdering(n, rand, permute);
  }

  /** Segments of well-built contours share their end points with their neighbours. */
  lemma ContoursAreJoined(seg: seq<Segment>, vertices: seq<Point>, cntr: seq<nat>)
    requires Contours.Sum(cntr) < |seg| && Contours.ContoursOk(seg, vertices, Contours.Blocks(cntr, 1))
    ensures Joined(seg, Contours.Sum(cntr))
  {
    var n, cs := Contours.Sum(cntr), Contours.Blocks(cntr, 1);
    Contours.BlocksPartition(cntr, 1);
    forall i | 1 <= i <= n < |seg| ensures JoinedAt(seg, n, i) {
      assert OnSome(cs, i);
      var c := cs[RingOf(cs, i)];
      var k := Index(c, i);
      assert Contours.ContourOk(seg, vertices, c) && Contours.InRange(c, 1, 1 + n);
      var b, a := Before(k, |c|), After(k, |c|);
      assert After(b, |c|) == k && c[a] != 0 && c[b] != 0;
      assert Contours.ContourAt(seg, vertices, c, k);
      assert Contours.ContourAt(seg, vertices, c, a) && Contours.ContourAt(seg, vertices, c, b);
    }
  }

  /** The segment is in, as node and flank, with the levels of both its ends. */
  ghost predicate AsSegment(Q: Query, seg: seq<Segment>, i: int)
    requires 0 <= i < |seg|
  {
    seg[i].isInserted && Installed(Q, i) && Keyed(Q, seg[i].v0) && Keyed(Q, seg[i].v1)
  }

  const EMPTY_SEGMENT := Segment(ORIGIN, ORIGIN, false, 0, 0, 0, 0)

  /** Everything sei_triangulate_polygon does before it starts to split: without contours of
      a single point, and if and only if the tables have room for every segment, the splitter
      starts from exactly the rings of the contours and from a trapezoidation all segments
      went into. `table` holds the segments before the first of them is in. */
  method StartSplitting(cntr: seq<nat>, vertices: seq<Point>, size: nat, rand: seq<nat>, marks: seq<int>,
                        route: Router, huge: real, angle: AngleMeasure)
    returns (m: Splitter.Monotone?, tz: Trapezoidation, ok: bool, ghost table: seq<Segment>)
    requires 1 <= Contours.Sum(cntr) < size && 2 <= size && 1 !in cntr && |rand| == Contours.Sum(cntr)
    requires IsPhasing(marks, Contours.Sum(cntr)) && GoodRouter(route)
    ensures |table| == size && Contours.ContoursOk(table, vertices, Contours.Blocks(cntr, 1))
    ensures var n := Contours.Sum(cntr); var I := Input(table, n, OrderOf(n, rand), route, 8 * size, 4 * size, huge);
            (ok <==> RunFits(I)) && (ok ==> tz.Now() == StageAt(I, n))
    ensures ok ==> tz.Valid() && tz.root == ROOT && tz.huge == huge && tz.Surrounding()
    ensures ok ==> SameContours(table, tz.seg[..])
    ensures ok <==> m != null
    ensures m != null ==> fresh(m) && m.Valid() && m.contours == Contours.Blocks(cntr, 1)
                          && m.n == m.chainIdx == Contours.Sum(cntr) && m.monIdx == 0 && m.op == []
                          && m.tr == tz.tr[..] && m.seg == tz.seg[..]
                          && (forall i :: 1 <= i <= m.n < |m.seg| ==> AsSegment(tz.State(), m.seg, i))
                          && (forall k :: 0 <= k < m.visited.Length ==> !m.visited[k])
  {
    var seg := new Segment[size](k => EMPTY_SEGMENT);
    var n := Contours.BuildContours(cntr, vertices, seg);
    ghost var built := seg[..];
    ContoursGiveNeighbours(built, vertices, cntr);
    var permute := new int[size];
    Initialise(n, seg, rand, permute);
    SameContoursKeep(built, seg[..], n);
    table := seg[..];
    ContoursSurvive(built, table, vertices, Contours.Blocks(cntr, 1));
    tz, ok := ConstructTrapezoids(seg, n, permute[1..n + 1], marks, route, 8 * size, 4 * size, huge);
    if !ok { return null, tz, false, table; }
    ContoursSurvive(table, seg[..], vertices, Contours.Blocks(cntr, 1));
    ContoursAreJoined(seg[..], vertices, cntr);
    m := new Splitter.Monotone(tz.tr[..], seg[..], angle, n, cntr, vertices);
  }
}
