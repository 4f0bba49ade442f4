/** What the boundary identity of the final pass means for areas and for points. */
module Coverage {
  import opened Plane
  import opened GreedyCut
  import opened Winding
  import opened Diagonals
  import opened Splitter

  /** One term of the shoelace formula. */
  function Shoelace(pts: seq<Point>): (int, int) -> real {
    (a, b) => Det(At(pts, a), At(pts, b))
  }

  ghost function TotalArea2(pts: seq<Point>, ts: seq<Triangle>): real {
    if ts == [] then 0.0 else CrossAt(pts, ts[0].a, ts[0].b, ts[0].c) + TotalArea2(pts, ts[1..])
  }

  lemma {:induction false} AreaIsShoelace(pts: seq<Point>, ts: seq<Triangle>)
    ensures TotalArea2(pts, ts) == TriangleSum(Shoelace(pts), ts)
  {
    if ts != [] {
      OneArea(At(pts, ts[0].a), At(pts, ts[0].b), At(pts, ts[0].c));
      AreaIsShoelace(pts, ts[1..]);
    }
  }

  lemma OneArea(a: Point, b: Point, c: Point)
    ensures Cross(a, b, c) == Det(a, b) + Det(b, c) + Det(c, a)
  {
  }

  lemma ShoelaceIsAntisymmetric(pts: seq<Point>)
    ensures Antisymmetric(Shoelace(pts))
  {
    forall a, b ensures Shoelace(pts)(a, b) == -Shoelace(pts)(b, a) {
      DetFlips(At(pts, a), At(pts, b));
    }
  }

  lemma DetFlips(u: Point, v: Point)
    ensures Det(u, v) == -Det(v, u)
  {
  }

  /** The triangles' areas add up to the area the contours enclose. */
  lemma AreaConserved(pts: seq<Point>, ts: seq<Triangle>, cs: seq<seq<int>>)
    requires SameBoundaryAs(ts, cs)
    ensures TotalArea2(pts, ts) == ContourSum(Shoelace(pts), cs)
  {
    ShoelaceIsAntisymmetric(pts);
    AreaIsShoelace(pts, ts);
  }

  /** How often the contours wind around q: 1 inside the polygon, 0 outside and in holes. */
  ghost function ContourWinding(pts: seq<Point>, q: Point, cs: seq<seq<int>>): real {
    ContourSum(CrossingWeight(pts, q), cs)
  }

  /** A point is strictly inside no more triangles, and in the closure of no fewer, than
      the contours wind around it. Where they wind once, exactly one triangle's interior
      can hold the point and at least one closed triangle does; where they do not wind,
      no triangle's interior does. */
  lemma ContoursCovered(pts: seq<Point>, ts: seq<Triangle>, cs: seq<seq<int>>, q: Point)
    requires Positive(pts, ts) && SameBoundaryAs(ts, cs)
    ensures CountInterior(pts, ts, q) as real <= ContourWinding(pts, q, cs)
    ensures ContourWinding(pts, q, cs) <= CountClosed(pts, ts, q) as real
  {
    CrossingWeightIsAntisymmetric(pts, q);
    WindingCountsTriangles(pts, ts, q);
  }
}
