/** Which points of the plane a set of triangles covers, read off the winding number.
    The signed crossings of a rightward ray from q are an antisymmetric edge weight, so
    every boundary identity about triangles is a covering identity about points. */
module Winding {
  import opened Plane
  import opened GreedyCut

  /** +1 when a -> b crosses the ray from q upwards, -1 when downwards, else 0. */
  function Crossing(a: Point, b: Point, q: Point): real {
    if a.y <= q.y < b.y && Cross(a, b, q) > 0.0 then 1.0
    else if b.y <= q.y < a.y && Cross(a, b, q) < 0.0 then -1.0
    else 0.0
  }

  function CrossingWeight(pts: seq<Point>, q: Point): (int, int) -> real {
    (a, b) => Crossing(At(pts, a), At(pts, b), q)
  }

  /** How often the ring winds around q. */
  ghost function WindingNumber(pts: seq<Point>, q: Point, w: seq<int>): real {
    RingSum(CrossingWeight(pts, q), w)
  }

  predicate Interior(pts: seq<Point>, t: Triangle, q: Point) {
    var a, b, c := At(pts, t.a), At(pts, t.b), At(pts, t.c);
    Cross(a, b, q) > 0.0 && Cross(b, c, q) > 0.0 && Cross(c, a, q) > 0.0
  }

  predicate Closed(pts: seq<Point>, t: Triangle, q: Point) {
    var a, b, c := At(pts, t.a), At(pts, t.b), At(pts, t.c);
    Cross(a, b, q) >= 0.0 && Cross(b, c, q) >= 0.0 && Cross(c, a, q) >= 0.0
  }

  /** How many triangles have q strictly inside. */
  function CountInterior(pts: seq<Point>, ts: seq<Triangle>, q: Point): nat {
    if ts == [] then 0 else (if Interior(pts, ts[0], q) then 1 else 0) + CountInterior(pts, ts[1..], q)
  }

  /** How many triangles have q inside or on their boundary. */
  function CountClosed(pts: seq<Point>, ts: seq<Triangle>, q: Point): nat {
    if ts == [] then 0 else (if Closed(pts, ts[0], q) then 1 else 0) + CountClosed(pts, ts[1..], q)
  }

  lemma CrossingFlips(a: Point, b: Point, q: Point)
    ensures Crossing(a, b, q) == -Crossing(b, a, q)
  {
    assert Cross(a, b, q) == -Cross(b, a, q);
  }

  lemma CrossingWeightIsAntisymmetric(pts: seq<Point>, q: Point)
    ensures Antisymmetric(CrossingWeight(pts, q))
  {
    forall a, b ensures CrossingWeight(pts, q)(a, b) == -CrossingWeight(pts, q)(b, a) {
      CrossingFlips(At(pts, a), At(pts, b), q);
    }
  }

  // ------------------------------------------------------------ one triangle

  function Crossings(a: Point, b: Point, c: Point, q: Point): real {
    Crossing(a, b, q) + Crossing(b, c, q) + Crossing(c, a, q)
  }

  lemma Barycentric(a: Point, b: Point, c: Point, q: Point)
    ensures Cross(a, b, q) + Cross(b, c, q) + Cross(c, a, q) == Cross(a, b, c)
    ensures Cross(b, c, q) * (a.y - q.y) + Cross(c, a, q) * (b.y - q.y) + Cross(a, b, q) * (c.y - q.y) == 0.0
  {
  }

  /** The winding of a positive triangle is 1 inside and 0 outside; on the boundary it is either. */
  ghost predicate WindsProperly(a: Point, b: Point, c: Point, q: Point) {
    var n := Crossings(a, b, c, q);
    && (n == 0.0 || n == 1.0)
    && (n == 1.0 ==> Cross(a, b, q) >= 0.0 && Cross(b, c, q) >= 0.0 && Cross(c, a, q) >= 0.0)
    && (Cross(a, b, q) > 0.0 && Cross(b, c, q) > 0.0 && Cross(c, a, q) > 0.0 ==> n == 1.0)
  }

  lemma ApexAbove(a: Point, b: Point, c: Point, q: Point)
    requires Cross(a, b, c) > 0.0 && a.y <= q.y && b.y <= q.y < c.y
    ensures WindsProperly(a, b, c, q)
  {
    var alpha, beta, gamma := Cross(b, c, q), Cross(c, a, q), Cross(a, b, q);
    Barycentric(a, b, c, q);
    BothNegative(alpha, beta, gamma, c.y - q.y, q.y - a.y, q.y - b.y);
  }

  lemma ApexBelow(a: Point, b: Point, c: Point, q: Point)
    requires Cross(a, b, c) > 0.0 && c.y <= q.y < a.y && q.y < b.y
    ensures WindsProperly(a, b, c, q)
  {
    var alpha, beta, gamma := Cross(b, c, q), Cross(c, a, q), Cross(a, b, q);
    Barycentric(a, b, c, q);
    BothNegative(alpha, beta, gamma, q.y - c.y, a.y - q.y, b.y - q.y);
  }

  /** The sign table behind both cases: gamma * k balances alpha * m + beta * n. */
  lemma BothNegative(alpha: real, beta: real, gamma: real, k: real, m: real, n: real)
    requires alpha + beta + gamma > 0.0
    requires k >= 0.0 && m >= 0.0 && n >= 0.0 && (k > 0.0 || (m > 0.0 && n > 0.0))
    requires gamma * k == alpha * m + beta * n
    ensures alpha < 0.0 ==> beta > 0.0
    ensures beta < 0.0 ==> alpha > 0.0
    ensures alpha >= 0.0 && beta >= 0.0 && (alpha > 0.0 || beta > 0.0) ==> gamma >= 0.0
  {
    if alpha <= 0.0 && beta <= 0.0 {
      MulNonNeg(-alpha, m);
      MulNonNeg(-beta, n);
      if k > 0.0 {
        if gamma > 0.0 { MulPos(gamma, k); }
      } else {
        if alpha < 0.0 { MulPos(-alpha, m); }
        if beta < 0.0 { MulPos(-beta, n); }
      }
    }
    if alpha >= 0.0 && beta >= 0.0 && gamma < 0.0 {
      MulNonNeg(alpha, m);
      MulNonNeg(beta, n);
      if k > 0.0 {
        MulPos(-gamma, k);
      } else {
        if alpha > 0.0 { MulPos(alpha, m); }
        if beta > 0.0 { MulPos(beta, n); }
      }
    }
  }

  lemma PositiveTriangleWinds(a: Point, b: Point, c: Point, q: Point)
    requires Cross(a, b, c) > 0.0
    ensures WindsProperly(a, b, c, q)
  {
    CrossRotates(a, b, c);
    var A, B, C := a.y > q.y, b.y > q.y, c.y > q.y;
    if A == B && B != C {
      if C { ApexAbove(a, b, c, q); } else { ApexBelow(a, b, c, q); }
    } else if B == C && C != A {
      if A { ApexAbove(b, c, a, q); } else { ApexBelow(b, c, a, q); }
    } else if C == A && A != B {
      if B { ApexAbove(c, a, b, q); } else { ApexBelow(c, a, b, q); }
    } else {
      assert Crossings(a, b, c, q) == 0.0;
      NoInteriorAtLevel(a, b, c, q);
    }
  }

  /** A point level with no edge of the triangle is not inside it. */
  lemma NoInteriorAtLevel(a: Point, b: Point, c: Point, q: Point)
    requires (a.y > q.y && b.y > q.y && c.y > q.y) || (a.y <= q.y && b.y <= q.y && c.y <= q.y)
    requires Cross(a, b, c) > 0.0
    ensures !(Cross(a, b, q) > 0.0 && Cross(b, c, q) > 0.0 && Cross(c, a, q) > 0.0)
  {
    var alpha, beta, gamma := Cross(b, c, q), Cross(c, a, q), Cross(a, b, q);
    if alpha > 0.0 && beta > 0.0 && gamma > 0.0 {
      Barycentric(a, b, c, q);
      AllLevel(alpha, beta, gamma, a.y - q.y, b.y - q.y, c.y - q.y);
      LevelIsFlat(a, b, c);
    }
  }

  lemma LevelIsFlat(a: Point, b: Point, c: Point)
    requires a.y == b.y == c.y
    ensures Cross(a, b, c) == 0.0
  {
  }

  lemma AllLevel(alpha: real, beta: real, gamma: real, x: real, y: real, z: real)
    requires alpha > 0.0 && beta > 0.0 && gamma > 0.0
    requires (x > 0.0 && y > 0.0 && z > 0.0) || (x <= 0.0 && y <= 0.0 && z <= 0.0)
    requires alpha * x + beta * y + gamma * z == 0.0
    ensures x == 0.0 && y == 0.0 && z == 0.0
  {
    if x > 0.0 {
      MulPos(alpha, x);
      MulPos(beta, y);
      MulPos(gamma, z);
    } else {
      MulNonNeg(alpha, -x);
      MulNonNeg(beta, -y);
      MulNonNeg(gamma, -z);
      if x < 0.0 { MulPos(alpha, -x); }
      if y < 0.0 { MulPos(beta, -y); }
      if z < 0.0 { MulPos(gamma, -z); }
    }
  }

  // ------------------------------------------------------------ many triangles

  /** For positively oriented triangles the summed winding counts the triangles over q. */
  lemma {:induction false} WindingCountsTriangles(pts: seq<Point>, ts: seq<Triangle>, q: Point)
    requires Positive(pts, ts)
    ensures var n := TriangleSum(CrossingWeight(pts, q), ts);
            0.0 <= n && CountInterior(pts, ts, q) as real <= n <= CountClosed(pts, ts, q) as real
  {
    if ts != [] {
      var t := ts[0];
      assert t in ts;
      assert Positive(pts, ts[1..]);
      PositiveTriangleWinds(At(pts, t.a), At(pts, t.b), At(pts, t.c), q);
      WindingCountsTriangles(pts, ts[1..], q);
    }
  }

  /** A monotone path crosses the ray at most once, and only in its own direction. */
  lemma {:induction false} MonotonePathCrossesOnce(pts: seq<Point>, q: Point, w: seq<int>, down: bool)
    requires |w| >= 1 && Monotone(pts, w, down)
    ensures PathSum(CrossingWeight(pts, q), w) in {0.0, if down then -1.0 else 1.0}
    ensures (if down then At(pts, w[0]).y <= q.y else At(pts, w[0]).y > q.y)
            ==> PathSum(CrossingWeight(pts, q), w) == 0.0
  {
    if |w| > 1 {
      assert StepsAt(pts, w, 0, down);
      forall k: nat | k + 1 < |w[1..]| ensures StepsAt(pts, w[1..], k, down) {
        assert StepsAt(pts, w, k + 1, down);
      }
      MonotonePathCrossesOnce(pts, q, w[1..], down);
    }
  }

  lemma MonotoneRingWinds(pts: seq<Point>, q: Point, w: seq<int>, down: bool)
    requires |w| >= 2 && Monotone(pts, w, down)
    ensures WindingNumber(pts, q, w) in {-1.0, 0.0, 1.0}
  {
    MonotonePathCrossesOnce(pts, q, w, down);
    MonotoneSpan(pts, w, down, 0, |w| - 1);
  }

  /** The greedy cutter tiles its polygon: q lies strictly inside at most one triangle;
      it lies in none when the polygon does not wind around it, and in (the closure of)
      at least one when it does. */
  lemma CutTiles(pts: seq<Point>, w: seq<int>, q: Point)
    requires OneSided(pts, w)
    requires Monotone(pts, w, true) || Monotone(pts, w, false)
    ensures WindingNumber(pts, q, w) in {0.0, 1.0}
    ensures CountInterior(pts, Cut(pts, w[..2], w[2..]), q) as real <= WindingNumber(pts, q, w)
    ensures WindingNumber(pts, q, w) <= CountClosed(pts, Cut(pts, w[..2], w[2..]), q) as real
  {
    StartsWorking(pts, w);
    CrossingWeightIsAntisymmetric(pts, q);
    CutKeepsBoundary(pts, w, w[..2], w[2..], CrossingWeight(pts, q));
    assert w[..2] + w[2..] == w;
    CutCountsAndTurns(pts, w, w[..2], w[2..]);
    WindingCountsTriangles(pts, Cut(pts, w[..2], w[2..]), q);
    MonotoneRingWinds(pts, q, w, Monotone(pts, w, true));
  }
}
