/** Points of the plane, over exact reals, with the two primitives every part of the
    triangulator decides by: the lexicographic order and the CROSS determinant. */
module Plane {

  datatype Point = Point(x: real, y: real)

  datatype Triangle = Triangle(a: int, b: int, c: int)

  const ORIGIN := Point(0.0, 0.0)

  /** Twice the signed area of (v0, v1, v2); positive when they turn left. */
  function Cross(v0: Point, v1: Point, v2: Point): real {
    (v1.x - v0.x) * (v2.y - v0.y) - (v1.y - v0.y) * (v2.x - v0.x)
  }

  /** Higher first, ties broken to the right. */
  predicate GreaterThan(v0: Point, v1: Point) {
    v0.y > v1.y || (v0.y == v1.y && v0.x > v1.x)
  }

  /** The coordinates of vertex v; the table is indexed by vertex number. */
  function At(pts: seq<Point>, v: int): Point {
    if 0 <= v < |pts| then pts[v] else ORIGIN
  }

  function CrossAt(pts: seq<Point>, a: int, b: int, c: int): real {
    Cross(At(pts, a), At(pts, b), At(pts, c))
  }

  // ------------------------------------------------------------ directions

  /** The determinant of two displacement vectors. */
  function Det(u: Point, v: Point): real { u.x * v.y - u.y * v.x }

  function Minus(a: Point, b: Point): Point { Point(a.x - b.x, a.y - b.y) }

  /** The displacement leads down (or left, when horizontal). */
  predicate Descends(d: Point) { GreaterThan(ORIGIN, d) }

  lemma CrossIsDet(a: Point, b: Point, c: Point)
    ensures Cross(a, b, c) == Det(Minus(b, a), Minus(c, a))
    ensures Cross(a, b, c) == Det(Minus(b, a), Minus(c, b))
  {
  }

  lemma CrossRotates(a: Point, b: Point, c: Point)
    ensures Cross(a, b, c) == Cross(b, c, a) == Cross(c, a, b)
  {
  }

  lemma MulNonNeg(a: real, b: real)
    requires a >= 0.0 && b >= 0.0
    ensures a * b >= 0.0
  {
  }

  /** "Turns right or goes straight" is transitive among descending directions. */
  lemma RightTurnsCompose(u: Point, v: Point, w: Point)
    requires Descends(u) && Descends(v) && Descends(w)
    requires Det(u, v) <= 0.0 && Det(v, w) <= 0.0
    ensures Det(u, w) <= 0.0
  {
    if v.y < 0.0 {
      assert v.y * Det(u, w) == u.y * Det(v, w) + w.y * Det(u, v) by { DetIdentityY(u, v, w); }
      MulNonNeg(-u.y, -Det(v, w));
      MulNonNeg(-w.y, -Det(u, v));
      assert v.y * Det(u, w) >= 0.0;
      SignOfFactor(v.y, Det(u, w));
    } else {
      // v is horizontal, pointing left
      assert v.x < 0.0 && v.y == 0.0;
      assert Det(v, w) == v.x * w.y;
      if w.y < 0.0 {
        MulPos(-v.x, -w.y);
        assert false;
      }
      assert Det(u, w) == -(u.y * w.x);
      MulNonNeg(-u.y, -w.x);
    }
  }

  lemma MulPos(a: real, b: real)
    requires a > 0.0 && b > 0.0
    ensures a * b > 0.0
  {
  }

  lemma SignOfFactor(a: real, b: real)
    requires a < 0.0 && a * b >= 0.0
    ensures b <= 0.0
  {
    if b > 0.0 { MulPos(-a, b); }
  }

  lemma DetIdentityY(u: Point, v: Point, w: Point)
    ensures v.y * Det(u, w) == u.y * Det(v, w) + w.y * Det(u, v)
  {
  }
}
