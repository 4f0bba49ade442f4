/** The comparisons of the trapezoidation, which allow for a small error. */
module Tolerance {
  import opened Plane
  import opened Trapezoids

  const EPS := 0.0000001

  predicate Near(s: real, t: real) { -EPS <= s - t <= EPS }

  predicate Above(v0: Point, v1: Point) {
    if v0.y > v1.y + EPS then true
    else if v0.y < v1.y - EPS then false
    else v0.x > v1.x
  }

  predicate AboveOrSame(v0: Point, v1: Point) {
    if v0.y > v1.y + EPS then true
    else if v0.y < v1.y - EPS then false
    else v0.x >= v1.x
  }

  predicate SamePoint(v0: Point, v1: Point) { Near(v0.y, v1.y) && Near(v0.x, v1.x) }

  function Highest(v0: Point, v1: Point): Point {
    if v0.y > v1.y + EPS then v0
    else if Near(v0.y, v1.y) then (if v0.x > v1.x + EPS then v0 else v1)
    else v1
  }

  function Lowest(v0: Point, v1: Point): Point {
    if v0.y < v1.y - EPS then v0
    else if Near(v0.y, v1.y) then (if v0.x < v1.x then v0 else v1)
    else v1
  }

  /** Is v to the left of the segment from v0 to v1? Levels with an end point are
      decided by x alone. */
  predicate IsLeftOf(v0: Point, v1: Point, v: Point) {
    if Near(v1.y, v.y) then v.x < v1.x
    else if Near(v0.y, v.y) then v.x < v0.x
    else if Above(v1, v0) then Cross(v0, v1, v) > 0.0
    else Cross(v1, v0, v) > 0.0
  }

  // ------------------------------------------------------------ in coordinates

  /** The points share their level, or are on levels further apart than the tolerance. */
  predicate Apart(a: Point, b: Point) { a.y == b.y || a.y < b.y - EPS || b.y + EPS < a.y }

  /** For such points the order is the exact one. */
  lemma ApartIsExact(a: Point, b: Point)
    requires Apart(a, b)
    ensures Above(a, b) <==> GreaterThan(a, b)
    ensures AboveOrSame(a, b) <==> GreaterThan(a, b) || a == b
  {
  }

  /** And the higher and the lower end of a segment are told apart, if it is not shorter
      than the tolerance. */
  lemma EndsAreOrdered(a: Point, b: Point)
    requires Apart(a, b) && !SamePoint(a, b)
    ensures if GreaterThan(a, b) then Highest(a, b) == a && Lowest(a, b) == b
            else Highest(a, b) == b && Lowest(a, b) == a
  {
  }

  /** Whatever the distance, the levels are at most the tolerance in the wrong order. */
  lemma AboveByLevel(a: Point, b: Point)
    ensures Above(a, b) ==> a.y >= b.y - EPS
    ensures a.y > b.y + EPS ==> Above(a, b)
    ensures SamePoint(a, b) ==> a.y >= b.y - EPS && b.y >= a.y - EPS
  {
  }

  /** v lies to the left of the line from lo up to hi: the line is further right at its level. */
  predicate LeftOfLine(lo: Point, hi: Point, v: Point) {
    (v.x - lo.x) * (hi.y - lo.y) < (hi.x - lo.x) * (v.y - lo.y)
  }

  /** Between the levels of its ends, the side of a segment is that of the line, whichever end
      comes first. */
  lemma SideOfLine(lo: Point, hi: Point, v: Point)
    requires lo.y + EPS < v.y < hi.y - EPS
    ensures IsLeftOf(lo, hi, v) <==> LeftOfLine(lo, hi, v)
    ensures IsLeftOf(hi, lo, v) <==> LeftOfLine(lo, hi, v)
  {
  }

  /** At the level of an end, and no other, the end's place decides. */
  lemma SideAtEnd(a: Point, b: Point, v: Point)
    requires v.y == a.y && !Near(a.y, b.y)
    ensures IsLeftOf(a, b, v) <==> v.x < a.x
    ensures IsLeftOf(b, a, v) <==> v.x < a.x
  {
  }
}
