/** Rows of four reals, and a matrix as the map it induces on them: what Gauss elimination
    does to a row, it does to the row's product with any matrix. */
module Rows {

  datatype Row = Row(a: real, b: real, c: real, d: real)

  /** A matrix by its four lines. */
  datatype Matrix = Matrix(r0: Row, r1: Row, r2: Row, r3: Row)

  const ZERO := Row(0.0, 0.0, 0.0, 0.0)

  function At(u: Row, i: int): real {
    if i == 0 then u.a else if i == 1 then u.b else if i == 2 then u.c else u.d
  }

  function Line(m: Matrix, l: int): Row {
    if l == 0 then m.r0 else if l == 1 then m.r1 else if l == 2 then m.r2 else m.r3
  }

  function Unit(i: int): Row {
    Row(if i == 0 then 1.0 else 0.0, if i == 1 then 1.0 else 0.0, if i == 2 then 1.0 else 0.0,
        if i == 3 then 1.0 else 0.0)
  }

  const IDENTITY := Matrix(Unit(0), Unit(1), Unit(2), Unit(3))

  function Plus(u: Row, v: Row): Row { Row(u.a + v.a, u.b + v.b, u.c + v.c, u.d + v.d) }

  function Scale(f: real, u: Row): Row { Row(f * u.a, f * u.b, f * u.c, f * u.d) }

  /** The row times the matrix. */
  function Times(p: Row, m: Matrix): Row {
    Plus(Plus(Scale(p.a, m.r0), Scale(p.b, m.r1)), Plus(Scale(p.c, m.r2), Scale(p.d, m.r3)))
  }

  function Product(p: Matrix, m: Matrix): Matrix {
    Matrix(Times(p.r0, m), Times(p.r1, m), Times(p.r2, m), Times(p.r3, m))
  }

  lemma Distributes(f: real, x: real, y: real)
    ensures f * (x + y) == f * x + f * y
  {
  }

  lemma Associates(f: real, x: real, y: real)
    ensures (f * x) * y == f * (x * y)
  {
  }

  lemma ScalePlus(f: real, u: Row, v: Row)
    ensures Scale(f, Plus(u, v)) == Plus(Scale(f, u), Scale(f, v))
  {
    Distributes(f, u.a, v.a);
    Distributes(f, u.b, v.b);
    Distributes(f, u.c, v.c);
    Distributes(f, u.d, v.d);
  }

  lemma ScaleScale(f: real, g: real, u: Row)
    ensures Scale(f * g, u) == Scale(f, Scale(g, u))
  {
    Associates(f, g, u.a);
    Associates(f, g, u.b);
    Associates(f, g, u.c);
    Associates(f, g, u.d);
  }

  lemma SumScale(f: real, g: real, u: Row)
    ensures Scale(f + g, u) == Plus(Scale(f, u), Scale(g, u))
  {
    Distributes(u.a, f, g);
    Distributes(u.b, f, g);
    Distributes(u.c, f, g);
    Distributes(u.d, f, g);
  }

  lemma TimesScale(f: real, p: Row, m: Matrix)
    ensures Times(Scale(f, p), m) == Scale(f, Times(p, m))
  {
    var x, y, z, w := Scale(p.a, m.r0), Scale(p.b, m.r1), Scale(p.c, m.r2), Scale(p.d, m.r3);
    var q := Scale(f, p);
    ScaleOf(f, p.a, q.a, m.r0);
    ScaleOf(f, p.b, q.b, m.r1);
    ScaleOf(f, p.c, q.c, m.r2);
    ScaleOf(f, p.d, q.d, m.r3);
    TimesOf(q, m, Scale(f, x), Scale(f, y), Scale(f, z), Scale(f, w));
    TimesOf(p, m, x, y, z, w);
    ScaleSum(f, x, y, z, w);
  }

  lemma ScaleOf(f: real, x: real, fx: real, u: Row)
    requires fx == f * x
    ensures Scale(fx, u) == Scale(f, Scale(x, u))
  {
    ScaleScale(f, x, u);
  }

  lemma TimesOf(q: Row, m: Matrix, x: Row, y: Row, z: Row, w: Row)
    requires Scale(q.a, m.r0) == x && Scale(q.b, m.r1) == y && Scale(q.c, m.r2) == z && Scale(q.d, m.r3) == w
    ensures Times(q, m) == Plus(Plus(x, y), Plus(z, w))
  {
  }

  lemma ScaleSum(f: real, x: Row, y: Row, z: Row, w: Row)
    ensures Scale(f, Plus(Plus(x, y), Plus(z, w))) == Plus(Plus(Scale(f, x), Scale(f, y)), Plus(Scale(f, z), Scale(f, w)))
  {
    ScalePlus(f, x, y);
    ScalePlus(f, z, w);
    ScalePlus(f, Plus(x, y), Plus(z, w));
  }

  lemma TimesPlus(p: Row, q: Row, m: Matrix)
    ensures Times(Plus(p, q), m) == Plus(Times(p, m), Times(q, m))
  {
    SumScale(p.a, q.a, m.r0);
    SumScale(p.b, q.b, m.r1);
    SumScale(p.c, q.c, m.r2);
    SumScale(p.d, q.d, m.r3);
  }

  /** A row of the right side stands for m plus an error e of the left. */
  predicate Balanced(p: Row, m: Row, e: Row, orig: Matrix) {
    Times(p, orig) == Plus(m, e)
  }

  lemma ScaleBalanced(f: real, p: Row, m: Row, e: Row, orig: Matrix)
    requires Balanced(p, m, e, orig)
    ensures Balanced(Scale(f, p), Scale(f, m), Scale(f, e), orig)
  {
    TimesScale(f, p, orig);
    ScalePlus(f, m, e);
  }

  lemma AddBalanced(f: real, p: Row, m: Row, e: Row, q: Row, n: Row, g: Row, orig: Matrix)
    requires Balanced(p, m, e, orig) && Balanced(q, n, g, orig)
    ensures Balanced(Plus(p, Scale(f, q)), Plus(m, Scale(f, n)), Plus(e, Scale(f, g)), orig)
  {
    ScaleBalanced(f, q, n, g, orig);
    TimesPlus(p, Scale(f, q), orig);
  }

  lemma UnitBalanced(l: int, orig: Matrix)
    requires 0 <= l < 4
    ensures Balanced(Unit(l), Line(orig, l), ZERO, orig)
  {
  }

  lemma ScaleZero(f: real, u: Row)
    requires f != 0.0
    ensures Scale(f, u) == ZERO <==> u == ZERO
  {
    NonZeroProduct(f, u.a);
    NonZeroProduct(f, u.b);
    NonZeroProduct(f, u.c);
    NonZeroProduct(f, u.d);
  }

  lemma NonZeroProduct(x: real, y: real)
    requires x != 0.0
    ensures x * y == 0.0 <==> y == 0.0
  {
    if y > 0.0 {
      if x > 0.0 { assert x * y > 0.0; } else { assert -x * y > 0.0; }
    } else if y < 0.0 {
      if x > 0.0 { assert x * -y > 0.0; } else { assert -x * -y > 0.0; }
    }
  }

  lemma AddZero(f: real, u: Row, v: Row)
    ensures v == ZERO ==> (Plus(u, Scale(f, v)) == ZERO <==> u == ZERO)
  {
  }
}
