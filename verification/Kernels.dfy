/** What a matrix takes to nothing: elimination keeps it, and a matrix with an inverse takes
    only the zero column there. */
module Kernels {
  import opened Rows

  /** The row times the column c. */
  function Dot(u: Row, c: Row): real { (u.a * c.a + u.b * c.b) + (u.c * c.c + u.d * c.d) }

  predicate Kills(m: Matrix, c: Row) {
    Dot(m.r0, c) == 0.0 && Dot(m.r1, c) == 0.0 && Dot(m.r2, c) == 0.0 && Dot(m.r3, c) == 0.0
  }

  /** Some column other than zero is taken to nothing. */
  ghost predicate Singular(m: Matrix) { exists c :: c != ZERO && Kills(m, c) }

  ghost predicate Invertible(m: Matrix) { exists x :: Product(x, m) == IDENTITY }

  /** Whatever m takes to nothing, orig does. */
  ghost predicate KernelWithin(m: Matrix, orig: Matrix) { forall c :: Kills(m, c) ==> Kills(orig, c) }

  lemma DotScale(f: real, u: Row, c: Row)
    ensures Dot(Scale(f, u), c) == f * Dot(u, c)
  {
    Associates(f, u.a, c.a);
    Associates(f, u.b, c.b);
    Associates(f, u.c, c.c);
    Associates(f, u.d, c.d);
    Distributes(f, u.a * c.a, u.b * c.b);
    Distributes(f, u.c * c.c, u.d * c.d);
    Distributes(f, u.a * c.a + u.b * c.b, u.c * c.c + u.d * c.d);
  }

  lemma DotPlus(u: Row, v: Row, c: Row)
    ensures Dot(Plus(u, v), c) == Dot(u, c) + Dot(v, c)
  {
    Distributes(c.a, u.a, v.a);
    Distributes(c.b, u.b, v.b);
    Distributes(c.c, u.c, v.c);
    Distributes(c.d, u.d, v.d);
  }

  lemma ScaledKills(f: real, u: Row, c: Row)
    requires f != 0.0 && Dot(Scale(f, u), c) == 0.0
    ensures Dot(u, c) == 0.0
  {
    DotScale(f, u, c);
    NonZeroProduct(f, Dot(u, c));
  }

  lemma AddedKills(u: Row, f: real, v: Row, c: Row)
    requires Dot(v, c) == 0.0 && Dot(Plus(u, Scale(f, v)), c) == 0.0
    ensures Dot(u, c) == 0.0
  {
    DotPlus(u, Scale(f, v), c);
    DotScale(f, v, c);
  }

  lemma DotTimes(p: Row, m: Matrix, c: Row)
    requires Kills(m, c)
    ensures Dot(Times(p, m), c) == 0.0
  {
    var x, y := Plus(Scale(p.a, m.r0), Scale(p.b, m.r1)), Plus(Scale(p.c, m.r2), Scale(p.d, m.r3));
    DotPlus(x, y, c);
    DotPlus(Scale(p.a, m.r0), Scale(p.b, m.r1), c);
    DotPlus(Scale(p.c, m.r2), Scale(p.d, m.r3), c);
    DotScale(p.a, m.r0, c);
    DotScale(p.b, m.r1, c);
    DotScale(p.c, m.r2, c);
    DotScale(p.d, m.r3, c);
  }

  lemma SingularHasNoInverse(m: Matrix)
    requires Singular(m)
    ensures !Invertible(m)
  {
    var c :| c != ZERO && Kills(m, c);
    forall x ensures Product(x, m) != IDENTITY {
      if Product(x, m) == IDENTITY {
        DotTimes(x.r0, m, c);
        DotTimes(x.r1, m, c);
        DotTimes(x.r2, m, c);
        DotTimes(x.r3, m, c);
        UnitsKillZero(c);
      }
    }
  }

  lemma UnitsKillZero(c: Row)
    requires Kills(IDENTITY, c)
    ensures c == ZERO
  {
    assert Dot(Unit(0), c) == c.a && Dot(Unit(1), c) == c.b && Dot(Unit(2), c) == c.c && Dot(Unit(3), c) == c.d;
  }

  // ------------------------------------------------------------ the steps keep it

  lemma ScaleKeepsKernel(m: Matrix, n: Matrix, l: int, f: real)
    requires 0 <= l < 4 && f != 0.0
    requires forall r {:trigger Line(n, r)} :: 0 <= r < 4 ==>
               Line(n, r) == if r == l then Scale(f, Line(m, l)) else Line(m, r)
    ensures KernelWithin(n, m)
  {
    forall c | Kills(n, c) ensures Kills(m, c) {
      assert Line(n, 0) == n.r0 && Line(n, 1) == n.r1 && Line(n, 2) == n.r2 && Line(n, 3) == n.r3;
      ScaledKills(f, Line(m, l), c);
    }
  }

  lemma AddKeepsKernel(m: Matrix, n: Matrix, l: int, lh: int, f: real)
    requires 0 <= l < 4 && 0 <= lh < 4 && l != lh
    requires forall r {:trigger Line(n, r)} ::
               0 <= r < 4 ==> Line(n, r) == if r == lh then Plus(Line(m, lh), Scale(f, Line(m, l))) else Line(m, r)
    ensures KernelWithin(n, m)
  {
    forall c | Kills(n, c) ensures Kills(m, c) {
      assert Line(n, 0) == n.r0 && Line(n, 1) == n.r1 && Line(n, 2) == n.r2 && Line(n, 3) == n.r3;
      AddedKills(Line(m, lh), f, Line(m, l), c);
    }
  }

  /** Ones on the diagonal and zeros below it in the columns before l, and column l empty
      from the diagonal on. */
  predicate EmptyFrom(m: Matrix, l: int) {
    && (l > 0 ==> m.r0.a == 1.0 && m.r1.a == 0.0 && m.r2.a == 0.0 && m.r3.a == 0.0)
    && (l > 1 ==> m.r1.b == 1.0 && m.r2.b == 0.0 && m.r3.b == 0.0)
    && (l > 2 ==> m.r2.c == 1.0 && m.r3.c == 0.0)
    && (l == 0 ==> m.r0.a == 0.0 && m.r1.a == 0.0 && m.r2.a == 0.0 && m.r3.a == 0.0)
    && (l == 1 ==> m.r1.b == 0.0 && m.r2.b == 0.0 && m.r3.b == 0.0)
    && (l == 2 ==> m.r2.c == 0.0 && m.r3.c == 0.0)
    && (l == 3 ==> m.r3.d == 0.0)
  }

  /** Then the columns up to l depend on each other. */
  lemma EmptyColumnIsSingular(m: Matrix, l: int)
    requires 0 <= l < 4 && EmptyFrom(m, l)
    ensures Singular(m)
  {
    var u, v, w := m.r0, m.r1, m.r2;
    var cd := if l == 3 then 1.0 else 0.0;
    var cc := if l == 3 then -w.d else if l == 2 then 1.0 else 0.0;
    var cb := if l > 1 then -(v.c * cc + v.d * cd) else if l == 1 then 1.0 else 0.0;
    var ca := if l > 0 then -(u.b * cb + u.c * cc + u.d * cd) else 1.0;
    var c := Row(ca, cb, cc, cd);
    assert Dot(u, c) == 0.0;
    assert Dot(v, c) == 0.0;
    assert Dot(w, c) == 0.0;
    assert Dot(m.r3, c) == 0.0;
    assert c != ZERO && Kills(m, c);
  }
}
