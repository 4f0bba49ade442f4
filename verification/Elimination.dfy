/** Gauss elimination on values: the working matrix, the matrix that is to become the
    inverse, and the error made by taking small pivots for zero. */
module Elimination {
  import opened Rows
  import opened Kernels

  /** Left side m, right side p, and what m lacks of p times the original. */
  datatype Work = Work(m: Matrix, p: Matrix, e: Matrix)

  function SetLine(m: Matrix, l: int, u: Row): Matrix {
    if l == 0 then m.(r0 := u) else if l == 1 then m.(r1 := u) else if l == 2 then m.(r2 := u) else m.(r3 := u)
  }

  function SetAt(u: Row, i: int, x: real): Row {
    if i == 0 then u.(a := x) else if i == 1 then u.(b := x) else if i == 2 then u.(c := x) else u.(d := x)
  }

  /** Column c of line r. */
  function Entry(m: Matrix, c: int, r: int): real { At(Line(m, r), c) }

  lemma SetLineEntry(m: Matrix, l: int, u: Row, c: int, r: int)
    requires 0 <= l < 4 && 0 <= r < 4
    ensures Entry(SetLine(m, l, u), c, r) == if r == l then At(u, c) else Entry(m, c, r)
  {
  }

  lemma ScaleEntry(f: real, u: Row, c: int)
    ensures At(Scale(f, u), c) == f * At(u, c)
    ensures At(u, c) == 0.0 ==> At(Scale(f, u), c) == 0.0
  {
  }

  lemma AddEntry(u: Row, f: real, v: Row, c: int)
    ensures At(Plus(u, Scale(f, v)), c) == At(u, c) + f * At(v, c)
    ensures At(v, c) == 0.0 ==> At(Plus(u, Scale(f, v)), c) == At(u, c)
    ensures At(v, c) == 1.0 ==> At(Plus(u, Scale(f, v)), c) == At(u, c) + f
  {
    ScaleEntry(f, v, c);
  }

  const NOTHING := Matrix(ZERO, ZERO, ZERO, ZERO)

  /** p times the original is the left side, up to the error; without an error, the left
      side takes nothing to zero but what the original does. */
  ghost predicate Good(w: Work, orig: Matrix) {
    Accounted(w, orig) && (w.e == NOTHING ==> KernelWithin(w.m, orig))
  }

  predicate Accounted(w: Work, orig: Matrix) {
    && Balanced(w.p.r0, w.m.r0, w.e.r0, orig) && Balanced(w.p.r1, w.m.r1, w.e.r1, orig)
    && Balanced(w.p.r2, w.m.r2, w.e.r2, orig) && Balanced(w.p.r3, w.m.r3, w.e.r3, orig)
  }

  lemma GoodLine(w: Work, orig: Matrix, l: int)
    requires Accounted(w, orig) && 0 <= l < 4
    ensures Balanced(Line(w.p, l), Line(w.m, l), Line(w.e, l), orig)
  {
  }

  lemma SetGood(w: Work, orig: Matrix, l: int, m: Row, p: Row, e: Row)
    requires Accounted(w, orig) && 0 <= l < 4 && Balanced(p, m, e, orig)
    ensures Accounted(Work(SetLine(w.m, l, m), SetLine(w.p, l, p), SetLine(w.e, l, e)), orig)
  {
  }

  /** Columns before l are done: ones on the diagonal, zeros below. */
  ghost predicate Done(m: Matrix, l: int) {
    forall c, r {:trigger Entry(m, c, r)} :: 0 <= c < l && c <= r < 4 ==> Entry(m, c, r) == if r == c then 1.0 else 0.0
  }

  /** There is no error in columns from c on. */
  ghost predicate CleanFrom(e: Matrix, c: int) {
    forall i, r {:trigger Entry(e, i, r)} :: 0 <= r < 4 && c <= i < 4 ==> Entry(e, i, r) == 0.0
  }

  /** While a pivot for column l is sought: nothing wrong behind that column, and in it only
      in lines that were rejected. */
  ghost predicate Seeking(w: Work, l: int) {
    && Done(w.m, l) && CleanFrom(w.e, l + 1)
    && forall r {:trigger Entry(w.e, l, r)} ::
         l <= r < 4 && (r == l || Entry(w.m, l, r) != 0.0) ==> Entry(w.e, l, r) == 0.0
  }

  // ------------------------------------------------------------ the steps

  /** Divide line l by its pivot. */
  function Normalized(w: Work, l: int): Work
    requires At(Line(w.m, l), l) != 0.0
  {
    var f := 1.0 / At(Line(w.m, l), l);
    Work(SetLine(w.m, l, Scale(f, Line(w.m, l))), SetLine(w.p, l, Scale(f, Line(w.p, l))),
         SetLine(w.e, l, Scale(f, Line(w.e, l))))
  }

  /** Add f times line l to line lh. */
  function Added(w: Work, l: int, lh: int, f: real): Work {
    Work(SetLine(w.m, lh, Plus(Line(w.m, lh), Scale(f, Line(w.m, l)))),
         SetLine(w.p, lh, Plus(Line(w.p, lh), Scale(f, Line(w.p, l)))),
         SetLine(w.e, lh, Plus(Line(w.e, lh), Scale(f, Line(w.e, l)))))
  }

  function Exchanged(m: Matrix, l: int, lh: int): Matrix {
    SetLine(SetLine(m, l, Line(m, lh)), lh, Line(m, l))
  }

  function Swapped(w: Work, l: int, lh: int): Work {
    Work(Exchanged(w.m, l, lh), Exchanged(w.p, l, lh), Exchanged(w.e, l, lh))
  }

  /** Take the pivot of line l for zero. */
  function Rejected(w: Work, l: int): Work {
    Work(SetLine(w.m, l, SetAt(Line(w.m, l), l, 0.0)), w.p,
         SetLine(w.e, l, SetAt(Line(w.e, l), l, At(Line(w.e, l), l) + At(Line(w.m, l), l))))
  }

  lemma NormalizedGood(w: Work, orig: Matrix, l: int)
    requires Good(w, orig) && 0 <= l < 4 && At(Line(w.m, l), l) != 0.0
    ensures Good(Normalized(w, l), orig)
    ensures Normalized(w, l).e == NOTHING <==> w.e == NOTHING
  {
    var f := 1.0 / At(Line(w.m, l), l);
    GoodLine(w, orig, l);
    ScaleBalanced(f, Line(w.p, l), Line(w.m, l), Line(w.e, l), orig);
    SetGood(w, orig, l, Scale(f, Line(w.m, l)), Scale(f, Line(w.p, l)), Scale(f, Line(w.e, l)));
    ScaleZero(f, Line(w.e, l));
    assert f != 0.0 by { Reciprocal(At(Line(w.m, l), l)); }
    ScaleKeepsKernel(w.m, Normalized(w, l).m, l, f);
  }

  lemma Reciprocal(x: real)
    requires x != 0.0
    ensures (1.0 / x) * x == 1.0
  {
  }

  lemma AddedGood(w: Work, orig: Matrix, l: int, lh: int, f: real)
    requires Good(w, orig) && 0 <= l < 4 && 0 <= lh < 4 && l != lh
    ensures Good(Added(w, l, lh, f), orig)
    ensures Added(w, l, lh, f).e == NOTHING <==> w.e == NOTHING
  {
    GoodLine(w, orig, l);
    GoodLine(w, orig, lh);
    AddBalanced(f, Line(w.p, lh), Line(w.m, lh), Line(w.e, lh), Line(w.p, l), Line(w.m, l), Line(w.e, l), orig);
    SetGood(w, orig, lh, Plus(Line(w.m, lh), Scale(f, Line(w.m, l))), Plus(Line(w.p, lh), Scale(f, Line(w.p, l))),
            Plus(Line(w.e, lh), Scale(f, Line(w.e, l))));
    AddZero(f, Line(w.e, lh), Line(w.e, l));
    AddKeepsKernel(w.m, Added(w, l, lh, f).m, l, lh, f);
  }

  lemma SwappedGood(w: Work, orig: Matrix, l: int, lh: int)
    requires Good(w, orig) && 0 <= l < lh < 4
    ensures Good(Swapped(w, l, lh), orig)
    ensures Swapped(w, l, lh).e == NOTHING <==> w.e == NOTHING
  {
    var n := Swapped(w, l, lh).m;
    forall c | Kills(n, c) ensures Kills(w.m, c) { }
  }

  lemma RejectedGood(w: Work, orig: Matrix, l: int)
    requires Good(w, orig) && 0 <= l < 4 && At(Line(w.e, l), l) == 0.0
    ensures Good(Rejected(w, l), orig)
    ensures Rejected(w, l).e == NOTHING <==> w.e == NOTHING && At(Line(w.m, l), l) == 0.0
  {
    assert At(Line(w.m, l), l) == 0.0 ==> Rejected(w, l).m == w.m;
  }

  /** With nothing but zeros left in the column, and no error made, the original cannot be
      inverted. */
  lemma DeadEnd(w: Work, orig: Matrix, l: int)
    requires Good(w, orig) && Done(w.m, l) && 0 <= l < 4 && w.e == NOTHING
    requires forall r {:trigger Entry(w.m, l, r)} :: l <= r < 4 ==> Entry(w.m, l, r) == 0.0
    ensures !Invertible(orig)
  {
    var m := w.m;
    EmptyByEntries(m, l);
    EmptyColumnIsSingular(m, l);
    var c :| c != ZERO && Kills(m, c);
    assert Kills(orig, c);
    SingularHasNoInverse(orig);
  }

  lemma EmptyByEntries(m: Matrix, l: int)
    requires Done(m, l) && 0 <= l < 4
    requires forall r {:trigger Entry(m, l, r)} :: l <= r < 4 ==> Entry(m, l, r) == 0.0
    ensures EmptyFrom(m, l)
  {
    assert Entry(m, 0, 0) == m.r0.a && Entry(m, 0, 1) == m.r1.a && Entry(m, 0, 2) == m.r2.a && Entry(m, 0, 3) == m.r3.a;
    assert Entry(m, 1, 1) == m.r1.b && Entry(m, 1, 2) == m.r2.b && Entry(m, 1, 3) == m.r3.b;
    assert Entry(m, 2, 2) == m.r2.c && Entry(m, 2, 3) == m.r3.c && Entry(m, 3, 3) == m.r3.d;
  }

  // ------------------------------------------------------------ the shape of the left side

  /** A pivot that is not zero becomes one. */
  lemma NormalizedShape(w: Work, l: int)
    requires 0 <= l < 4 && Seeking(w, l) && At(Line(w.m, l), l) != 0.0
    ensures Clearing(Normalized(w, l), l, l + 1)
  {
    var n, f := Normalized(w, l), 1.0 / At(Line(w.m, l), l);
    forall c, r | 0 <= c < l && c <= r < 4 ensures Entry(n.m, c, r) == if r == c then 1.0 else 0.0 {
      assert Entry(w.m, c, r) == if r == c then 1.0 else 0.0;
      SetLineEntry(w.m, l, Scale(f, Line(w.m, l)), c, r);
      ScaleEntry(f, Line(w.m, l), c);
    }
    forall i, r | 0 <= r < 4 && l + 1 <= i < 4 ensures Entry(n.e, i, r) == 0.0 {
      assert Entry(w.e, i, r) == 0.0;
      SetLineEntry(w.e, l, Scale(f, Line(w.e, l)), i, r);
      ScaleEntry(f, Line(w.e, l), i);
    }
    SetLineEntry(w.m, l, Scale(f, Line(w.m, l)), l, l);
    ScaleEntry(f, Line(w.m, l), l);
  }

  /** Column l is cleared in lines l + 1 to lh - 1. */
  ghost predicate Clearing(w: Work, l: int, lh: int) {
    && Done(w.m, l) && CleanFrom(w.e, l + 1) && Entry(w.m, l, l) == 1.0
    && forall r {:trigger Entry(w.m, l, r)} :: l < r < lh && r < 4 ==> Entry(w.m, l, r) == 0.0
  }

  lemma AddedShape(w: Work, l: int, lh: int)
    requires 0 <= l < lh < 4 && Clearing(w, l, lh)
    ensures Clearing(Added(w, l, lh, -At(Line(w.m, lh), l)), l, lh + 1)
  {
    var f := -At(Line(w.m, lh), l);
    var n := Added(w, l, lh, f);
    forall c, r | 0 <= c < l && c <= r < 4 ensures Entry(n.m, c, r) == if r == c then 1.0 else 0.0 {
      assert Entry(w.m, c, r) == (if r == c then 1.0 else 0.0) && Entry(w.m, c, l) == 0.0;
      SetLineEntry(w.m, lh, Plus(Line(w.m, lh), Scale(f, Line(w.m, l))), c, r);
      AddEntry(Line(w.m, lh), f, Line(w.m, l), c);
    }
    forall i, r | 0 <= r < 4 && l + 1 <= i < 4 ensures Entry(n.e, i, r) == 0.0 {
      assert Entry(w.e, i, r) == 0.0 && Entry(w.e, i, l) == 0.0;
      SetLineEntry(w.e, lh, Plus(Line(w.e, lh), Scale(f, Line(w.e, l))), i, r);
      AddEntry(Line(w.e, lh), f, Line(w.e, l), i);
    }
    forall r | l <= r < lh + 1 && r < 4 ensures Entry(n.m, l, r) == if r == l then 1.0 else 0.0 {
      SetLineEntry(w.m, lh, Plus(Line(w.m, lh), Scale(f, Line(w.m, l))), l, r);
      AddEntry(Line(w.m, lh), f, Line(w.m, l), l);
      assert r < lh && r > l ==> Entry(w.m, l, r) == 0.0;
    }
  }

  lemma ClearedShape(w: Work, l: int)
    requires 0 <= l < 4 && Clearing(w, l, 4)
    ensures Seeking(w, l + 1) && Done(w.m, l + 1)
  {
  }

  /** After a rejected pivot, the line swapped in was not rejected before, and there is one
      line less that could be. */
  lemma RejectedSwapShape(w: Work, l: int, lh: int)
    requires 0 <= l < lh < 4 && Seeking(w, l) && At(Line(w.m, lh), l) != 0.0
    ensures Seeking(Swapped(Rejected(w, l), l, lh), l)
    ensures Remaining(Swapped(Rejected(w, l), l, lh).m, l) < Remaining(w.m, l)
  {
    var j := Rejected(w, l);
    var n := Swapped(j, l, lh);
    forall c, r | 0 <= c < 4 && 0 <= r < 4
      ensures Entry(j.m, c, r) == if c == l && r == l then 0.0 else Entry(w.m, c, r)
      ensures c != l || r != l ==> Entry(j.e, c, r) == Entry(w.e, c, r)
    {
    }
    forall c, r | 0 <= c < 4 && 0 <= r < 4
      ensures Entry(n.m, c, r) == Entry(j.m, c, if r == l then lh else if r == lh then l else r)
      ensures Entry(n.e, c, r) == Entry(j.e, c, if r == l then lh else if r == lh then l else r)
    {
      ExchangedEntry(j.m, l, lh, c, r);
      ExchangedEntry(j.e, l, lh, c, r);
    }
    RemainingShrinks(w.m, n.m, l, lh);
  }

  lemma ExchangedEntry(m: Matrix, l: int, lh: int, c: int, r: int)
    requires 0 <= l < 4 && 0 <= lh < 4 && 0 <= r < 4
    ensures Entry(Exchanged(m, l, lh), c, r) == Entry(m, c, if r == l then lh else if r == lh then l else r)
  {
  }

  /** How many lines below l have something in column l. */
  function Remaining(m: Matrix, l: int): nat {
    (if l < 1 && Entry(m, l, 1) != 0.0 then 1 else 0) + (if l < 2 && Entry(m, l, 2) != 0.0 then 1 else 0)
    + (if l < 3 && Entry(m, l, 3) != 0.0 then 1 else 0)
  }

  lemma RemainingShrinks(m: Matrix, n: Matrix, l: int, lh: int)
    requires 0 <= l < lh < 4 && Entry(m, l, lh) != 0.0 && Entry(n, l, lh) == 0.0
    requires forall r {:trigger Entry(n, l, r)} :: l < r < 4 && r != lh ==> Entry(n, l, r) == Entry(m, l, r)
    ensures Remaining(n, l) < Remaining(m, l)
  {
  }

  // ------------------------------------------------------------ back substitution

  /** Columns after l are cleared above the diagonal, and column l in lines lh + 1 to l - 1. */
  ghost predicate Backward(m: Matrix, l: int, lh: int) {
    && Done(m, 4)
    && (forall c, r {:trigger Entry(m, c, r)} :: l < c < 4 && 0 <= r < c ==> Entry(m, c, r) == 0.0)
    && (forall r {:trigger Entry(m, l, r)} :: lh < r < l ==> Entry(m, l, r) == 0.0)
  }

  /** Line l is the l-th unit by now, so only the entry in column l changes. */
  lemma BackwardStep(w: Work, l: int, lh: int)
    requires 0 <= lh < l < 4 && Backward(w.m, l, lh)
    ensures Added(w, l, lh, -At(Line(w.m, lh), l)).m == SetLine(w.m, lh, SetAt(Line(w.m, lh), l, 0.0))
    ensures Backward(Added(w, l, lh, -At(Line(w.m, lh), l)).m, l, lh - 1)
  {
    var f, u, v := -At(Line(w.m, lh), l), Line(w.m, lh), Line(w.m, l);
    forall c | 0 <= c < 4 ensures At(v, c) == if c == l then 1.0 else 0.0 { assert Entry(w.m, c, l) == At(v, c); }
    AddUnit(u, f, v, l);
    var n := SetLine(w.m, lh, SetAt(u, l, 0.0));
    forall c, r | 0 <= c < 4 && 0 <= r < 4
      ensures Entry(n, c, r) == if r == lh && c == l then 0.0 else Entry(w.m, c, r)
    {
    }
  }

  lemma AddUnit(u: Row, f: real, v: Row, l: int)
    requires 0 <= l < 4 && f == -At(u, l) 
    requires forall c {:trigger At(v, c)} :: 0 <= c < 4 ==> At(v, c) == if c == l then 1.0 else 0.0
    ensures Plus(u, Scale(f, v)) == SetAt(u, l, 0.0)
  {
    AddEntry(u, f, v, 0);
    AddEntry(u, f, v, 1);
    AddEntry(u, f, v, 2);
    AddEntry(u, f, v, 3);
  }

  lemma BackwardDone(m: Matrix)
    requires Backward(m, 0, -1)
    ensures m == IDENTITY
  {
    LineIsUnit(m, 0);
    LineIsUnit(m, 1);
    LineIsUnit(m, 2);
    LineIsUnit(m, 3);
  }

  lemma LineIsUnit(m: Matrix, r: int)
    requires Backward(m, 0, -1) && 0 <= r < 4
    ensures Line(m, r) == Unit(r)
  {
    assert Entry(m, 0, r) == Line(m, r).a && Entry(m, 1, r) == Line(m, r).b;
    assert Entry(m, 2, r) == Line(m, r).c && Entry(m, 3, r) == Line(m, r).d;
  }

  /** The right side is the inverse exactly when no error was made. */
  lemma InverseUpToError(w: Work, orig: Matrix)
    requires Good(w, orig) && w.m == IDENTITY
    ensures Product(w.p, orig) == IDENTITY <==> w.e == NOTHING
  {
  }
}
