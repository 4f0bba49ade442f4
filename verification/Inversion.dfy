/** The inversion as a whole, on values: which pivots a run takes for zero, whether it gets
    stuck, and what it leaves as the inverse. */
module Inversion {
  import opened Rows
  import opened Kernels
  import opened Elimination

  const SMALL := 0.00000001

  /** Too small to divide by, for the server. */
  predicate IsSmall(x: real) { !(x * x > SMALL) }

  ghost predicate AllZero(xs: seq<real>) { forall i :: 0 <= i < |xs| ==> xs[i] == 0.0 }

  /** The outcome of the first step: the pivots taken for zero, the two sides, and whether a
      column was left without a pivot. */
  datatype Run = Run(rejected: seq<real>, w: Work, deadEnd: bool)

  function Prepend(xs: seq<real>, r: Run): Run { r.(rejected := xs + r.rejected) }

  /** Line lh cleared in column l by means of line l, unless it is clear. */
  function ClearedAt(w: Work, l: int, lh: int): Work {
    if Entry(w.m, l, lh) == 0.0 then w else Added(w, l, lh, -At(Line(w.m, lh), l))
  }

  /** Lines lh to 3 cleared. */
  function ClearedFrom(w: Work, l: int, lh: int): Work
    decreases 4 - lh
  {
    if lh >= 4 then w else ClearedFrom(ClearedAt(w, l, lh), l, lh + 1)
  }

  /** The first line from lh on with something in column l, or 4. */
  function LineBelow(m: Matrix, l: int, lh: int): (r: int)
    requires lh <= 4
    ensures lh <= r <= 4 && (r < 4 ==> Entry(m, l, r) != 0.0)
    ensures forall k {:trigger Entry(m, l, k)} :: lh <= k < r ==> Entry(m, l, k) == 0.0
    decreases 4 - lh
  {
    if lh == 4 || Entry(m, l, lh) != 0.0 then lh else LineBelow(m, l, lh + 1)
  }

  lemma SwapShrinks(w: Work, l: int, lh: int)
    requires 0 <= l < lh < 4 && Entry(w.m, l, lh) != 0.0
    ensures Remaining(Swapped(Rejected(w, l), l, lh).m, l) < Remaining(w.m, l)
  {
    var j := Rejected(w, l).m;
    forall r | 0 <= r < 4 ensures Entry(j, l, r) == if r == l then 0.0 else Entry(w.m, l, r) { }
    forall r | 0 <= r < 4
      ensures Entry(Exchanged(j, l, lh), l, r) == Entry(j, l, if r == l then lh else if r == lh then l else r) {
      ExchangedEntry(j, l, lh, l, r);
    }
    RemainingShrinks(w.m, Exchanged(j, l, lh), l, lh);
  }

  /** The first step from column l on. */
  function RunFrom(w: Work, l: int): Run
    requires 0 <= l <= 4
    decreases 4 - l, if l < 4 then Remaining(w.m, l) else 0
  {
    if l == 4 then Run([], w, false)
    else
      var pivot := Entry(w.m, l, l);
      if !IsSmall(pivot) then RunFrom(ClearedFrom(Normalized(w, l), l, l + 1), l + 1)
      else
        var lh := LineBelow(w.m, l, l + 1);
        if lh == 4 then Run([pivot], w, true)
        else
          SwapShrinks(w, l, lh);
          Prepend([pivot], RunFrom(Swapped(Rejected(w, l), l, lh), l))
  }

  /** The second step, from line lh of column l on. */
  function BackFrom(w: Work, l: int, lh: int): Work
    decreases l, lh
  {
    if l <= 0 then w else if lh < 0 then BackFrom(w, l - 1, l - 2) else BackFrom(ClearedAt(w, l, lh), l, lh - 1)
  }

  function Start(m: Matrix): Work { Work(m, IDENTITY, NOTHING) }

  /** The pivots the inversion of m takes for zero, in the order it meets them. */
  function RejectedPivots(m: Matrix): seq<real> { RunFrom(Start(m), 0).rejected }

  /** Does the inversion of m give up? */
  predicate DeadEnds(m: Matrix) { RunFrom(Start(m), 0).deadEnd }

  /** What it leaves when it does not. */
  function Inverted(m: Matrix): Matrix { BackFrom(RunFrom(Start(m), 0).w, 3, 2).p }

  // ------------------------------------------------------------ the first step is right

  lemma ClearedAtGood(w: Work, orig: Matrix, l: int, lh: int)
    requires Good(w, orig) && 0 <= l < 4 && 0 <= lh < 4 && l != lh
    ensures Good(ClearedAt(w, l, lh), orig) && (ClearedAt(w, l, lh).e == NOTHING <==> w.e == NOTHING)
  {
    if Entry(w.m, l, lh) != 0.0 { AddedGood(w, orig, l, lh, -At(Line(w.m, lh), l)); }
  }

  lemma ClearedAtShape(w: Work, l: int, lh: int)
    requires 0 <= l < lh < 4 && Clearing(w, l, lh)
    ensures Clearing(ClearedAt(w, l, lh), l, lh + 1)
  {
    if Entry(w.m, l, lh) != 0.0 { AddedShape(w, l, lh); }
  }

  lemma {:induction false} ClearedIsGood(w: Work, orig: Matrix, l: int, lh: int)
    requires Good(w, orig) && 0 <= l < lh <= 4 && Clearing(w, l, lh)
    ensures var n := ClearedFrom(w, l, lh); Good(n, orig) && Seeking(n, l + 1) && (n.e == NOTHING <==> w.e == NOTHING)
    decreases 4 - lh
  {
    if lh == 4 {
      ClearedShape(w, l);
    } else {
      ClearedAtGood(w, orig, l, lh);
      ClearedAtShape(w, l, lh);
      ClearedIsGood(ClearedAt(w, l, lh), orig, l, lh + 1);
    }
  }

  lemma ZeroPrepend(x: real, xs: seq<real>)
    ensures AllZero([x] + xs) <==> x == 0.0 && AllZero(xs)
  {
    assert ([x] + xs)[0] == x;
    assert forall i :: 0 <= i < |xs| ==> ([x] + xs)[i + 1] == xs[i];
  }

  /** Whatever the first step rejects, it keeps its books: no error was made exactly if all
      rejected pivots were zero, and then a dead end means there is no inverse. */
  lemma {:induction false} RunIsGood(w: Work, orig: Matrix, l: int)
    requires 0 <= l <= 4 && Good(w, orig) && Seeking(w, l)
    ensures var r := RunFrom(w, l);
            && (!r.deadEnd ==> Good(r.w, orig) && Done(r.w.m, 4)
                               && (r.w.e == NOTHING <==> w.e == NOTHING && AllZero(r.rejected)))
            && (r.deadEnd && w.e == NOTHING && AllZero(r.rejected) ==> !Invertible(orig))
    decreases 4 - l, if l < 4 then Remaining(w.m, l) else 0
  {
    if l < 4 {
      if !IsSmall(Entry(w.m, l, l)) {
        NormalizedGood(w, orig, l);
        NormalizedShape(w, l);
        ClearedIsGood(Normalized(w, l), orig, l, l + 1);
        RunIsGood(ClearedFrom(Normalized(w, l), l, l + 1), orig, l + 1);
      } else {
        RejectionIsGood(w, orig, l);
      }
    }
  }

  lemma {:induction false} RejectionIsGood(w: Work, orig: Matrix, l: int)
    requires 0 <= l < 4 && Good(w, orig) && Seeking(w, l) && IsSmall(Entry(w.m, l, l))
    ensures var r := RunFrom(w, l);
            && (!r.deadEnd ==> Good(r.w, orig) && Done(r.w.m, 4)
                               && (r.w.e == NOTHING <==> w.e == NOTHING && AllZero(r.rejected)))
            && (r.deadEnd && w.e == NOTHING && AllZero(r.rejected) ==> !Invertible(orig))
    decreases 4 - l, Remaining(w.m, l), 0
  {
    var pivot, lh, j := Entry(w.m, l, l), LineBelow(w.m, l, l + 1), Rejected(w, l);
    assert Entry(w.e, l, l) == 0.0;
    RejectedGood(w, orig, l);
    if lh == 4 {
      if w.e == NOTHING && AllZero([pivot]) {
        assert [pivot][0] == 0.0;
        DeadEnd(w, orig, l);
      }
    } else {
      RejectedSwapShape(w, l, lh);
      SwappedGood(j, orig, l, lh);
      RunIsGood(Swapped(j, l, lh), orig, l);
      ZeroPrepend(pivot, RunFrom(Swapped(j, l, lh), l).rejected);
    }
  }

  // ------------------------------------------------------------ the second step is right

  lemma BackStepGood(w: Work, orig: Matrix, l: int, lh: int)
    requires Good(w, orig) && 0 <= lh < l < 4 && Backward(w.m, l, lh)
    ensures var n := ClearedAt(w, l, lh);
            Good(n, orig) && Backward(n.m, l, lh - 1) && (n.e == NOTHING <==> w.e == NOTHING)
  {
    ClearedAtGood(w, orig, l, lh);
    if Entry(w.m, l, lh) != 0.0 { BackwardStep(w, l, lh); }
  }

  lemma {:induction false} BackIsGood(w: Work, orig: Matrix, l: int, lh: int)
    requires Good(w, orig) && 0 <= l < 4 && -1 <= lh < l && Backward(w.m, l, lh)
    ensures var n := BackFrom(w, l, lh); Good(n, orig) && n.m == IDENTITY && (n.e == NOTHING <==> w.e == NOTHING)
    decreases l, lh
  {
    if l == 0 {
      BackwardDone(w.m);
    } else if lh < 0 {
      BackIsGood(w, orig, l - 1, l - 2);
    } else {
      BackStepGood(w, orig, l, lh);
      BackIsGood(ClearedAt(w, l, lh), orig, l, lh - 1);
    }
  }

  lemma StartsGood(orig: Matrix)
    ensures Good(Start(orig), orig) && Seeking(Start(orig), 0)
  {
    UnitBalanced(0, orig);
    UnitBalanced(1, orig);
    UnitBalanced(2, orig);
    UnitBalanced(3, orig);
  }

  // ------------------------------------------------------------ when it inverts

  /** What is left is the inverse exactly when every pivot taken for zero was zero; and if
      every one was, the inversion gives up exactly when there is no inverse. */
  lemma InversionIsRight(m: Matrix)
    ensures !DeadEnds(m) ==> (Product(Inverted(m), m) == IDENTITY <==> AllZero(RejectedPivots(m)))
    ensures AllZero(RejectedPivots(m)) ==> (!DeadEnds(m) <==> Invertible(m))
  {
    StartsGood(m);
    RunIsGood(Start(m), m, 0);
    var r := RunFrom(Start(m), 0);
    if !r.deadEnd {
      BackIsGood(r.w, m, 3, 2);
      InverseUpToError(BackFrom(r.w, 3, 2), m);
    }
  }

  // ------------------------------------------------------------ which pivots are taken for zero

  /** In size at most a ten-thousandth. */
  predicate NearZero(x: real) { -0.0001 <= x <= 0.0001 }

  lemma SmallIsNearZero(x: real)
    ensures IsSmall(x) <==> NearZero(x)
  {
    assert x * x - 0.00000001 == (x - 0.0001) * (x + 0.0001);
    if x > 0.0001 {
      assert (x - 0.0001) * (x + 0.0001) > 0.0;
    } else if x < -0.0001 {
      assert (0.0001 - x) * (-x - 0.0001) > 0.0;
      assert (0.0001 - x) * (-x - 0.0001) == (x - 0.0001) * (x + 0.0001);
    } else {
      assert (0.0001 - x) * (x + 0.0001) >= 0.0;
      assert (0.0001 - x) * (x + 0.0001) == -((x - 0.0001) * (x + 0.0001));
    }
  }

  /** Only pivots near zero are taken for zero. */
  lemma RejectedAreNearZero(m: Matrix)
    ensures forall x :: x in RejectedPivots(m) ==> NearZero(x)
  {
    RejectedAreSmall(Start(m), 0);
    forall x | x in RejectedPivots(m) ensures NearZero(x) { SmallIsNearZero(x); }
  }

  /** Zeros below the diagonal, from column l on. */
  ghost predicate ZerosBelow(m: Matrix, l: int) {
    forall c, r {:trigger Entry(m, c, r)} :: l <= c < r < 4 && 0 <= c ==> Entry(m, c, r) == 0.0
  }

  ghost predicate DiagonalUsable(m: Matrix, l: int) {
    forall c {:trigger Entry(m, c, c)} :: l <= c < 4 && 0 <= c ==> !NearZero(Entry(m, c, c))
  }

  lemma {:induction false} NothingToClear(w: Work, l: int, lh: int)
    requires 0 <= l < lh <= 4 && ZerosBelow(w.m, l)
    ensures ClearedFrom(w, l, lh) == w
    decreases 4 - lh
  {
    if lh < 4 {
      assert Entry(w.m, l, lh) == 0.0;
      NothingToClear(w, l, lh + 1);
    }
  }

  /** Without entries below the diagonal nothing is exchanged, and every pivot is the diagonal
      entry. */
  lemma {:induction false} TriangularRun(w: Work, l: int)
    requires 0 <= l <= 4 && ZerosBelow(w.m, l)
    ensures var r := RunFrom(w, l); (!r.deadEnd <==> DiagonalUsable(w.m, l)) && (!r.deadEnd ==> r.rejected == [])
    decreases 4 - l
  {
    if l < 4 {
      SmallIsNearZero(Entry(w.m, l, l));
      if IsSmall(Entry(w.m, l, l)) {
        StuckAt(w, l);
      } else {
        var n := Normalized(w, l);
        forall c, r | l <= c <= r < 4 && l < r ensures Entry(n.m, c, r) == Entry(w.m, c, r) {
          SetLineEntry(w.m, l, Line(n.m, l), c, r);
        }
        NothingToClear(n, l, l + 1);
        TriangularRun(n, l + 1);
      }
    }
  }

  /** A matrix with zeros below the diagonal is inverted, and rightly, exactly when no diagonal
      entry is near zero. */
  lemma TriangularInverts(m: Matrix)
    requires ZerosBelow(m, 0)
    ensures !DeadEnds(m) <==> DiagonalUsable(m, 0)
    ensures !DeadEnds(m) ==> RejectedPivots(m) == [] && Product(Inverted(m), m) == IDENTITY
  {
    TriangularRun(Start(m), 0);
    InversionIsRight(m);
  }

  lemma {:induction false} RejectedAreSmall(w: Work, l: int)
    requires 0 <= l <= 4
    ensures forall x :: x in RunFrom(w, l).rejected ==> IsSmall(x)
    decreases 4 - l, if l < 4 then Remaining(w.m, l) else 0
  {
    if l < 4 {
      var lh := LineBelow(w.m, l, l + 1);
      if !IsSmall(Entry(w.m, l, l)) {
        RejectedAreSmall(ClearedFrom(Normalized(w, l), l, l + 1), l + 1);
      } else if lh < 4 {
        SwapShrinks(w, l, lh);
        RejectedAreSmall(Swapped(Rejected(w, l), l, lh), l);
      }
    }
  }

  // ------------------------------------------------------------ where it fails

  const TINY := 0.00001
  const SMALL_DIAGONAL := IDENTITY.(r0 := Row(TINY, 0.0, 0.0, 0.0))

  /** A small pivot with nothing but zeros below it. */
  lemma StuckAt(w: Work, l: int)
    requires 0 <= l < 4 && IsSmall(Entry(w.m, l, l))
    requires forall r {:trigger Entry(w.m, l, r)} :: l < r < 4 ==> Entry(w.m, l, r) == 0.0
    ensures RunFrom(w, l) == Run([Entry(w.m, l, l)], w, true)
  {
    assert LineBelow(w.m, l, l + 1) == 4;
  }

  lemma Trivial(u: Row)
    ensures Scale(0.0, u) == ZERO && Scale(1.0, u) == u && Plus(u, ZERO) == u && Plus(ZERO, u) == u
  {
  }

  /** A line with a single entry picks a line of the matrix. */
  lemma PicksLine(f: real, i: int, m: Matrix)
    requires 0 <= i < 4
    ensures Times(SetAt(ZERO, i, f), m) == Scale(f, Line(m, i))
  {
    Trivial(m.r0);
    Trivial(m.r1);
    Trivial(m.r2);
    Trivial(m.r3);
    Trivial(Scale(f, Line(m, i)));
    Trivial(ZERO);
  }

  lemma HasInverse(a: Row, b: Row, c: Row, d: Row, m: Matrix)
    requires Times(a, m) == Unit(0) && Times(b, m) == Unit(1) && Times(c, m) == Unit(2) && Times(d, m) == Unit(3)
    ensures Invertible(m)
  {
    assert Product(Matrix(a, b, c, d), m) == IDENTITY;
  }

  lemma DividedLine(f: real, i: int, m: Matrix)
    requires 0 <= i < 4 && Scale(f, Line(m, i)) == Unit(i)
    ensures Times(SetAt(ZERO, i, f), m) == Unit(i)
  {
    PicksLine(f, i, m);
  }

  lemma SmallDiagonalInverse(m: Matrix, f: real)
    requires Scale(f, m.r0) == Unit(0) && m.r1 == Unit(1) && m.r2 == Unit(2) && m.r3 == Unit(3)
    ensures Invertible(m)
  {
    var a, b, c, d := SetAt(ZERO, 0, f), SetAt(ZERO, 1, 1.0), SetAt(ZERO, 2, 1.0), SetAt(ZERO, 3, 1.0);
    assert Times(a, m) == Unit(0) by { DividedLine(f, 0, m); }
    assert Times(b, m) == Unit(1) by { Trivial(m.r1); DividedLine(1.0, 1, m); }
    assert Times(c, m) == Unit(2) by { Trivial(m.r2); DividedLine(1.0, 2, m); }
    assert Times(d, m) == Unit(3) by { Trivial(m.r3); DividedLine(1.0, 3, m); }
    HasInverse(a, b, c, d, m);
  }

  /** A matrix with an inverse that the inversion gives up on. */
  lemma SmallDiagonalIsRefused()
    ensures Invertible(SMALL_DIAGONAL) && DeadEnds(SMALL_DIAGONAL) && RejectedPivots(SMALL_DIAGONAL) == [TINY]
  {
    assert Scale(100000.0, Row(TINY, 0.0, 0.0, 0.0)) == Unit(0);
    SmallDiagonalInverse(SMALL_DIAGONAL, 100000.0);
    StuckAt(Start(SMALL_DIAGONAL), 0);
  }
}
