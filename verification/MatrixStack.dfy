/** The server's current matrix: multiplication, and inversion in the Gauss way. Column x of
    line y is kept at x * 4 + y. */
module MatrixStack {
  import opened Rows
  import opened Elimination
  import opened Inversion
  import opened Kernels

  const SIZE := 16

  function RowIn(s: seq<real>, l: int): Row
    requires |s| == SIZE && 0 <= l < 4
  {
    Row(s[l], s[4 + l], s[8 + l], s[12 + l])
  }

  function MatrixIn(s: seq<real>): Matrix
    requires |s| == SIZE
  {
    Matrix(RowIn(s, 0), RowIn(s, 1), RowIn(s, 2), RowIn(s, 3))
  }

  lemma LineIn(s: seq<real>, x: int, y: int)
    requires |s| == SIZE && 0 <= x < 4 && 0 <= y < 4
    ensures 0 <= x * 4 + y < SIZE && Line(MatrixIn(s), y) == RowIn(s, y) && At(RowIn(s, y), x) == s[x * 4 + y]
  {
  }

  lemma StoreIn(s: seq<real>, x: int, y: int, v: real)
    requires |s| == SIZE && 0 <= x < 4 && 0 <= y < 4
    ensures 0 <= x * 4 + y < SIZE
    ensures MatrixIn(s[x * 4 + y := v]) == SetLine(MatrixIn(s), y, SetAt(Line(MatrixIn(s), y), x, v))
  {
    var t := s[x * 4 + y := v];
    assert forall l :: 0 <= l < 4 && l != y ==> RowIn(t, l) == RowIn(s, l);
  }

  lemma SetTwice(m: Matrix, l: int, u: Row, v: Row)
    requires 0 <= l < 4
    ensures SetLine(SetLine(m, l, u), l, v) == SetLine(m, l, v) && Line(SetLine(m, l, u), l) == u
  {
  }

  /** Columns from `from` up to i multiplied. */
  function ScaledTo(u: Row, f: real, from: int, i: int): Row {
    Row(if from <= 0 < i then f * u.a else u.a, if from <= 1 < i then f * u.b else u.b,
        if from <= 2 < i then f * u.c else u.c, if from <= 3 < i then f * u.d else u.d)
  }

  /** Columns from `from` up to i increased by f times those of v. */
  function AddedTo(u: Row, f: real, v: Row, from: int, i: int): Row {
    Row(if from <= 0 < i then u.a + f * v.a else u.a, if from <= 1 < i then u.b + f * v.b else u.b,
        if from <= 2 < i then u.c + f * v.c else u.c, if from <= 3 < i then u.d + f * v.d else u.d)
  }

  /** Multiply line l by f, from a column on. */
  method ScaleLine(a: array<real>, l: int, f: real, from: int)
    requires a.Length == SIZE && 0 <= l < 4 && 0 <= from <= 4
    modifies a
    ensures MatrixIn(a[..])
         == old(SetLine(MatrixIn(a[..]), l, ScaledTo(Line(MatrixIn(a[..]), l), f, from, 4)))
  {
    ghost var m := MatrixIn(a[..]);
    var i := from;
    while i < 4
      invariant from <= i <= 4
      invariant MatrixIn(a[..]) == SetLine(m, l, ScaledTo(Line(m, l), f, from, i))
    {
      ScaleEntryIn(a, l, f, i, m, from);
      i := i + 1;
    }
  }

  method ScaleEntryIn(a: array<real>, l: int, f: real, i: int, ghost m: Matrix, ghost from: int)
    requires a.Length == SIZE && 0 <= l < 4 && 0 <= from <= i < 4
    requires MatrixIn(a[..]) == SetLine(m, l, ScaledTo(Line(m, l), f, from, i))
    modifies a
    ensures MatrixIn(a[..]) == SetLine(m, l, ScaledTo(Line(m, l), f, from, i + 1))
  {
    LineIn(a[..], i, l);
    StoreIn(a[..], i, l, a[i * 4 + l] * f);
    SetTwice(m, l, ScaledTo(Line(m, l), f, from, i), ScaledTo(Line(m, l), f, from, i + 1));
    a[i * 4 + l] := a[i * 4 + l] * f;
  }

  /** Line lh with f times line l added in columns from `from` up to i. */
  ghost function LineAdded(m: Matrix, lh: int, l: int, f: real, from: int, i: int): Matrix {
    SetLine(m, lh, AddedTo(Line(m, lh), f, Line(m, l), from, i))
  }

  /** Add f times line l to line lh, from a column on. */
  method AddLine(a: array<real>, lh: int, l: int, f: real, from: int)
    requires a.Length == SIZE && 0 <= l < 4 && 0 <= lh < 4 && l != lh && 0 <= from <= 4
    modifies a
    ensures MatrixIn(a[..]) == LineAdded(old(MatrixIn(a[..])), lh, l, f, from, 4)
  {
    ghost var m := MatrixIn(a[..]);
    NothingAdded(m, lh, l, f, from);
    var i := from;
    while i < 4
      invariant from <= i <= 4 && MatrixIn(a[..]) == LineAdded(m, lh, l, f, from, i)
    {
      AddEntryTo(a, lh, l, f, i, m, from);
      i := i + 1;
    }
  }

  lemma NothingAdded(m: Matrix, lh: int, l: int, f: real, from: int)
    requires 0 <= lh < 4
    ensures LineAdded(m, lh, l, f, from, from) == m
  {
  }

  method AddEntryTo(a: array<real>, lh: int, l: int, f: real, i: int, ghost m: Matrix, ghost from: int)
    requires a.Length == SIZE && 0 <= l < 4 && 0 <= lh < 4 && l != lh && 0 <= from <= i < 4
    requires MatrixIn(a[..]) == LineAdded(m, lh, l, f, from, i)
    modifies a
    ensures MatrixIn(a[..]) == LineAdded(m, lh, l, f, from, i + 1)
  {
    AddEntryAt(a[..], m, lh, l, f, from, i);
    a[i * 4 + lh] := a[i * 4 + lh] + f * a[i * 4 + l];
  }

  lemma AddEntryAt(s: seq<real>, m: Matrix, lh: int, l: int, f: real, from: int, i: int)
    requires |s| == SIZE && 0 <= l < 4 && 0 <= lh < 4 && l != lh && 0 <= from <= i < 4
    requires MatrixIn(s) == SetLine(m, lh, AddedTo(Line(m, lh), f, Line(m, l), from, i))
    ensures 0 <= i * 4 + lh < SIZE && 0 <= i * 4 + l < SIZE
    ensures MatrixIn(s[i * 4 + lh := s[i * 4 + lh] + f * s[i * 4 + l]])
         == SetLine(m, lh, AddedTo(Line(m, lh), f, Line(m, l), from, i + 1))
  {
    var u, v := Line(m, lh), Line(m, l);
    LineIn(s, i, lh);
    LineIn(s, i, l);
    assert Line(MatrixIn(s), l) == v;
    StoreIn(s, i, lh, s[i * 4 + lh] + f * s[i * 4 + l]);
    SetTwice(m, lh, AddedTo(u, f, v, from, i), AddedTo(u, f, v, from, i + 1));
    AddedStep(u, f, v, from, i, s[i * 4 + lh] + f * s[i * 4 + l]);
  }

  lemma AddedStep(u: Row, f: real, v: Row, from: int, i: int, x: real)
    requires 0 <= from <= i < 4 && x == At(AddedTo(u, f, v, from, i), i) + f * At(v, i)
    ensures SetAt(AddedTo(u, f, v, from, i), i, x) == AddedTo(u, f, v, from, i + 1)
  {
  }

  /** Columns up to i taken from v. */
  function MixedTo(u: Row, v: Row, i: int): Row {
    Row(if 0 < i then v.a else u.a, if 1 < i then v.b else u.b, if 2 < i then v.c else u.c, if 3 < i then v.d else u.d)
  }

  /** Exchange the entries of lines l and lh in column i. */
  method SwapEntries(a: array<real>, l: int, lh: int, i: int, ghost m: Matrix)
    requires a.Length == SIZE && 0 <= l < lh < 4 && 0 <= i < 4
    requires MatrixIn(a[..]) == SetLine(SetLine(m, l, MixedTo(Line(m, l), Line(m, lh), i)), lh,
                                        MixedTo(Line(m, lh), Line(m, l), i))
    modifies a
    ensures MatrixIn(a[..]) == SetLine(SetLine(m, l, MixedTo(Line(m, l), Line(m, lh), i + 1)), lh,
                                       MixedTo(Line(m, lh), Line(m, l), i + 1))
  {
    LineIn(a[..], i, l);
    LineIn(a[..], i, lh);
    var f := a[i * 4 + l];
    StoreIn(a[..], i, l, a[i * 4 + lh]);
    a[i * 4 + l] := a[i * 4 + lh];
    StoreIn(a[..], i, lh, f);
    a[i * 4 + lh] := f;
  }

  /** Exchange lines l and lh. */
  method SwapLines(a: array<real>, l: int, lh: int)
    requires a.Length == SIZE && 0 <= l < lh < 4
    modifies a
    ensures MatrixIn(a[..]) == Exchanged(old(MatrixIn(a[..])), l, lh)
  {
    ghost var m := MatrixIn(a[..]);
    var i := 0;
    while i < 4
      invariant 0 <= i <= 4
      invariant MatrixIn(a[..]) == SetLine(SetLine(m, l, MixedTo(Line(m, l), Line(m, lh), i)), lh,
                                           MixedTo(Line(m, lh), Line(m, l), i))
    {
      SwapEntries(a, l, lh, i, m);
      i := i + 1;
    }
  }

  method Store(a: array<real>, x: int, y: int, v: real)
    requires a.Length == SIZE && 0 <= x < 4 && 0 <= y < 4
    modifies a
    ensures MatrixIn(a[..]) == old(SetLine(MatrixIn(a[..]), y, SetAt(Line(MatrixIn(a[..]), y), x, v)))
  {
    StoreIn(a[..], x, y, v);
    a[x * 4 + y] := v;
  }

  method Get(a: array<real>, x: int, y: int) returns (v: real)
    requires a.Length == SIZE && 0 <= x < 4 && 0 <= y < 4
    ensures v == Entry(MatrixIn(a[..]), x, y)
  {
    LineIn(a[..], x, y);
    v := a[x * 4 + y];
  }

  // ------------------------------------------------------------ elimination in place

  ghost function WorkIn(mm: seq<real>, pm: seq<real>, e: Matrix): Work
    requires |mm| == SIZE && |pm| == SIZE
  {
    Work(MatrixIn(mm), MatrixIn(pm), e)
  }

  /** Scaling from column l + 1 on and writing the one is scaling the whole line. */
  lemma NormalizedLine(u: Row, l: int, f: real)
    requires 0 <= l < 4 && f * At(u, l) == 1.0 && forall c {:trigger At(u, c)} :: 0 <= c < l ==> At(u, c) == 0.0
    ensures ScaledTo(SetAt(u, l, 1.0), f, l + 1, 4) == Scale(f, u)
  {
    var s, t := ScaledTo(SetAt(u, l, 1.0), f, l + 1, 4), Scale(f, u);
    forall c | 0 <= c < 4 ensures At(s, c) == At(t, c) {
      ScaleEntry(f, u, c);
      if c > l { ScaledToAt(u, l, f, c, 1.0); }
    }
    SameRow(s, t);
  }

  lemma ScaledToAt(u: Row, l: int, f: real, c: int, x: real)
    requires 0 <= l < c < 4
    ensures At(ScaledTo(SetAt(u, l, x), f, l + 1, 4), c) == At(Scale(f, u), c)
  {
  }

  lemma SameRow(s: Row, t: Row)
    requires forall c {:trigger At(s, c)} :: 0 <= c < 4 ==> At(s, c) == At(t, c)
    ensures s == t
  {
    assert At(s, 0) == s.a && At(s, 1) == s.b && At(s, 2) == s.c && At(s, 3) == s.d;
  }

  lemma ClearedLine(u: Row, v: Row, l: int, f: real)
    requires 0 <= l < 4 && f == -At(u, l)
    requires At(v, l) == 1.0 && forall c {:trigger At(v, c)} :: 0 <= c < l ==> At(v, c) == 0.0
    ensures AddedTo(SetAt(u, l, 0.0), f, v, l + 1, 4) == Plus(u, Scale(f, v))
  {
    var s, t := AddedTo(SetAt(u, l, 0.0), f, v, l + 1, 4), Plus(u, Scale(f, v));
    forall c | 0 <= c < 4 ensures At(s, c) == At(t, c) { AddEntry(u, f, v, c); }
    SameRow(s, t);
  }

  lemma WholeLine(u: Row, f: real, v: Row)
    ensures AddedTo(u, f, v, 0, 4) == Plus(u, Scale(f, v)) && ScaledTo(u, f, 0, 4) == Scale(f, u)
  {
  }

  /** The right side: add f times line l to line lh. */
  method AddRight(pm: array<real>, lh: int, l: int, f: real)
    requires pm.Length == SIZE && 0 <= l < 4 && 0 <= lh < 4 && l != lh
    modifies pm
    ensures MatrixIn(pm[..])
         == old(var m := MatrixIn(pm[..]); SetLine(m, lh, Plus(Line(m, lh), Scale(f, Line(m, l)))))
  {
    ghost var m := MatrixIn(pm[..]);
    WholeLine(Line(m, lh), f, Line(m, l));
    AddLine(pm, lh, l, f, 0);
  }

  /** The left side, of which only what lies behind column l needs computing. */
  method AddLeft(mm: array<real>, lh: int, l: int, f: real)
    requires mm.Length == SIZE && 0 <= l < lh < 4 && f == -Entry(MatrixIn(mm[..]), l, lh)
    requires Entry(MatrixIn(mm[..]), l, l) == 1.0
    requires forall c {:trigger Entry(MatrixIn(mm[..]), c, l)} :: 0 <= c < l ==> Entry(MatrixIn(mm[..]), c, l) == 0.0
    modifies mm
    ensures MatrixIn(mm[..])
         == old(var m := MatrixIn(mm[..]); SetLine(m, lh, Plus(Line(m, lh), Scale(f, Line(m, l)))))
  {
    ghost var m := MatrixIn(mm[..]);
    ghost var u, v := Line(m, lh), Line(m, l);
    forall c | 0 <= c < l ensures At(v, c) == 0.0 { assert Entry(m, c, l) == 0.0; }
    ClearedLine(u, v, l, f);
    SetTwice(m, lh, SetAt(u, l, 0.0), Plus(u, Scale(f, v)));
    Store(mm, l, lh, 0.0);           // the pivot is given up
    assert Line(MatrixIn(mm[..]), l) == v;
    AddLine(mm, lh, l, f, l + 1);
  }

  method ScaleLeft(mm: array<real>, l: int, f: real)
    requires mm.Length == SIZE && 0 <= l < 4 && f * Entry(MatrixIn(mm[..]), l, l) == 1.0
    requires forall c {:trigger Entry(MatrixIn(mm[..]), c, l)} :: 0 <= c < l ==> Entry(MatrixIn(mm[..]), c, l) == 0.0
    modifies mm
    ensures MatrixIn(mm[..]) == old(SetLine(MatrixIn(mm[..]), l, Scale(f, Line(MatrixIn(mm[..]), l))))
  {
    ghost var m := MatrixIn(mm[..]);
    ghost var u := Line(m, l);
    forall c | 0 <= c < l ensures At(u, c) == 0.0 { assert Entry(m, c, l) == 0.0; }
    NormalizedLine(u, l, f);
    SetTwice(m, l, SetAt(u, l, 1.0), Scale(f, u));
    Store(mm, l, l, 1.0);
    ScaleLine(mm, l, f, l + 1);
  }

  method ScaleRight(pm: array<real>, l: int, f: real)
    requires pm.Length == SIZE && 0 <= l < 4
    modifies pm
    ensures MatrixIn(pm[..]) == old(SetLine(MatrixIn(pm[..]), l, Scale(f, Line(MatrixIn(pm[..]), l))))
  {
    ghost var m := MatrixIn(pm[..]);
    WholeLine(Line(m, l), f, Line(m, l));
    ScaleLine(pm, l, f, 0);
  }

  /** Look for a line with a usable pivot for column l, taking small ones for zero: `done` are
      those, and the run goes on from where it is left. */
  method FindPivot(mm: array<real>, pm: array<real>, l: int, ghost e: Matrix)
    returns (found: bool, ghost e': Matrix, ghost done: seq<real>)
    requires mm.Length == SIZE && pm.Length == SIZE && mm != pm && 0 <= l < 4
    requires Seeking(WorkIn(mm[..], pm[..], e), l)
    modifies mm, pm
    ensures found ==> Seeking(WorkIn(mm[..], pm[..], e'), l) && !IsSmall(Entry(MatrixIn(mm[..]), l, l))
    ensures found ==> old(RunFrom(WorkIn(mm[..], pm[..], e), l)) == Prepend(done, RunFrom(WorkIn(mm[..], pm[..], e'), l))
    ensures !found ==> old(RunFrom(WorkIn(mm[..], pm[..], e), l).deadEnd)
  {
    e', done := e, [];
    found := true;
    ghost var w0 := WorkIn(mm[..], pm[..], e);
    while true
      invariant found && Seeking(WorkIn(mm[..], pm[..], e'), l)
      invariant RunFrom(w0, l) == Prepend(done, RunFrom(WorkIn(mm[..], pm[..], e'), l))
      decreases Remaining(MatrixIn(mm[..]), l)
    {
      var pivot := Get(mm, l, l);
      if !IsSmall(pivot) { return; }
      found, e' := Reject(mm, pm, l, e');
      if !found { return; }
      done := done + [pivot];
    }
  }

  /** Take the pivot for zero and exchange its line with one below that has something in the
      column, if there is one. */
  method Reject(mm: array<real>, pm: array<real>, l: int, ghost e: Matrix) returns (found: bool, ghost e': Matrix)
    requires mm.Length == SIZE && pm.Length == SIZE && mm != pm && 0 <= l < 4
    requires Seeking(WorkIn(mm[..], pm[..], e), l) && IsSmall(Entry(MatrixIn(mm[..]), l, l))
    modifies mm, pm
    ensures var w := old(WorkIn(mm[..], pm[..], e)); var lh := LineBelow(w.m, l, l + 1);
            && found == (lh < 4)
            && (if found then WorkIn(mm[..], pm[..], e') == Swapped(Rejected(w, l), l, lh)
                else MatrixIn(mm[..]) == Rejected(w, l).m)
    ensures found ==> Seeking(WorkIn(mm[..], pm[..], e'), l)
    ensures found ==> Remaining(MatrixIn(mm[..]), l) < old(Remaining(MatrixIn(mm[..]), l))
  {
    ghost var w := WorkIn(mm[..], pm[..], e);
    ghost var j := Rejected(w, l);
    Store(mm, l, l, 0.0);
    assert MatrixIn(mm[..]) == j.m;
    var lh := l + 1;
    while lh < 4
      invariant l < lh <= 4 && MatrixIn(mm[..]) == j.m && MatrixIn(pm[..]) == j.p
      invariant LineBelow(w.m, l, l + 1) == LineBelow(w.m, l, lh)
    {
      var x := Get(mm, l, lh);
      SetLineEntry(w.m, l, SetAt(Line(w.m, l), l, 0.0), l, lh);
      assert x == Entry(w.m, l, lh);
      if x != 0.0 {
        RejectedSwapShape(w, l, lh);
        SwapLines(mm, l, lh);
        SwapLines(pm, l, lh);
        return true, Exchanged(j.e, l, lh);
      }
      lh := lh + 1;
    }
    return false, e;
  }

  /** Divide line l by its pivot and clear the column below it. */
  method UsePivot(mm: array<real>, pm: array<real>, l: int, ghost e: Matrix) returns (ghost e': Matrix)
    requires mm.Length == SIZE && pm.Length == SIZE && mm != pm && 0 <= l < 4
    requires Seeking(WorkIn(mm[..], pm[..], e), l) && Entry(MatrixIn(mm[..]), l, l) != 0.0
    modifies mm, pm
    ensures WorkIn(mm[..], pm[..], e') == ClearedFrom(Normalized(old(WorkIn(mm[..], pm[..], e)), l), l, l + 1)
    ensures Seeking(WorkIn(mm[..], pm[..], e'), l + 1)
  {
    ghost var n := Normalized(WorkIn(mm[..], pm[..], e), l);
    e' := Normalize(mm, pm, l, e);
    var lh := l + 1;
    while lh < 4
      invariant l < lh <= 4 && Clearing(WorkIn(mm[..], pm[..], e'), l, lh)
      invariant ClearedFrom(n, l, l + 1) == ClearedFrom(WorkIn(mm[..], pm[..], e'), l, lh)
    {
      e' := ClearLine(mm, pm, l, lh, e');
      lh := lh + 1;
    }
    ClearedShape(WorkIn(mm[..], pm[..], e'), l);
  }

  method Normalize(mm: array<real>, pm: array<real>, l: int, ghost e: Matrix) returns (ghost e': Matrix)
    requires mm.Length == SIZE && pm.Length == SIZE && mm != pm && 0 <= l < 4
    requires Seeking(WorkIn(mm[..], pm[..], e), l) && Entry(MatrixIn(mm[..]), l, l) != 0.0
    modifies mm, pm
    ensures WorkIn(mm[..], pm[..], e') == Normalized(old(WorkIn(mm[..], pm[..], e)), l)
    ensures Clearing(WorkIn(mm[..], pm[..], e'), l, l + 1)
  {
    ghost var w := WorkIn(mm[..], pm[..], e);
    NormalizedShape(w, l);
    forall c | 0 <= c < l ensures Entry(MatrixIn(mm[..]), c, l) == 0.0 { assert Entry(w.m, c, l) == 0.0; }
    var pivot := Get(mm, l, l);
    var f := 1.0 / pivot;
    Reciprocal(pivot);
    ScaleLeft(mm, l, f);
    ScaleRight(pm, l, f);
    e' := Normalized(w, l).e;
    assert WorkIn(mm[..], pm[..], e') == Normalized(w, l);
  }

  method ClearLine(mm: array<real>, pm: array<real>, l: int, lh: int, ghost e: Matrix) returns (ghost e': Matrix)
    requires mm.Length == SIZE && pm.Length == SIZE && mm != pm && 0 <= l < lh < 4
    requires Clearing(WorkIn(mm[..], pm[..], e), l, lh)
    modifies mm, pm
    ensures WorkIn(mm[..], pm[..], e') == ClearedAt(old(WorkIn(mm[..], pm[..], e)), l, lh)
    ensures Clearing(WorkIn(mm[..], pm[..], e'), l, lh + 1)
  {
    ghost var w := WorkIn(mm[..], pm[..], e);
    ClearedAtShape(w, l, lh);
    var first := Get(mm, l, lh);
    e' := ClearedAt(w, l, lh).e;
    if first != 0.0 {
      var f := -first;
      forall c | 0 <= c < l ensures Entry(MatrixIn(mm[..]), c, l) == 0.0 { assert Entry(w.m, c, l) == 0.0; }
      AddLeft(mm, lh, l, f);
      AddRight(pm, lh, l, f);
    }
    assert WorkIn(mm[..], pm[..], e') == ClearedAt(w, l, lh);
  }

  /** Clear line lh in column l, from below. */
  method ClearAbove(mm: array<real>, pm: array<real>, l: int, lh: int, ghost e: Matrix) returns (ghost e': Matrix)
    requires mm.Length == SIZE && pm.Length == SIZE && mm != pm && 0 <= lh < l < 4
    requires Backward(MatrixIn(mm[..]), l, lh)
    modifies mm, pm
    ensures WorkIn(mm[..], pm[..], e') == ClearedAt(old(WorkIn(mm[..], pm[..], e)), l, lh)
    ensures Backward(MatrixIn(mm[..]), l, lh - 1)
  {
    ghost var w := WorkIn(mm[..], pm[..], e);
    var first := Get(mm, l, lh);
    e' := ClearedAt(w, l, lh).e;
    if first != 0.0 {
      var f := -first;
      BackwardStep(w, l, lh);
      Store(mm, l, lh, 0.0);
      AddRight(pm, lh, l, f);
    }
    assert WorkIn(mm[..], pm[..], e') == ClearedAt(w, l, lh);
  }

  /** The first k terms of column i of the product. */
  ghost function SumTo(u: Row, n: Matrix, i: int, k: nat): real {
    if k == 0 then 0.0 else SumTo(u, n, i, k - 1) + Term(At(u, k - 1), At(Line(n, k - 1), i))
  }

  lemma SumStep(u: Row, n: Matrix, i: int, k: nat)
    ensures SumTo(u, n, i, k + 1) == SumTo(u, n, i, k) + At(u, k) * At(Line(n, k), i)
  {
  }

  lemma SumAll(u: Row, n: Matrix, i: int)
    ensures SumTo(u, n, i, 4) == (Term(u.a, At(n.r0, i)) + Term(u.b, At(n.r1, i)))
                                 + (Term(u.c, At(n.r2, i)) + Term(u.d, At(n.r3, i)))
  {
    assert SumTo(u, n, i, 1) == SumTo(u, n, i, 0) + Term(u.a, At(n.r0, i));
    assert SumTo(u, n, i, 2) == SumTo(u, n, i, 1) + Term(u.b, At(n.r1, i));
    assert SumTo(u, n, i, 3) == SumTo(u, n, i, 2) + Term(u.c, At(n.r2, i));
    assert SumTo(u, n, i, 4) == SumTo(u, n, i, 3) + Term(u.d, At(n.r3, i));
  }

  class Current {
    const mat: array<real>

    ghost predicate Valid()
      reads this
    {
      mat.Length == SIZE
    }

    ghost function Value(): Matrix
      requires Valid()
      reads this, mat
    {
      MatrixIn(mat[..])
    }

    constructor ()
      ensures Valid() && fresh(mat) && Value() == IDENTITY
    {
      mat := new real[SIZE];
      new;
      SetIdentity(mat);
    }

    /** Multiply the current matrix by another. */
    method MyMultMatrix(mat2: array<real>)
      requires Valid() && mat2.Length == SIZE
      modifies mat
      ensures Value() == Product(old(Value()), old(MatrixIn(mat2[..])))
    {
      var matD := new real[SIZE](_ => 0.0);
      ghost var m, n := Value(), MatrixIn(mat2[..]);
      var j := 0;
      while j < 4
        invariant 0 <= j <= 4 && mat[..] == old(mat[..]) && mat2[..] == old(mat2[..])
        invariant forall y {:trigger Line(MatrixIn(matD[..]), y)} :: 0 <= y < j ==>
                    Line(MatrixIn(matD[..]), y) == Times(Line(m, y), n)
      {
        ghost var before := MatrixIn(matD[..]);
        MultLine(mat2, matD, j);
        forall y | 0 <= y < j ensures Line(MatrixIn(matD[..]), y) == Times(Line(m, y), n) {
          assert Line(before, y) == Times(Line(m, y), n);
        }
        j := j + 1;
      }
      assert Line(MatrixIn(matD[..]), 0) == MatrixIn(matD[..]).r0 && Line(MatrixIn(matD[..]), 1) == MatrixIn(matD[..]).r1;
      assert Line(MatrixIn(matD[..]), 2) == MatrixIn(matD[..]).r2 && Line(MatrixIn(matD[..]), 3) == MatrixIn(matD[..]).r3;
      CopyInto(matD, mat);
    }

    method MultLine(mat2: array<real>, matD: array<real>, j: int)
      requires Valid() && mat2.Length == SIZE && matD.Length == SIZE && matD != mat && matD != mat2 && 0 <= j < 4
      modifies matD
      ensures MatrixIn(matD[..]) == SetLine(old(MatrixIn(matD[..])), j, Times(Line(Value(), j), MatrixIn(mat2[..])))
    {
      ghost var m, n, d := Value(), MatrixIn(mat2[..]), MatrixIn(matD[..]);
      ghost var t := Times(Line(m, j), n);
      var i := 0;
      while i < 4
        invariant 0 <= i <= 4 && MatrixIn(matD[..]) == SetLine(d, j, MixedTo(Line(d, j), t, i))
      {
        var sum := Sum(mat2, i, j);
        StoreIn(matD[..], i, j, sum);
        SetTwice(d, j, MixedTo(Line(d, j), t, i), MixedTo(Line(d, j), t, i + 1));
        matD[i * 4 + j] := sum;
        i := i + 1;
      }
    }

    /** Column i of line j of the product. */
    method Sum(mat2: array<real>, i: int, j: int) returns (sum: real)
      requires Valid() && mat2.Length == SIZE && 0 <= i < 4 && 0 <= j < 4
      ensures sum == At(Times(Line(Value(), j), MatrixIn(mat2[..])), i)
    {
      ghost var u, n := Line(Value(), j), MatrixIn(mat2[..]);
      sum := 0.0;
      var k := 0;
      while k < 4
        invariant 0 <= k <= 4 && sum == SumTo(u, n, i, k)
      {
        LineIn(mat[..], k, j);
        LineIn(mat2[..], i, k);
        SumStep(u, n, i, k);
        sum := sum + mat[k * 4 + j] * mat2[i * 4 + k];
        k := k + 1;
      }
      TimesEntry(u, n, i);
      SumAll(u, n, i);
    }

    /** This inverts the current matrix, or leaves it alone with result -1. */
    method MyInvert() returns (result: int)
      requires Valid()
      modifies mat
      ensures result == if DeadEnds(old(Value())) then -1 else 0
      ensures Value() == if result == 0 then Inverted(old(Value())) else old(Value())
      ensures result == 0 ==> (Product(Value(), old(Value())) == IDENTITY <==> AllZero(RejectedPivots(old(Value()))))
      ensures AllZero(RejectedPivots(old(Value()))) ==> (result == 0 <==> Invertible(old(Value())))
      ensures forall x :: x in RejectedPivots(old(Value())) ==> NearZero(x)
      ensures ZerosBelow(old(Value()), 0) ==>
                (result == 0 <==> DiagonalUsable(old(Value()), 0))
                && (result == 0 ==> Product(Value(), old(Value())) == IDENTITY)
    {
      InversionIsRight(Value());
      RejectedAreNearZero(Value());
      if ZerosBelow(Value(), 0) { TriangularInverts(Value()); }
      var mm := new real[SIZE];
      var pm := new real[SIZE];
      CopyInto(mat, mm);
      SetIdentity(pm);
      var found := InvertInto(mm, pm, Value());
      if !found { return -1; }
      CopyInto(pm, mat);           // the result
      result := 0;
    }
  }

  method CopyInto(src: array<real>, dst: array<real>)
    requires src.Length == SIZE && dst.Length == SIZE && src != dst
    modifies dst
    ensures dst[..] == src[..]
  {
    forall k | 0 <= k < SIZE { dst[k] := src[k]; }
  }

  method SetIdentity(a: array<real>)
    requires a.Length == SIZE
    modifies a
    ensures MatrixIn(a[..]) == IDENTITY
  {
    forall k | 0 <= k < SIZE { a[k] := if k == 0 || k == 5 || k == 10 || k == 15 then 1.0 else 0.0; }
  }

  /** Both steps, from the working copy and the identity. */
  method InvertInto(mm: array<real>, pm: array<real>, ghost orig: Matrix) returns (found: bool)
    requires mm.Length == SIZE && pm.Length == SIZE && mm != pm
    requires MatrixIn(mm[..]) == orig && MatrixIn(pm[..]) == IDENTITY
    modifies mm, pm
    ensures found == !DeadEnds(orig)
    ensures found ==> MatrixIn(pm[..]) == Inverted(orig)
  {
    ghost var e;
    found, e := Triangulate(mm, pm, orig);
    if found { BackSubstitute(mm, pm, e); }
  }

  lemma PlusEntry(u: Row, v: Row, i: int)
    ensures At(Plus(u, v), i) == At(u, i) + At(v, i)
  {
  }

  function Term(x: real, y: real): real { x * y }

  lemma TermEntry(x: real, u: Row, i: int)
    ensures At(Scale(x, u), i) == Term(x, At(u, i))
  {
  }

  /** Column i of a product of a line is the sum of four terms. */
  lemma TimesEntry(u: Row, n: Matrix, i: int)
    ensures At(Times(u, n), i) == (Term(u.a, At(n.r0, i)) + Term(u.b, At(n.r1, i)))
                                  + (Term(u.c, At(n.r2, i)) + Term(u.d, At(n.r3, i)))
  {
    var x, y, z, w := Scale(u.a, n.r0), Scale(u.b, n.r1), Scale(u.c, n.r2), Scale(u.d, n.r3);
    TermEntry(u.a, n.r0, i);
    TermEntry(u.b, n.r1, i);
    TermEntry(u.c, n.r2, i);
    TermEntry(u.d, n.r3, i);
    PlusEntry(x, y, i);
    PlusEntry(z, w, i);
    PlusEntry(Plus(x, y), Plus(z, w), i);
  }

  /** The first step: ones on the diagonal, zeros below. */
  method Triangulate(mm: array<real>, pm: array<real>, ghost orig: Matrix) returns (found: bool, ghost e: Matrix)
    requires mm.Length == SIZE && pm.Length == SIZE && mm != pm
    requires MatrixIn(mm[..]) == orig && MatrixIn(pm[..]) == IDENTITY
    modifies mm, pm
    ensures found == !DeadEnds(orig)
    ensures found ==> Done(MatrixIn(mm[..]), 4) && WorkIn(mm[..], pm[..], e) == RunFrom(Start(orig), 0).w
  {
    e, found := NOTHING, true;
    ghost var rejected := [];
    StartsGood(orig);
    assert WorkIn(mm[..], pm[..], e) == Start(orig);
    var l := 0;
    while l < 4
      invariant 0 <= l <= 4 && Seeking(WorkIn(mm[..], pm[..], e), l)
      invariant RunFrom(Start(orig), 0) == Prepend(rejected, RunFrom(WorkIn(mm[..], pm[..], e), l))
    {
      ghost var more;
      found, e, more := FindPivot(mm, pm, l, e);
      if !found { return; }          // the dead end
      rejected := rejected + more;
      e := UsePivot(mm, pm, l, e);
      l := l + 1;
    }
    found := true;
  }

  /** The second step: clear the columns above the diagonal, from the last. */
  method BackSubstitute(mm: array<real>, pm: array<real>, ghost e: Matrix)
    requires mm.Length == SIZE && pm.Length == SIZE && mm != pm && Done(MatrixIn(mm[..]), 4)
    modifies mm, pm
    ensures MatrixIn(mm[..]) == IDENTITY
    ensures MatrixIn(pm[..]) == BackFrom(old(WorkIn(mm[..], pm[..], e)), 3, 2).p
  {
    ghost var w0, e1 := WorkIn(mm[..], pm[..], e), e;
    var l := 3;
    while l > 0
      invariant 0 <= l <= 3 && Backward(MatrixIn(mm[..]), l, l - 1)
      invariant BackFrom(w0, 3, 2) == BackFrom(WorkIn(mm[..], pm[..], e1), l, l - 1)
    {
      var lh := l - 1;
      while lh >= 0
        invariant -1 <= lh < l && Backward(MatrixIn(mm[..]), l, lh)
        invariant BackFrom(w0, 3, 2) == BackFrom(WorkIn(mm[..], pm[..], e1), l, lh)
      {
        e1 := ClearAbove(mm, pm, l, lh, e1);
        lh := lh - 1;
      }
      l := l - 1;
    }
    BackwardDone(MatrixIn(mm[..]));
  }
}
