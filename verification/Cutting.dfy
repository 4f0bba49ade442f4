/** Which rings the final pass can cut, and what cutting a whole pool of them adds up to. */
module Cutting {
  import opened Sequences
  import opened Plane
  import opened GreedyCut
  import opened Rings
  import opened Polygons

  /** Which side of the polygon is the single straight edge. */
  datatype Side = LeftStraight | RightStraight

  /** The chain is monotone and lies on the outer side of its closing edge. */
  ghost predicate Cuttable(pts: seq<Point>, w: seq<int>) {
    OneSided(pts, w) && (Monotone(pts, w, true) || Monotone(pts, w, false))
  }

  /** Read from one of its positions, the ring is a cuttable chain of distinct vertices. */
  ghost predicate RingCuttable(t: Table, pts: seq<Point>, c: seq<int>) {
    && Distinct(Vertices(t, c))
    && exists p :: p in c && Cuttable(pts, Vertices(t, RotateTo(c, p)))
  }

  function PointAt(t: Table, pts: seq<Point>, x: int): Point {
    At(pts, if 0 <= x < |t| then t[x].vnum else 0)
  }

  ghost predicate IsTop(t: Table, pts: seq<Point>, c: seq<int>, x: int) {
    x in c && forall k :: 0 <= k < |c| ==> !GreaterThan(PointAt(t, pts, c[k]), PointAt(t, pts, x))
  }

  ghost predicate IsLowest(t: Table, pts: seq<Point>, c: seq<int>, low: Point) {
    && (exists k :: 0 <= k < |c| && PointAt(t, pts, c[k]) == low)
    && forall k :: 0 <= k < |c| ==> !GreaterThan(low, PointAt(t, pts, c[k]))
  }

  /** x is the highest of the first n positions of c, and high is its point. */
  ghost predicate TopSoFar(t: Table, pts: seq<Point>, c: seq<int>, n: nat, x: int, high: Point)
    requires n <= |c|
  {
    && (exists k :: 0 <= k < n && c[k] == x)
    && high == PointAt(t, pts, x)
    && forall k :: 0 <= k < n ==> !GreaterThan(PointAt(t, pts, c[k]), high)
  }

  ghost predicate LowSoFar(t: Table, pts: seq<Point>, c: seq<int>, n: nat, low: Point)
    requires n <= |c|
  {
    && (exists k :: 0 <= k < n && PointAt(t, pts, c[k]) == low)
    && forall k :: 0 <= k < n ==> !GreaterThan(low, PointAt(t, pts, c[k]))
  }

  /** The ring as the cutter reads it: from the top when the right side is the straight
      edge, up to the top when the left side is. */
  ghost predicate ReadsFrom(r: seq<int>, top: int, side: Side) {
    r != [] && top == if side == RightStraight then r[0] else r[|r| - 1]
  }

  /** Where the cutter starts reading, given the top position and the straight side. */
  function StartOf(t: Table, top: int, side: Side): int
    requires 0 <= top < |t|
  {
    if side == RightStraight then top else t[top].next
  }

  lemma SpanOrSame(pts: seq<Point>, w: seq<int>, down: bool, i: nat, j: nat)
    requires Monotone(pts, w, down) && i <= j < |w|
    ensures i < j ==> Steps(pts, w[i], w[j], down)
  {
    if i < j { MonotoneSpan(pts, w, down, i, j); }
  }

  /** On a monotone chain of four or more, the highest vertex is an end, the lowest the
      other end, and the second vertex is neither. */
  lemma EndsOfChain(pts: seq<Point>, w: seq<int>, down: bool, k: nat, j: nat)
    requires Monotone(pts, w, down) && 3 < |w| && k < |w| && j < |w|
    requires forall l :: 0 <= l < |w| ==> !GreaterThan(At(pts, w[l]), At(pts, w[k]))
    requires forall l :: 0 <= l < |w| ==> !GreaterThan(At(pts, w[j]), At(pts, w[l]))
    ensures if down then k == 0 && At(pts, w[1]) != At(pts, w[j])
            else k == |w| - 1 && j == 0
  {
    var m := |w|;
    if down {
      SpanOrSame(pts, w, down, 0, k);
      SpanOrSame(pts, w, down, j, m - 1);
      SpanOrSame(pts, w, down, 1, m - 1);
    } else {
      SpanOrSame(pts, w, down, k, m - 1);
      SpanOrSame(pts, w, down, 0, j);
    }
  }

  /** A cuttable ring's top is its only highest position, and whether the top's successor
      is the lowest vertex tells on which side the straight edge is. */
  lemma TopDecidesSide(t: Table, pts: seq<Point>, c: seq<int>, top: int, low: Point)
    requires IsRing(t, c) && RingCuttable(t, pts, c) && |c| > 3
    requires IsTop(t, pts, c, top) && IsLowest(t, pts, c, low)
    ensures 0 <= top < |t| && t[top].next in c
    ensures var side := if PointAt(t, pts, t[top].next) == low then LeftStraight else RightStraight;
            Cuttable(pts, Vertices(t, RotateTo(c, StartOf(t, top, side))))
  {
    var p :| p in c && Cuttable(pts, Vertices(t, RotateTo(c, p)));
    RotateToIsRing(t, c, p);
    TopIsEnd(t, pts, c, RotateTo(c, p), top, low);
  }

  lemma TopIsEnd(t: Table, pts: seq<Point>, c: seq<int>, r: seq<int>, top: int, low: Point)
    requires IsRing(t, r) && |r| > 3 && IsTop(t, pts, c, top) && IsLowest(t, pts, c, low)
    requires forall y :: y in r <==> y in c
    requires Cuttable(pts, Vertices(t, r))
    ensures 0 <= top < |t| && t[top].next in r
    ensures if PointAt(t, pts, t[top].next) == low then t[top].next == r[0] else top == r[0]
  {
    var w, m := Vertices(t, r), |r|;
    var i :| 0 <= i < |c| && PointAt(t, pts, c[i]) == low;
    assert c[i] in r;
    var k, j := Index(r, top), Index(r, c[i]);
    forall l | 0 <= l < m ensures PointAt(t, pts, r[l]) == At(pts, w[l]) {
      assert LinkedAt(t, r, l);
    }
    assert LinkedAt(t, r, k);
    forall l | 0 <= l < m
      ensures !GreaterThan(At(pts, w[l]), At(pts, w[k])) && !GreaterThan(At(pts, w[j]), At(pts, w[l]))
    {
      assert r[l] in c;
      var o :| 0 <= o < |c| && c[o] == r[l];
    }
    EndsOfChain(pts, w, Monotone(pts, w, true), k, j);
  }

  // ------------------------------------------------------------ marks

  /** Two pools that differ at most in their marks. */
  ghost predicate SameLinks(t: Table, u: Table) {
    |t| == |u| && forall x :: 0 <= x < |t| ==> u[x] == t[x].(marked := u[x].marked)
  }

  ghost predicate MarkedAs(t: Table, c: seq<int>, done: bool) {
    forall k :: 0 <= k < |c| ==> 0 <= c[k] < |t| && t[c[k]].marked == done
  }

  /** The pool once the first n positions of c are marked. */
  function MarkFirst(t: Table, c: seq<int>, n: nat): (u: Table)
    requires n <= |c| && forall k :: 0 <= k < |c| ==> 0 <= c[k] < |t|
    ensures |u| == |t|
  {
    if n == 0 then t else var u := MarkFirst(t, c, n - 1); u[c[n - 1] := u[c[n - 1]].(marked := true)]
  }

  lemma {:induction false} MarkFirstLinks(t: Table, c: seq<int>, n: nat)
    requires n <= |c| && forall k :: 0 <= k < |c| ==> 0 <= c[k] < |t|
    ensures SameLinks(t, MarkFirst(t, c, n))
    ensures forall x :: 0 <= x < |t| && x !in c ==> MarkFirst(t, c, n)[x] == t[x]
  {
    if n > 0 { MarkFirstLinks(t, c, n - 1); }
  }

  lemma {:induction false} MarkFirstMarks(t: Table, c: seq<int>, n: nat, k: nat, done: bool)
    requires n <= |c| && k < |c| && Distinct(c) && MarkedAs(t, c, done)
    ensures MarkFirst(t, c, n)[c[k]].marked == (done || k < n)
  {
    if n > 0 { MarkFirstMarks(t, c, n - 1, k, done); }
  }

  /** Marking all of c leaves exactly c marked in addition; on a marked ring nothing
      happens. */
  lemma MarkFirstRing(t: Table, c: seq<int>, n: nat, done: bool)
    requires n <= |c| && Distinct(c) && MarkedAs(t, c, done) && (n == |c| || done)
    ensures MarkedAs(MarkFirst(t, c, n), c, true)
  {
    forall k | 0 <= k < |c| ensures MarkFirst(t, c, n)[c[k]].marked { MarkFirstMarks(t, c, n, k, done); }
  }

  /** Only at the start does the walk see the first vertex again. */
  lemma FirstIsUnique(t: Table, c: seq<int>, k: nat)
    requires Distinct(Vertices(t, c)) && 0 < k && 0 < |c|
    requires forall l :: 0 <= l < |c| ==> 0 <= c[l] < |t|
    ensures k < |c| ==> t[c[k]].vnum != t[c[0]].vnum
  {
    if k < |c| { assert Vertices(t, c)[k] != Vertices(t, c)[0]; }
  }

  /** The walk's running maximum and minimum take in one more position. */
  lemma ExtremesStep(t: Table, pts: seq<Point>, c: seq<int>, n: nat, x: int, high: Point, low: Point)
    requires n < |c| && TopSoFar(t, pts, c, n, x, high) && LowSoFar(t, pts, c, n, low)
    ensures var q := PointAt(t, pts, c[n]);
            && (if GreaterThan(q, high) then TopSoFar(t, pts, c, n + 1, c[n], q)
                else TopSoFar(t, pts, c, n + 1, x, high))
            && LowSoFar(t, pts, c, n + 1, if GreaterThan(low, q) then q else low)
  {
    var q := PointAt(t, pts, c[n]);
    var k :| 0 <= k < n && c[k] == x;
    var l :| 0 <= l < n && PointAt(t, pts, c[l]) == low;
  }

  /** A ring is marked as a whole or not at all. */
  ghost predicate MarksAgree(t: Table, rs: seq<seq<int>>, done: seq<bool>) {
    |done| == |rs| && forall a :: 0 <= a < |rs| ==> MarkedAs(t, rs[a], done[a])
  }

  lemma SameLinksKeepRings(t: Table, u: Table, c: seq<int>)
    requires SameLinks(t, u)
    ensures IsRing(t, c) ==> IsRing(u, c)
    ensures Vertices(u, c) == Vertices(t, c)
  {
    if IsRing(t, c) {
      forall k | 0 <= k < |c| ensures LinkedAt(u, c, k) { assert LinkedAt(t, c, k); }
    }
  }

  // ------------------------------------------------------------ totals over cut rings

  ghost function DoneCount(rs: seq<seq<int>>, done: seq<bool>): int
    requires |done| == |rs|
  {
    if rs == [] then 0 else (if done[0] then |rs[0]| - 2 else 0) + DoneCount(rs[1..], done[1..])
  }

  ghost function DoneBoundary(W: (int, int) -> real, t: Table, rs: seq<seq<int>>, done: seq<bool>): real
    requires |done| == |rs|
  {
    if rs == [] then 0.0
    else (if done[0] then RingSum(W, Vertices(t, rs[0])) else 0.0) + DoneBoundary(W, t, rs[1..], done[1..])
  }

  lemma {:induction false} DoneCountAdds(rs: seq<seq<int>>, done: seq<bool>, a: nat)
    requires |done| == |rs| && a < |rs| && !done[a]
    ensures DoneCount(rs, done[a := true]) == DoneCount(rs, done) + |rs[a]| - 2
  {
    if a > 0 {
      DoneCountAdds(rs[1..], done[1..], a - 1);
      assert done[a := true][1..] == done[1..][a - 1 := true];
    } else {
      assert done[a := true][1..] == done[1..];
    }
  }

  lemma {:induction false} DoneBoundaryAdds(W: (int, int) -> real, t: Table, rs: seq<seq<int>>, done: seq<bool>, a: nat)
    requires |done| == |rs| && a < |rs| && !done[a]
    ensures DoneBoundary(W, t, rs, done[a := true]) == DoneBoundary(W, t, rs, done) + RingSum(W, Vertices(t, rs[a]))
  {
    if a > 0 {
      DoneBoundaryAdds(W, t, rs[1..], done[1..], a - 1);
      assert done[a := true][1..] == done[1..][a - 1 := true];
    } else {
      assert done[a := true][1..] == done[1..];
    }
  }

  lemma {:induction false} NoneDone(W: (int, int) -> real, t: Table, rs: seq<seq<int>>, done: seq<bool>)
    requires |done| == |rs| && forall a :: 0 <= a < |rs| ==> !done[a]
    ensures DoneCount(rs, done) == 0 && DoneBoundary(W, t, rs, done) == 0.0
  {
    if rs != [] { NoneDone(W, t, rs[1..], done[1..]); }
  }

  /** When every ring is cut, the totals are those of the whole pool. */
  lemma {:induction false} AllDone(W: (int, int) -> real, t: Table, rs: seq<seq<int>>, done: seq<bool>)
    requires |done| == |rs| && forall a :: 0 <= a < |rs| ==> done[a]
    ensures DoneCount(rs, done) == TotalLength(rs) - 2 * |rs|
    ensures DoneBoundary(W, t, rs, done) == Boundary(W, t, rs)
  {
    if rs != [] { AllDone(W, t, rs[1..], done[1..]); }
  }

  // ------------------------------------------------------------ one ring's triangles

  /** The triangles are m - 2 positive ones with the ring's boundary. */
  ghost predicate Triangulates(pts: seq<Point>, ts: seq<Triangle>, v: seq<int>) {
    && |ts| == |v| - 2
    && Positive(pts, ts)
    && forall W :: Antisymmetric(W) ==> TriangleSum(W, ts) == RingSum(W, v)
  }

  lemma TriangulatesRotated(t: Table, pts: seq<Point>, c: seq<int>, p: int, ts: seq<Triangle>)
    requires p in c && Triangulates(pts, ts, Vertices(t, RotateTo(c, p)))
    ensures Triangulates(pts, ts, Vertices(t, c))
  {
    forall W | Antisymmetric(W) ensures TriangleSum(W, ts) == RingSum(W, Vertices(t, c)) {
      RotateToKeepsSum(W, t, c, p);
    }
  }

  lemma CutTriangulates(pts: seq<Point>, w: seq<int>)
    requires Cuttable(pts, w)
    ensures Triangulates(pts, Cut(pts, w[..2], w[2..]), w)
  {
    StartsWorking(pts, w);
    assert w[..2] + w[2..] == w;
    CutCountsAndTurns(pts, w, w[..2], w[2..]);
    forall W | Antisymmetric(W) ensures TriangleSum(W, Cut(pts, w[..2], w[2..])) == RingSum(W, w) {
      CutKeepsBoundary(pts, w, w[..2], w[2..], W);
    }
  }

  /** What the cutter emits for a ring triangulates the ring. */
  lemma CutTriangulatesRing(t: Table, pts: seq<Point>, c: seq<int>, p: int)
    requires p in c && Cuttable(pts, Vertices(t, RotateTo(c, p)))
    ensures var w := Vertices(t, RotateTo(c, p)); Triangulates(pts, Cut(pts, w[..2], w[2..]), Vertices(t, c))
  {
    var w := Vertices(t, RotateTo(c, p));
    CutTriangulates(pts, w);
    TriangulatesRotated(t, pts, c, p, Cut(pts, w[..2], w[2..]));
  }

  lemma ThreeTriangulate(pts: seq<Point>, a: int, b: int, c: int)
    requires CrossAt(pts, a, b, c) > 0.0
    ensures Triangulates(pts, [Triangle(a, b, c)], [a, b, c])
  {
    assert [a, b] + [c] == [a, b, c];
    forall W | Antisymmetric(W) ensures TriangleSum(W, [Triangle(a, b, c)]) == RingSum(W, [a, b, c]) {
      OneTriangle(W, a, b, c);
    }
  }

  /** A three-vertex ring is emitted as it stands: position p, its successor, its
      predecessor. */
  lemma TriangleTriangulatesRing(t: Table, pts: seq<Point>, c: seq<int>, p: int)
    requires IsRing(t, c) && RingCuttable(t, pts, c) && |c| == 3 && p in c
    requires 0 <= p < |t| && 0 <= t[p].next < |t| && 0 <= t[p].prev < |t|
    ensures Triangulates(pts, [Triangle(t[p].vnum, t[t[p].next].vnum, t[t[p].prev].vnum)], Vertices(t, c))
  {
    var x, y, z := t[p].vnum, t[t[p].next].vnum, t[t[p].prev].vnum;
    ReadFrom(t, c, p);
    CuttableTurns(t, pts, c);
    ThreeCross(t, pts, c, p);
    ThreeTriangulate(pts, x, y, z);
    TriangulatesRotated(t, pts, c, p, [Triangle(x, y, z)]);
  }

  lemma OneSidedTurns(pts: seq<Point>, w: seq<int>)
    requires OneSided(pts, w) && |w| == 3
    ensures CrossAt(pts, w[0], w[1], w[2]) > 0.0
  {
    assert Outer(pts, w, w[1]);
  }

  lemma CuttableTurns(t: Table, pts: seq<Point>, c: seq<int>)
    requires RingCuttable(t, pts, c) && |c| == 3
    ensures CrossAt(pts, Vertices(t, c)[0], Vertices(t, c)[1], Vertices(t, c)[2]) > 0.0
  {
    var q :| q in c && Cuttable(pts, Vertices(t, RotateTo(c, q)));
    OneSidedTurns(pts, Vertices(t, RotateTo(c, q)));
    ThreeCross(t, pts, c, q);
  }

  lemma ThreeCross(t: Table, pts: seq<Point>, c: seq<int>, p: int)
    requires |c| == 3 && p in c
    ensures var u, v := Vertices(t, c), Vertices(t, RotateTo(c, p));
            CrossAt(pts, v[0], v[1], v[2]) == CrossAt(pts, u[0], u[1], u[2])
  {
    var u := Vertices(t, c);
    var i := Index(c, p);
    CrossRotates(At(pts, u[0]), At(pts, u[1]), At(pts, u[2]));
    assert Vertices(t, RotateTo(c, p)) == u[i..] + u[..i];
  }

  lemma ReadFrom(t: Table, c: seq<int>, p: int)
    requires IsRing(t, c) && |c| == 3 && p in c
    requires 0 <= p < |t| && 0 <= t[p].next < |t| && 0 <= t[p].prev < |t|
    ensures Vertices(t, RotateTo(c, p)) == [t[p].vnum, t[t[p].next].vnum, t[t[p].prev].vnum]
  {
    RotateToIsRing(t, c, p);
    var r := RotateTo(c, p);
    assert LinkedAt(t, r, 0);
    assert r == [p, t[p].next, t[p].prev];
  }

  // ------------------------------------------------------------ choosing how to cut

  lemma DistinctRotates(t: Table, c: seq<int>, x: int)
    requires x in c && Distinct(Vertices(t, c))
    ensures Distinct(Vertices(t, RotateTo(c, x)))
  {
    var r := RotateTo(c, x);
    forall i, j | 0 <= i < j < |r| ensures Vertices(t, r)[i] != Vertices(t, r)[j] {
      RotateToAt(c, x, i);
      RotateToAt(c, x, j);
      assert Vertices(t, c)[Origin(c, x, i)] != Vertices(t, c)[Origin(c, x, j)];
    }
  }

  /** All the positions of c are in the pool, their vertices below n. */
  ghost predicate PositionsOk(t: Table, c: seq<int>, n: int) {
    forall k :: 0 <= k < |c| ==> 0 < c[k] < |t| && 0 < t[c[k]].vnum < n
  }

  /** Nothing outside ring c changed. */
  ghost predicate ChangedWithin(t: Table, u: Table, c: seq<int>) {
    |t| == |u| && forall x :: 0 <= x < |t| && x !in c ==> u[x] == t[x]
  }

  lemma RotatedPositions(t: Table, c: seq<int>, x: int, n: int)
    requires x in c && PositionsOk(t, c, n)
    ensures PositionsOk(t, RotateTo(c, x), n)
  {
    var r := RotateTo(c, x);
    forall k | 0 <= k < |r| ensures 0 < r[k] < |t| && 0 < t[r[k]].vnum < n { RotateToAt(c, x, k); }
  }

  lemma RotatedMarks(t: Table, c: seq<int>, x: int, done: bool)
    requires x in c
    ensures MarkedAs(t, c, done) <==> MarkedAs(t, RotateTo(c, x), done)
  {
    var r := RotateTo(c, x);
    RotateToSame(c, x);
    if MarkedAs(t, c, done) {
      forall k | 0 <= k < |r| ensures 0 <= r[k] < |t| && t[r[k]].marked == done { RotateToAt(c, x, k); }
    }
    if MarkedAs(t, r, done) {
      forall k | 0 <= k < |c| ensures 0 <= c[k] < |t| && t[c[k]].marked == done {
        assert c[k] in r;
        var l :| 0 <= l < |r| && r[l] == c[k];
      }
    }
  }

  /** A ring the scan can walk: three or more distinct vertices, all or none marked. */
  ghost predicate Scannable(t: Table, c: seq<int>, n: int, done: bool) {
    IsRing(t, c) && 3 <= |c| <= n && Distinct(Vertices(t, c)) && MarkedAs(t, c, done) && PositionsOk(t, c, n)
  }

  lemma ReadyRotates(t: Table, pts: seq<Point>, c: seq<int>, n: int, done: bool, x: int)
    requires Scannable(t, c, n, done) && RingCuttable(t, pts, c) && x in c
    ensures Scannable(t, RotateTo(c, x), n, done) && RingCuttable(t, pts, RotateTo(c, x))
  {
    RotateToIsRing(t, c, x);
    CuttableRotates(t, pts, c, x);
    RotatedPositions(t, c, x, n);
    RotatedMarks(t, c, x, done);
  }

  lemma ChangedRotates(t: Table, u: Table, c: seq<int>, x: int)
    requires x in c && ChangedWithin(t, u, RotateTo(c, x)) && MarkedAs(u, RotateTo(c, x), true)
    ensures ChangedWithin(t, u, c) && MarkedAs(u, c, true)
  {
    RotateToSame(c, x);
    RotatedMarks(u, c, x, true);
  }

  /** The ring as the cutter will walk it, once top and side are known. */
  function WalkOf(t: Table, c: seq<int>, top: int, side: Side): seq<int>
    requires 0 <= top < |t| && StartOf(t, top, side) in c
  {
    RotateTo(c, StartOf(t, top, side))
  }

  lemma WalkReadsFrom(t: Table, c: seq<int>, top: int, side: Side)
    requires IsRing(t, c) && top in c && 0 <= top < |t| && StartOf(t, top, side) in c
    ensures ReadsFrom(WalkOf(t, c, top, side), top, side) && IsRing(t, WalkOf(t, c, top, side))
  {
    var s := StartOf(t, top, side);
    RotateToIsRing(t, c, s);
    var r := RotateTo(c, s);
    if side == LeftStraight {
      var k := Index(r, top);
      assert LinkedAt(t, r, k);
      assert Distinct(r) && r[After(k, |r|)] == r[0];
    }
  }

  /** Everything the cutter needs of the walk it is sent on. */
  ghost predicate Walkable(t: Table, pts: seq<Point>, r: seq<int>, top: int, side: Side, n: int) {
    && IsRing(t, r) && ReadsFrom(r, top, side) && |r| <= n && PositionsOk(t, r, n)
    && |r| >= 3 && Distinct(Vertices(t, r))
    && Arrives(pts, Vertices(t, r)[..2], Vertices(t, r)[2..])
  }

  /** Where the walk starts and ends, told from the top of the polygon. */
  lemma WalkStarts(t: Table, pts: seq<Point>, r: seq<int>, top: int, side: Side, n: int)
    requires Walkable(t, pts, r, top, side, n)
    ensures var m := |r|;
            && 0 < r[0] < |t| && 0 < r[1] < |t| && 0 < r[2] < |t| && 0 < r[m - 1] < |t|
            && t[r[0]].next == r[1] && t[r[1]].next == r[2] && t[r[0]].prev == r[m - 1] && t[r[m - 1]].next == r[0]
            && t[r[0]].vnum == Vertices(t, r)[0] && t[r[1]].vnum == Vertices(t, r)[1]
            && t[r[2]].vnum == Vertices(t, r)[2] && t[r[m - 1]].vnum == Vertices(t, r)[m - 1]
  {
    assert LinkedAt(t, r, 0) && LinkedAt(t, r, 1) && LinkedAt(t, r, 2) && LinkedAt(t, r, |r| - 1);
  }

  function SideOf(t: Table, pts: seq<Point>, top: int, low: Point): Side {
    if 0 <= top < |t| && PointAt(t, pts, t[top].next) == low then LeftStraight else RightStraight
  }

  /** The scan's top and lowest point send the cutter on a walk that triangulates c. */
  ghost predicate GoodCut(t: Table, pts: seq<Point>, c: seq<int>, n: int, top: int, low: Point) {
    && 0 < top < |t| && 0 < t[top].next < |t| && 0 < t[t[top].next].vnum < n
    && var side := SideOf(t, pts, top, low);
       && StartOf(t, top, side) in c
       && var r := WalkOf(t, c, top, side);
          && Walkable(t, pts, r, top, side, n)
          && Triangulates(pts, Cut(pts, Vertices(t, r)[..2], Vertices(t, r)[2..]), Vertices(t, c))
  }

  ghost predicate CutsWell(t: Table, pts: seq<Point>, c: seq<int>, n: int) {
    && (|c| == 3 ==> Triangulates(pts, [TriangleAt(t, c[0])], Vertices(t, c)))
    && (|c| > 3 ==> forall top, low :: IsTop(t, pts, c, top) && IsLowest(t, pts, c, low) ==>
                      GoodCut(t, pts, c, n, top, low))
  }

  /** The triangle at position p of a three-vertex ring: p, its successor, its predecessor. */
  function TriangleAt(t: Table, p: int): Triangle {
    if 0 <= p < |t| then Triangle(t[p].vnum, VnumOf(t, t[p].next), VnumOf(t, t[p].prev)) else Triangle(0, 0, 0)
  }

  function VnumOf(t: Table, x: int): int { if 0 <= x < |t| then t[x].vnum else 0 }

  /** Cuttable rings are cut well, whichever top and lowest point the scan reports. */
  lemma CuttableCutsWell(t: Table, pts: seq<Point>, c: seq<int>, n: int, done: bool)
    requires Scannable(t, c, n, done) && RingCuttable(t, pts, c)
    ensures CutsWell(t, pts, c, n)
  {
    if |c| == 3 {
      assert LinkedAt(t, c, 0) && LinkedAt(t, c, 1) && LinkedAt(t, c, 2);
      TriangleTriangulatesRing(t, pts, c, c[0]);
    } else {
      forall top, low | IsTop(t, pts, c, top) && IsLowest(t, pts, c, low)
        ensures GoodCut(t, pts, c, n, top, low)
      {
        ScanGivesWalk(t, pts, c, n, done, top, low);
      }
    }
  }

  lemma ScanGivesWalk(t: Table, pts: seq<Point>, c: seq<int>, n: int, done: bool, top: int, low: Point)
    requires Scannable(t, c, n, done) && RingCuttable(t, pts, c) && |c| > 3
    requires IsTop(t, pts, c, top) && IsLowest(t, pts, c, low)
    ensures GoodCut(t, pts, c, n, top, low)
  {
    TopDecidesSide(t, pts, c, top, low);
    var i, j := Index(c, top), Index(c, t[top].next);
    var side := SideOf(t, pts, top, low);
    WalkReadsFrom(t, c, top, side);
    DistinctRotates(t, c, StartOf(t, top, side));
    RotatedPositions(t, c, StartOf(t, top, side), n);
    CuttableArrives(pts, Vertices(t, WalkOf(t, c, top, side)));
    CutTriangulatesRing(t, pts, c, StartOf(t, top, side));
  }

  lemma CuttableArrives(pts: seq<Point>, w: seq<int>)
    requires Cuttable(pts, w)
    ensures |w| >= 3 && Arrives(pts, w[..2], w[2..])
  {
    StartsWorking(pts, w);
    WorkingArrives(pts, w, w[..2], w[2..]);
  }

  lemma WalkableSame(t: Table, u: Table, pts: seq<Point>, r: seq<int>, top: int, side: Side, n: int)
    requires SameLinks(t, u) && Walkable(t, pts, r, top, side, n)
    ensures Walkable(u, pts, r, top, side, n) && Vertices(u, r) == Vertices(t, r)
  {
    SameLinksKeepRings(t, u, r);
  }

  /** Reading a ring from elsewhere leaves it cuttable. */
  lemma CuttableRotates(t: Table, pts: seq<Point>, c: seq<int>, x: int)
    requires IsRing(t, c) && RingCuttable(t, pts, c) && x in c
    ensures RingCuttable(t, pts, RotateTo(c, x))
  {
    var r := RotateTo(c, x);
    DistinctRotates(t, c, x);
    RotateToSame(c, x);
    var p :| p in c && Cuttable(pts, Vertices(t, RotateTo(c, p)));
    assert p in r;
    RotateRotated(t, c, x, p);
  }

  function Turn(c: seq<int>, k: nat): seq<int>
    requires k <= |c|
  {
    c[k..] + c[..k]
  }

  lemma TurnTurn(c: seq<int>, a: nat, k: nat)
    requires a < |c| && k < |c|
    ensures Turn(Turn(c, a), k) == Turn(c, if a + k < |c| then a + k else a + k - |c|)
  {
    var b, n := if a + k < |c| then a + k else a + k - |c|, |c|;
    var l, r := Turn(Turn(c, a), k), Turn(c, b);
    forall i | 0 <= i < n ensures l[i] == r[i] {
      var j := if i + k < n then i + k else i + k - n;
      assert l[i] == Turn(c, a)[j];
    }
  }

  lemma RotateRotated(t: Table, c: seq<int>, x: int, p: int)
    requires Distinct(c) && x in c && p in c && p in RotateTo(c, x)
    ensures RotateTo(RotateTo(c, x), p) == RotateTo(c, p)
  {
    var k := Index(RotateTo(c, x), p);
    RotateToAt(c, x, k);
    var o, b := Origin(c, x, k), Index(c, p);
    assert c[o] == c[b];
    assert o == b;
    TurnTurn(c, Index(c, x), k);
  }

  /** The triangles of one more ring join those emitted. */
  lemma EmittedAdds(pts: seq<Point>, t: Table, rs: seq<seq<int>>, done: seq<bool>, a: nat,
                    ts: seq<Triangle>, us: seq<Triangle>)
    requires |done| == |rs| && a < |rs| && !done[a]
    requires Emitted(pts, t, rs, done, ts) && Triangulates(pts, us, Vertices(t, rs[a]))
    ensures Emitted(pts, t, rs, done[a := true], ts + us)
  {
    DoneCountAdds(rs, done, a);
    forall W | Antisymmetric(W)
      ensures TriangleSum(W, ts + us) == DoneBoundary(W, t, rs, done[a := true])
    {
      DoneBoundaryAdds(W, t, rs, done, a);
      TriangleSumJoin(W, ts, us);
    }
  }

  /** ts are the triangles of the rings that are done. */
  ghost predicate Emitted(pts: seq<Point>, t: Table, rs: seq<seq<int>>, done: seq<bool>, ts: seq<Triangle>)
    requires |done| == |rs|
  {
    && |ts| == DoneCount(rs, done)
    && Positive(pts, ts)
    && forall W :: Antisymmetric(W) ==> TriangleSum(W, ts) == DoneBoundary(W, t, rs, done)
  }

  lemma NothingEmitted(pts: seq<Point>, t: Table, rs: seq<seq<int>>, done: seq<bool>)
    requires |done| == |rs| && forall a :: 0 <= a < |rs| ==> !done[a]
    ensures Emitted(pts, t, rs, done, [])
  {
    NoneDone((x, y) => 0.0, t, rs, done);
    forall W | Antisymmetric(W) ensures TriangleSum(W, []) == DoneBoundary(W, t, rs, done) {
      NoneDone(W, t, rs, done);
    }
  }

  // ------------------------------------------------------------ the pass over all entries

  /** Every ring can be cut and fits the cutter's chain. */
  ghost predicate AllCuttable(t: Table, pts: seq<Point>, rs: seq<seq<int>>, n: int) {
    forall a :: 0 <= a < |rs| ==> RingCuttable(t, pts, rs[a]) && |rs[a]| <= n && PositionsOk(t, rs[a], n)
  }

  /** Ring c, whole again and read from entry x, is ready for its turn. */
  lemma PrepareRing(t: Table, u: Table, pts: seq<Point>, c: seq<int>, n: int, done: bool, x: int)
    requires SameLinks(t, u) && IsRing(t, c) && RingCuttable(t, pts, c) && x in c
    requires |c| <= n && PositionsOk(t, c, n) && MarkedAs(u, c, done)
    ensures Scannable(u, RotateTo(c, x), n, done) && CutsWell(u, pts, RotateTo(c, x), n)
    ensures Vertices(u, RotateTo(c, x)) == Vertices(t, RotateTo(c, x))
  {
    SameLinksKeepRings(t, u, c);
    SameLinksKeepRings(t, u, RotateTo(c, x));
    SameLinksCuttable(t, u, pts, c);
    ReadyRotates(u, pts, c, n, done, x);
    CuttableCutsWell(u, pts, RotateTo(c, x), n, done);
  }

  lemma SameLinksCuttable(t: Table, u: Table, pts: seq<Point>, c: seq<int>)
    requires SameLinks(t, u) && RingCuttable(t, pts, c)
    ensures RingCuttable(u, pts, c) && 3 <= |c|
  {
    var p :| p in c && Cuttable(pts, Vertices(t, RotateTo(c, p)));
    SameLinksKeepRings(t, u, c);
    SameLinksKeepRings(t, u, RotateTo(c, p));
    assert Cuttable(pts, Vertices(u, RotateTo(c, p)));
  }

  lemma MarksStep(t: Table, u: Table, rs: seq<seq<int>>, done: seq<bool>, a: nat, m: int)
    requires MarksAgree(t, rs, done) && a < |rs| && ChangedWithin(t, u, rs[a]) && MarkedAs(u, rs[a], true)
    requires forall b, d :: 0 <= b < |rs| && 0 <= d < |rs| && b != d ==> Apart(rs[b], rs[d])
    ensures MarksAgree(u, rs, done[a := true])
  {
    forall b | 0 <= b < |rs| ensures MarkedAs(u, rs[b], done[a := true][b]) {
      if b != a {
        assert MarkedAs(t, rs[b], done[b]) && Apart(rs[b], rs[a]);
        forall k | 0 <= k < |rs[b]| ensures 0 <= rs[b][k] < |u| && u[rs[b][k]].marked == done[b] {
          assert rs[b][k] !in rs[a];
        }
      }
    }
  }

  lemma RingsOfEntry(rs: seq<seq<int>>, a: nat, x: int)
    requires a < |rs| && x in rs[a]
    requires forall b, d :: 0 <= b < |rs| && 0 <= d < |rs| && b != d ==> Apart(rs[b], rs[d])
    ensures forall b :: 0 <= b < |rs| && x in rs[b] ==> b == a
  {
    forall b | 0 <= b < |rs| && b != a ensures x !in rs[b] {
      assert Apart(rs[a], rs[b]);
    }
  }

  /** Every ring some entry among the first i names is done. */
  ghost predicate EntriesDone(mon: seq<int>, i: int, rs: seq<seq<int>>, done: seq<bool>)
    requires 0 <= i <= |mon| && |done| == |rs|
  {
    forall k, a :: 0 <= k < i && 0 <= a < |rs| && mon[k] in rs[a] ==> done[a]
  }

  /** What the next entry's turn needs. */
  lemma BeforeTurn(t: Table, u: Table, pts: seq<Point>, rs: seq<seq<int>>, m: int, n: int, done: seq<bool>,
                   a: nat, x: int)
    requires Partition(t, rs, m) && AllCuttable(t, pts, rs, n) && a < |rs| && x in rs[a]
    requires SameLinks(t, u) && MarksAgree(u, rs, done)
    ensures Scannable(u, RotateTo(rs[a], x), n, done[a]) && CutsWell(u, pts, RotateTo(rs[a], x), n)
    ensures Vertices(u, RotateTo(rs[a], x)) == Vertices(t, RotateTo(rs[a], x))
  {
    assert IsRing(t, rs[a]) && MarkedAs(u, rs[a], done[a]);
    PrepareRing(t, u, pts, rs[a], n, done[a], x);
  }

  /** What it leaves behind: the entry's ring is done and its triangles are out. */
  lemma AfterTurn(t: Table, u: Table, u1: Table, pts: seq<Point>, rs: seq<seq<int>>, m: int, done: seq<bool>,
                  a: nat, mon: seq<int>, i: nat, old_op: seq<Triangle>, ts: seq<Triangle>)
    requires Partition(t, rs, m) && a < |rs| && i < |mon| && mon[i] in rs[a]
    requires MarksAgree(u, rs, done) && SameLinks(t, u) && SameLinks(u, u1)
    requires ChangedWithin(u, u1, RotateTo(rs[a], mon[i])) && MarkedAs(u1, RotateTo(rs[a], mon[i]), true)
    requires Emitted(pts, t, rs, done, old_op) && EntriesDone(mon, i, rs, done)
    requires if done[a] then ts == [] else Triangulates(pts, ts, Vertices(t, RotateTo(rs[a], mon[i])))
    ensures SameLinks(t, u1) && MarksAgree(u1, rs, done[a := true])
    ensures Emitted(pts, t, rs, done[a := true], old_op + ts) && EntriesDone(mon, i + 1, rs, done[a := true])
  {
    ChangedRotates(u, u1, rs[a], mon[i]);
    MarksStep(u, u1, rs, done, a, m);
    RingsOfEntry(rs, a, mon[i]);
    if done[a] {
      assert done[a := true] == done && old_op + ts == old_op;
    } else {
      TriangulatesRotated(t, pts, rs[a], mon[i], ts);
      EmittedAdds(pts, t, rs, done, a, old_op, ts);
    }
  }

  /** Once all entries are through, all rings are done, and the triangles add up. */
  lemma PassComplete(pts: seq<Point>, t: Table, rs: seq<seq<int>>, done: seq<bool>, mon: seq<int>, i: int,
                     m: int, ts: seq<Triangle>)
    requires Partition(t, rs, m) && |done| == |rs| && 0 <= i <= |mon| && EntriesDone(mon, i, rs, done)
    requires forall a :: 0 <= a < |rs| ==> exists k :: 0 <= k < i && mon[k] in rs[a]
    requires Emitted(pts, t, rs, done, ts)
    ensures |ts| == m - 2 * |rs| && Positive(pts, ts)
    ensures forall W :: Antisymmetric(W) ==> TriangleSum(W, ts) == Boundary(W, t, rs)
  {
    forall a | 0 <= a < |rs| ensures done[a] {
      var k :| 0 <= k < i && mon[k] in rs[a];
    }
    AllDone((x, y) => 0.0, t, rs, done);
    forall W | Antisymmetric(W) ensures TriangleSum(W, ts) == Boundary(W, t, rs) {
      AllDone(W, t, rs, done);
    }
  }
}
