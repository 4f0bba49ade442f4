/** The greedy corner cutter: what it emits for a one-sided monotone polygon, and why
    that is a triangulation. The chain is given as vertex numbers w[0], ..., w[m-1],
    where the closing edge w[m-1] -> w[0] is the polygon's single straight side. */
module GreedyCut {
  import opened Plane

  predicate Steps(pts: seq<Point>, a: int, b: int, down: bool) {
    if down then GreaterThan(At(pts, a), At(pts, b)) else GreaterThan(At(pts, b), At(pts, a))
  }

  predicate StepsAt(pts: seq<Point>, w: seq<int>, k: nat, down: bool)
    requires k + 1 < |w|
  {
    Steps(pts, w[k], w[k + 1], down)
  }

  /** Consecutive vertices all descend, or all ascend. */
  ghost predicate Monotone(pts: seq<Point>, w: seq<int>, down: bool) {
    forall k: nat :: k + 1 < |w| ==> StepsAt(pts, w, k, down)
  }

  /** v lies strictly on the outer side of the chain's closing edge. */
  predicate Outer(pts: seq<Point>, w: seq<int>, v: int)
    requires w != []
  {
    CrossAt(pts, w[0], v, w[|w| - 1]) > 0.0
  }

  /** Every inner vertex is strictly on the outer side of the closing edge. */
  ghost predicate OneSided(pts: seq<Point>, w: seq<int>) {
    |w| >= 3 && forall k :: 0 < k < |w| - 1 ==> Outer(pts, w, w[k])
  }

  predicate ReflexAt(pts: seq<Point>, st: seq<int>, k: nat)
    requires k + 2 < |st|
  {
    CrossAt(pts, st[k], st[k + 1], st[k + 2]) <= 0.0
  }

  /** No corner of the reflex chain is convex. */
  ghost predicate Reflex(pts: seq<Point>, st: seq<int>) {
    forall k: nat :: k + 2 < |st| ==> ReflexAt(pts, st, k)
  }

  /** The last corner of the chain turns left towards the next vertex. */
  predicate LastConvex(pts: seq<Point>, st: seq<int>, rest: seq<int>) {
    |rest| >= 1 && |st| >= 2 && CrossAt(pts, rest[0], st[|st| - 2], st[|st| - 1]) > 0.0
  }

  /** What one run of the cutter emits, from reflex chain st and vertices still ahead. */
  function Cut(pts: seq<Point>, st: seq<int>, rest: seq<int>): seq<Triangle>
    decreases 2 * |rest| + |st|
  {
    if |st| < 1 || |rest| == 0 then []
    else if |rest| == 1 && |st| == 2 then [Triangle(st[0], st[1], rest[0])]
    else if LastConvex(pts, st, rest) then
      [Triangle(st[|st| - 2], st[|st| - 1], rest[0])] + Cut(pts, st[..|st| - 1], rest)
    else Cut(pts, st + [rest[0]], rest[1..])
  }

  /** The run reaches endv, the last of rest, with two vertices on the chain: whenever it
      has to walk on there is a vertex before endv to walk to. */
  predicate Arrives(pts: seq<Point>, st: seq<int>, rest: seq<int>)
    decreases 2 * |rest| + |st|
  {
    if |st| < 1 || |rest| == 0 then false
    else if |rest| == 1 && |st| <= 2 then |st| == 2
    else if LastConvex(pts, st, rest) then Arrives(pts, st[..|st| - 1], rest)
    else |rest| > 1 && Arrives(pts, st + [rest[0]], rest[1..])
  }

  /** A state the cutter can be in while it works on the polygon w: reflex chain st,
      vertices rest still ahead, every chain vertex but the first on the outer side. */
  ghost predicate Working(pts: seq<Point>, w: seq<int>, st: seq<int>, rest: seq<int>) {
    && OneSided(pts, w)
    && 1 <= |st| && 1 <= |rest| <= |w| - 2
    && (|rest| == 1 ==> 2 <= |st|)
    && st[0] == w[0] && rest == w[|w| - |rest|..]
    && Reflex(pts, st)
    && (forall k :: 1 <= k < |st| ==> Outer(pts, w, st[k]))
    && (Monotone(pts, st + rest, true) || Monotone(pts, st + rest, false))
  }

  // ------------------------------------------------------------ never past endv

  /** Displacement along a monotone chain keeps its direction. */
  lemma {:induction false} MonotoneSpan(pts: seq<Point>, w: seq<int>, down: bool, i: nat, j: nat)
    requires Monotone(pts, w, down) && i < j < |w|
    ensures Steps(pts, w[i], w[j], down)
    decreases j - i
  {
    assert StepsAt(pts, w, j - 1, down);
    if i + 1 < j { MonotoneSpan(pts, w, down, i, j - 1); }
  }

  ghost function Step(pts: seq<Point>, w: seq<int>, down: bool, k: nat): Point
    requires k + 1 < |w|
  {
    if down then Minus(At(pts, w[k + 1]), At(pts, w[k])) else Minus(At(pts, w[k]), At(pts, w[k + 1]))
  }

  /** On a chain without convex corners every later step turns right of the first. */
  lemma {:induction false} StepsTurnRight(pts: seq<Point>, w: seq<int>, down: bool, k: nat)
    requires Monotone(pts, w, down) && Reflex(pts, w) && k + 1 < |w|
    ensures Det(Step(pts, w, down, 0), Step(pts, w, down, k)) <= 0.0
    ensures Descends(Step(pts, w, down, k))
  {
    assert StepsAt(pts, w, k, down) && StepsAt(pts, w, 0, down);
    if k > 0 {
      StepsTurnRight(pts, w, down, k - 1);
      assert ReflexAt(pts, w, k - 1);
      CrossIsDet(At(pts, w[k - 1]), At(pts, w[k]), At(pts, w[k + 1]));
      RightTurnsCompose(Step(pts, w, down, 0), Step(pts, w, down, k - 1), Step(pts, w, down, k));
    }
  }

  /** Such a chain bulges the wrong way: all of it lies right of its first edge. */
  lemma {:induction false} ReflexChainBulgesInward(pts: seq<Point>, w: seq<int>, down: bool, k: nat)
    requires Monotone(pts, w, down) && Reflex(pts, w) && 2 <= k < |w|
    ensures CrossAt(pts, w[0], w[1], w[k]) <= 0.0
  {
    var a, b, c, d := At(pts, w[0]), At(pts, w[1]), At(pts, w[k - 1]), At(pts, w[k]);
    StepsTurnRight(pts, w, down, k - 1);
    CrossStep(a, b, c, d);
    if k > 2 { ReflexChainBulgesInward(pts, w, down, k - 1); }
  }

  lemma CrossStep(a: Point, b: Point, c: Point, d: Point)
    ensures Cross(a, b, d) == Cross(a, b, c) + Det(Minus(b, a), Minus(d, c))
    ensures Det(Minus(b, a), Minus(d, c)) == Det(Minus(a, b), Minus(c, d))
    ensures c == b ==> Cross(a, b, c) == 0.0
  {
  }

  /** When only endv is ahead and two or more corners are left, the last one is convex:
      the cutter never steps past endv. */
  lemma LastCornerIsConvex(pts: seq<Point>, w: seq<int>, st: seq<int>, rest: seq<int>)
    requires Working(pts, w, st, rest) && |rest| == 1 && |st| > 2
    ensures CrossAt(pts, rest[0], st[|st| - 2], st[|st| - 1]) > 0.0
  {
    var chain := st + rest;
    var n := |st|;
    assert chain[n] == rest[0] == w[|w| - 1] && chain[1] == st[1] && chain[0] == w[0];
    assert Outer(pts, w, st[1]);
    CrossRotates(At(pts, rest[0]), At(pts, st[n - 2]), At(pts, st[n - 1]));
    if CrossAt(pts, rest[0], st[n - 2], st[n - 1]) <= 0.0 {
      ReflexExtends(pts, st, rest[0]);
      assert st + [rest[0]] == chain;
      ReflexChainBulgesInward(pts, chain, Monotone(pts, chain, true), n);
    }
  }

  lemma ReflexExtends(pts: seq<Point>, st: seq<int>, v: int)
    requires Reflex(pts, st)
    requires |st| >= 2 ==> CrossAt(pts, v, st[|st| - 2], st[|st| - 1]) <= 0.0
    ensures Reflex(pts, st + [v])
  {
    var s := st + [v];
    forall k: nat | k + 2 < |s| ensures ReflexAt(pts, s, k) {
      if k + 2 < |st| {
        assert ReflexAt(pts, st, k);
      } else {
        CrossRotates(At(pts, v), At(pts, st[k]), At(pts, st[k + 1]));
      }
    }
  }

  // ------------------------------------------------------------ each step keeps working

  lemma CutKeepsWorking(pts: seq<Point>, w: seq<int>, st: seq<int>, rest: seq<int>)
    requires Working(pts, w, st, rest) && |st| >= 2 && (|rest| > 1 || |st| > 2)
    requires CrossAt(pts, rest[0], st[|st| - 2], st[|st| - 1]) > 0.0
    ensures Working(pts, w, st[..|st| - 1], rest)
  {
    var s := st[..|st| - 1];
    forall k: nat | k + 2 < |s| ensures ReflexAt(pts, s, k) {
      assert ReflexAt(pts, st, k);
    }
    var down := Monotone(pts, st + rest, true);
    var c, d := st + rest, s + rest;
    forall k: nat | k + 1 < |d| ensures StepsAt(pts, d, k, down) {
      if k + 1 < |s| {
        assert StepsAt(pts, c, k, down);
      } else if k + 1 == |s| {
        MonotoneSpan(pts, c, down, k, k + 2);
      } else {
        assert StepsAt(pts, c, k + 1, down);
      }
    }
  }

  lemma PushKeepsWorking(pts: seq<Point>, w: seq<int>, st: seq<int>, rest: seq<int>)
    requires Working(pts, w, st, rest) && |rest| > 1
    requires |st| >= 2 ==> CrossAt(pts, rest[0], st[|st| - 2], st[|st| - 1]) <= 0.0
    ensures Working(pts, w, st + [rest[0]], rest[1..])
  {
    var s := st + [rest[0]];
    ReflexExtends(pts, st, rest[0]);
    assert s + rest[1..] == st + rest;
    var i := |w| - |rest|;
    assert rest[0] == w[i] && 0 < i < |w| - 1;
    assert rest[1..] == w[i + 1..];
    forall k | 1 <= k < |s| ensures Outer(pts, w, s[k]) {
      if k == |st| { assert Outer(pts, w, w[i]); }
    }
  }

  /** On a one-sided monotone polygon the run arrives: endv is never stepped over. */
  lemma {:induction false} WorkingArrives(pts: seq<Point>, w: seq<int>, st: seq<int>, rest: seq<int>)
    requires Working(pts, w, st, rest)
    ensures Arrives(pts, st, rest)
    decreases 2 * |rest| + |st|
  {
    if |rest| > 1 || |st| > 2 {
      if |rest| == 1 { LastCornerIsConvex(pts, w, st, rest); }
      if LastConvex(pts, st, rest) {
        CutKeepsWorking(pts, w, st, rest);
        WorkingArrives(pts, w, st[..|st| - 1], rest);
      } else {
        PushKeepsWorking(pts, w, st, rest);
        WorkingArrives(pts, w, st + [rest[0]], rest[1..]);
      }
    }
  }

  lemma StartsWorking(pts: seq<Point>, w: seq<int>)
    requires OneSided(pts, w)
    requires Monotone(pts, w, true) || Monotone(pts, w, false)
    ensures Working(pts, w, w[..2], w[2..])
  {
    assert w[..2] + w[2..] == w;
    assert Outer(pts, w, w[1]);
  }

  // ------------------------------------------------------------ what is emitted

  ghost predicate Positive(pts: seq<Point>, ts: seq<Triangle>) {
    forall t <- ts :: CrossAt(pts, t.a, t.b, t.c) > 0.0
  }

  /** An edge weight that changes sign with the edge's direction. */
  ghost predicate Antisymmetric(W: (int, int) -> real) {
    forall a, b :: W(a, b) == -W(b, a)
  }

  ghost function TriangleSum(W: (int, int) -> real, ts: seq<Triangle>): real {
    if ts == [] then 0.0
    else W(ts[0].a, ts[0].b) + W(ts[0].b, ts[0].c) + W(ts[0].c, ts[0].a) + TriangleSum(W, ts[1..])
  }

  /** Weight of the open path through w. */
  ghost function PathSum(W: (int, int) -> real, w: seq<int>): real {
    if |w| < 2 then 0.0 else W(w[0], w[1]) + PathSum(W, w[1..])
  }

  /** Weight of the closed ring through w. */
  ghost function RingSum(W: (int, int) -> real, w: seq<int>): real {
    if w == [] then 0.0 else PathSum(W, w) + W(w[|w| - 1], w[0])
  }

  lemma {:induction false} PathSumJoin(W: (int, int) -> real, a: seq<int>, b: seq<int>)
    requires a != [] && b != []
    ensures PathSum(W, a + b) == PathSum(W, a) + W(a[|a| - 1], b[0]) + PathSum(W, b)
  {
    assert (a + b)[1..] == a[1..] + b;
    if |a| > 1 { PathSumJoin(W, a[1..], b); }
  }

  lemma {:induction false} TriangleSumJoin(W: (int, int) -> real, s: seq<Triangle>, t: seq<Triangle>)
    ensures TriangleSum(W, s + t) == TriangleSum(W, s) + TriangleSum(W, t)
  {
    if s == [] {
      assert s + t == t;
    } else {
      assert (s + t)[1..] == s[1..] + t;
      TriangleSumJoin(W, s[1..], t);
    }
  }

  /** Cutting off the corner b of ... a, b, v ... takes exactly the triangle's weight. */
  lemma CornerWeight(W: (int, int) -> real, st: seq<int>, rest: seq<int>, ts: seq<Triangle>)
    requires Antisymmetric(W) && |st| >= 2 && |rest| >= 1
    requires TriangleSum(W, ts) == RingSum(W, st[..|st| - 1] + rest)
    ensures TriangleSum(W, [Triangle(st[|st| - 2], st[|st| - 1], rest[0])] + ts) == RingSum(W, st + rest)
  {
    var n := |st|;
    var a, b, v := st[n - 2], st[n - 1], rest[0];
    assert st + rest == st[..n - 1] + ([b] + rest);
    PathSumJoin(W, st[..n - 1], [b] + rest);
    PathSumJoin(W, [b], rest);
    PathSumJoin(W, st[..n - 1], rest);
    assert W(v, a) == -W(a, v);
    assert ([Triangle(a, b, v)] + ts)[1..] == ts;
  }

  /** m - 2 triangles, each positively oriented. */
  lemma {:induction false} CutCountsAndTurns(pts: seq<Point>, w: seq<int>, st: seq<int>, rest: seq<int>)
    requires Working(pts, w, st, rest)
    ensures |Cut(pts, st, rest)| == |st| + |rest| - 2
    ensures Positive(pts, Cut(pts, st, rest))
    decreases 2 * |rest| + |st|
  {
    if |rest| == 1 && |st| == 2 {
      assert Outer(pts, w, st[1]);
    } else if LastConvex(pts, st, rest) {
      CutKeepsWorking(pts, w, st, rest);
      CutCountsAndTurns(pts, w, st[..|st| - 1], rest);
      CrossRotates(At(pts, rest[0]), At(pts, st[|st| - 2]), At(pts, st[|st| - 1]));
    } else {
      if |rest| == 1 {
        LastCornerIsConvex(pts, w, st, rest);
        assert false;
      }
      PushKeepsWorking(pts, w, st, rest);
      CutCountsAndTurns(pts, w, st + [rest[0]], rest[1..]);
    }
  }

  lemma OneTriangle(W: (int, int) -> real, a: int, b: int, c: int)
    ensures TriangleSum(W, [Triangle(a, b, c)]) == RingSum(W, [a, b] + [c])
  {
    var t := Triangle(a, b, c);
    assert [t][1..] == [];
    assert [a, b] + [c] == [a] + ([b] + [c]);
    PathSumJoin(W, [a], [b] + [c]);
    PathSumJoin(W, [b], [c]);
  }

  /** The triangles' boundaries add up, edge for edge, to the polygon's boundary. */
  lemma {:induction false} CutKeepsBoundary(pts: seq<Point>, w: seq<int>, st: seq<int>, rest: seq<int>,
                                            W: (int, int) -> real)
    requires Working(pts, w, st, rest) && Antisymmetric(W)
    ensures TriangleSum(W, Cut(pts, st, rest)) == RingSum(W, st + rest)
    decreases 2 * |rest| + |st|
  {
    if |rest| == 1 && |st| == 2 {
      assert st == [st[0], st[1]] && rest == [rest[0]];
      OneTriangle(W, st[0], st[1], rest[0]);
    } else if LastConvex(pts, st, rest) {
      CutKeepsWorking(pts, w, st, rest);
      CutKeepsBoundary(pts, w, st[..|st| - 1], rest, W);
      CornerWeight(W, st, rest, Cut(pts, st[..|st| - 1], rest));
    } else {
      if |rest| == 1 {
        LastCornerIsConvex(pts, w, st, rest);
        assert false;
      }
      PushKeepsWorking(pts, w, st, rest);
      CutKeepsBoundary(pts, w, st + [rest[0]], rest[1..], W);
      assert st + [rest[0]] + rest[1..] == st + rest;
    }
  }
}
