/** The widget tree and the animation stack: deleting a widget deletes all below it, takes
    them off the stack, and leaves every other widget and its focus alone. */
module Widgets {
  import opened Sequences

  datatype Widget = Widget(
    alive: bool,
    parent: int,         // or -1
    pobj: seq<int>,      // the children
    focus: int)          // index of the focussed child, or -1

  type Pool = seq<Widget>

  predicate Live(W: Pool, x: int) { 0 <= x < |W| && W[x].alive }

  /** x's children are live, know x as their parent, rank higher and are not being deleted. */
  ghost predicate KidsOk(W: Pool, rank: seq<nat>, open: set<int>, x: int)
    requires Live(W, x) && |rank| == |W|
  {
    var w := W[x];
    && Distinct(w.pobj) && -1 <= w.focus < |w.pobj|
    && forall i :: 0 <= i < |w.pobj| ==> KidAt(W, rank, open, x, w.pobj[i])
  }

  predicate KidAt(W: Pool, rank: seq<nat>, open: set<int>, x: int, k: int)
    requires 0 <= x < |W| == |rank|
  {
    Live(W, k) && W[k].parent == x && rank[x] < rank[k] && k !in open
  }

  /** y's parent is live and has y among its children, unless y is being deleted. */
  predicate ParentOk(W: Pool, rank: seq<nat>, open: set<int>, y: int)
    requires Live(W, y) && |rank| == |W|
  {
    var p := W[y].parent;
    p != -1 ==> Live(W, p) && rank[p] < rank[y] && (y !in open ==> y in W[p].pobj)
  }

  /** A forest of live widgets, apart from the links of those being deleted. */
  ghost predicate Tree(W: Pool, rank: seq<nat>, open: set<int>) {
    && |rank| == |W|
    && (forall x {:trigger KidsOk(W, rank, open, x)} :: Live(W, x) ==> KidsOk(W, rank, open, x))
    && (forall y {:trigger ParentOk(W, rank, open, y)} :: Live(W, y) ==> ParentOk(W, rank, open, y))
  }

  /** Is w reached from y along the parents? */
  ghost predicate Under(parents: seq<int>, rank: seq<nat>, y: int, w: int)
    requires |parents| == |rank|
    decreases if 0 <= y < |rank| then rank[y] + 1 else 0
  {
    0 <= y < |rank| &&
    (y == w || (0 <= parents[y] < |rank| && rank[parents[y]] < rank[y] && Under(parents, rank, parents[y], w)))
  }

  function Parents(W: Pool): (p: seq<int>)
    ensures |p| == |W|
  {
    seq(|W|, x requires 0 <= x < |W| => W[x].parent)
  }

  // ------------------------------------------------------------ taking a child out

  /** The last child takes the place of child i. */
  function SwapRemoved(c: seq<int>, i: nat): seq<int>
    requires i < |c|
  {
    c[i := c[|c| - 1]][..|c| - 1]
  }

  function FocusAfter(focus: int, i: int, n: int): int {
    if focus == i then -1 else if focus == n - 1 then i else focus
  }

  lemma SwapRemovedIs(c: seq<int>, i: nat)
    requires i < |c| && Distinct(c)
    ensures Distinct(SwapRemoved(c, i))
    ensures forall x :: x in SwapRemoved(c, i) <==> x in c && x != c[i]
  {
    var d, n := SwapRemoved(c, i), |c|;
    forall x | x in c && x != c[i] ensures x in d {
      var j :| 0 <= j < n && c[j] == x;
      assert d[if j == n - 1 then i else j] == x;
    }
  }

  /** The focus stays on the widget it was on, and is lost with it. */
  lemma FocusStays(c: seq<int>, i: nat, focus: int)
    requires i < |c| && Distinct(c) && -1 <= focus < |c|
    ensures var g := FocusAfter(focus, i, |c|); var d := SwapRemoved(c, i);
            && -1 <= g < |d| && (g == -1 <==> focus == -1 || focus == i)
            && (g != -1 ==> d[g] == c[focus])
  {
  }

  /** The parent of w without w. */
  function WithoutKid(W: Pool, p: int, w: int): Pool
    requires 0 <= p < |W| && w in W[p].pobj
  {
    var c := W[p].pobj;
    W[p := W[p].(pobj := SwapRemoved(c, Index(c, w)), focus := FocusAfter(W[p].focus, Index(c, w), |c|))]
  }

  /** While w is being deleted its parent has let go of it already. */
  lemma RemoveKeepsTree(W: Pool, rank: seq<nat>, open: set<int>, w: int)
    requires Tree(W, rank, open) && Live(W, w) && w !in open
    ensures W[w].parent == -1 ==> Tree(W, rank, open + {w})
    ensures W[w].parent != -1 ==>
              Live(W, W[w].parent) && w in W[W[w].parent].pobj
              && Tree(WithoutKid(W, W[w].parent, w), rank, open + {w})
              && Parents(WithoutKid(W, W[w].parent, w)) == Parents(W)
  {
    assert ParentOk(W, rank, open, w);
    var p := W[w].parent;
    var V := if p == -1 then W else WithoutKid(W, p, w);
    if p != -1 {
      assert KidsOk(W, rank, open, p);
      SwapRemovedIs(W[p].pobj, Index(W[p].pobj, w));
      FocusStays(W[p].pobj, Index(W[p].pobj, w), W[p].focus);
    }
    forall x | Live(V, x) ensures KidsOk(V, rank, open + {w}, x) {
      assert KidsOk(W, rank, open, x);
      forall i | 0 <= i < |V[x].pobj| ensures KidAt(V, rank, open + {w}, x, V[x].pobj[i]) {
        assert V[x].pobj[i] in V[x].pobj;
        var j :| 0 <= j < |W[x].pobj| && W[x].pobj[j] == V[x].pobj[i];
        assert KidAt(W, rank, open, x, W[x].pobj[j]);
      }
    }
    forall y | Live(V, y) ensures ParentOk(V, rank, open + {w}, y) { assert ParentOk(W, rank, open, y); }
  }

  // ------------------------------------------------------------ the widget itself goes

  /** Those being deleted already are above w. */
  ghost predicate Above(rank: seq<nat>, open: set<int>, w: int) {
    0 <= w < |rank| && forall o :: o in open ==> 0 <= o < |rank| && rank[o] < rank[w]
  }

  function Dead(W: Pool, w: int): Pool
    requires 0 <= w < |W|
  {
    W[w := W[w].(alive := false)]
  }

  lemma DeathKeepsTree(W: Pool, rank: seq<nat>, open: set<int>, w: int)
    requires Tree(W, rank, open + {w}) && Live(W, w) && w !in open && W[w].pobj == [] && Above(rank, open, w)
    ensures Tree(Dead(W, w), rank, open) && Parents(Dead(W, w)) == Parents(W)
  {
    var V := Dead(W, w);
    forall x | Live(V, x) ensures KidsOk(V, rank, open, x) {
      assert KidsOk(W, rank, open + {w}, x);
      forall i | 0 <= i < |V[x].pobj| ensures KidAt(V, rank, open, x, V[x].pobj[i]) {
        assert KidAt(W, rank, open + {w}, x, W[x].pobj[i]);
      }
    }
    forall y | Live(V, y) ensures ParentOk(V, rank, open, y) {
      assert ParentOk(W, rank, open + {w}, y);
    }
  }

  // ------------------------------------------------------------ who is under whom

  lemma {:induction false} UnderRanks(parents: seq<int>, rank: seq<nat>, y: int, w: int)
    requires |parents| == |rank| && Under(parents, rank, y, w)
    ensures 0 <= w < |rank| && rank[w] <= rank[y] && (y != w ==> rank[w] < rank[y])
    decreases if 0 <= y < |rank| then rank[y] + 1 else 0
  {
    if y != w { UnderRanks(parents, rank, parents[y], w); }
  }

  lemma {:induction false} UnderTransitive(parents: seq<int>, rank: seq<nat>, y: int, k: int, w: int)
    requires |parents| == |rank| && Under(parents, rank, y, k) && Under(parents, rank, k, w)
    ensures Under(parents, rank, y, w)
    decreases if 0 <= y < |rank| then rank[y] + 1 else 0
  {
    if y != k { UnderTransitive(parents, rank, parents[y], k, w); }
  }

  /** Once w has no children, no live widget is left under it. */
  lemma {:induction false} NobodyLeft(W: Pool, rank: seq<nat>, open: set<int>, w: int, y: int)
    requires Tree(W, rank, open) && Live(W, w) && W[w].pobj == [] && Above(rank, open - {w}, w)
    requires Live(W, y) && Under(Parents(W), rank, y, w)
    ensures y == w
    decreases rank[y]
  {
    if y != w {
      var p := W[y].parent;
      assert ParentOk(W, rank, open, y);
      NobodyLeft(W, rank, open, w, p);
      UnderRanks(Parents(W), rank, y, w);
      assert false;
    }
  }

  /** What one deletion leaves of the others: those under w are gone, the parent of w has
      let go of it, and nothing else has changed. */
  ghost predicate DeletedAt(W: Pool, V: Pool, rank: seq<nat>, w: int, y: int)
    requires |W| == |V| == |rank| && 0 <= y < |W| && 0 <= w < |W|
  {
    && V[y].parent == W[y].parent
    && (V[y].alive <==> W[y].alive && !Under(Parents(W), rank, y, w))
    && (V[y].alive ==>
          if y == W[w].parent && w in W[y].pobj then V[y] == WithoutKid(W, y, w)[y] else V[y] == W[y])
  }

  ghost predicate Deleted(W: Pool, V: Pool, rank: seq<nat>, w: int) {
    |W| == |V| == |rank| && 0 <= w < |W| && forall y :: 0 <= y < |W| ==> DeletedAt(W, V, rank, w, y)
  }

  /** While the children of w are being deleted: w itself is as it was but for them, and
      whoever is gone was under w. */
  ghost predicate KidsGoing(W: Pool, V: Pool, rank: seq<nat>, w: int) {
    && |W| == |V| == |rank| && Live(W, w) && Live(V, w) && Parents(V) == Parents(W)
    && forall y :: 0 <= y < |W| && y != w ==>
         (V[y].alive ==> V[y] == W[y]) && (W[y].alive && !V[y].alive ==> Under(Parents(W), rank, y, w))
  }

  lemma KidGoes(W: Pool, V: Pool, U: Pool, rank: seq<nat>, open: set<int>, w: int, k: int)
    requires KidsGoing(W, V, rank, w) && Tree(V, rank, open) && k in V[w].pobj && Deleted(V, U, rank, k)
    ensures KidsGoing(W, U, rank, w)
    ensures U[w].pobj == SwapRemoved(V[w].pobj, Index(V[w].pobj, k)) && |U[w].pobj| < |V[w].pobj|
    ensures forall x :: Live(U, x) ==> Live(V, x)
  {
    assert KidsOk(V, rank, open, w);
    assert KidAt(V, rank, open, w, V[w].pobj[Index(V[w].pobj, k)]);
    var ps := Parents(W);
    forall y | 0 <= y < |W| ensures Parents(U)[y] == ps[y] {
      assert DeletedAt(V, U, rank, k, y) && Parents(V)[y] == ps[y];
    }
    assert Parents(U) == ps;
    if Under(ps, rank, w, k) { UnderRanks(ps, rank, w, k); assert false; }
    assert DeletedAt(V, U, rank, k, w);
    assert Under(ps, rank, k, w);
    forall x | Live(U, x) ensures Live(V, x) { assert DeletedAt(V, U, rank, k, x); }
    forall y | 0 <= y < |W| && y != w
      ensures (U[y].alive ==> U[y] == W[y]) && (W[y].alive && !U[y].alive ==> Under(ps, rank, y, w))
    {
      assert DeletedAt(V, U, rank, k, y);
      if Under(ps, rank, y, k) { UnderTransitive(ps, rank, y, k, w); }
    }
  }

  /** When all children are gone and w too, exactly those under w are gone. */
  lemma AllGone(W0: Pool, W: Pool, V: Pool, rank: seq<nat>, open: set<int>, w: int)
    requires Tree(W0, rank, open) && Live(W0, w) && w !in open && Above(rank, open, w)
    requires W == if W0[w].parent == -1 then W0 else (RemoveKeepsTree(W0, rank, open, w); WithoutKid(W0, W0[w].parent, w))
    requires KidsGoing(W, V, rank, w) && Tree(V, rank, open + {w}) && V[w].pobj == []
    ensures Deleted(W0, Dead(V, w), rank, w)
  {
    RemoveKeepsTree(W0, rank, open, w);
    assert ParentOk(W0, rank, open, w);
    var ps := Parents(W0);
    assert Parents(W) == ps;
    forall y | 0 <= y < |W0| ensures DeletedAt(W0, Dead(V, w), rank, w, y) {
      assert Parents(V)[y] == ps[y];
      if Live(V, y) && Under(ps, rank, y, w) { NobodyLeft(V, rank, open + {w}, w, y); }
    }
  }
}
