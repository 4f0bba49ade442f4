/** What the trapezoidation does to its search structure: a sink is split in place, or the
    sink of a merged trapezoid is bypassed. Neither disturbs the structure or a search. */
module QuerySteps {
  import opened Plane
  import opened Trapezoids
  import opened QueryStructure

  // ------------------------------------------------------------ splitting a sink

  function SinkFor(nd: Node, t: int, parent: int): Node {
    nd.(kind := Sink, trnum := t, parent := parent)
  }

  /** Trapezoid t is split in two: it keeps one part, the other gets the next free row;
      its sink becomes an inner node over the two parts' new sinks. */
  ghost predicate Expanded(Q: Query, R: Query, t: int) {
    && 0 < t < Q.trIdx < |Q.tr| && Q.tr[t].state == Valid && LiveSink(Q, Q.tr[t].sink)
    && 0 < Q.qIdx && Q.qIdx + 2 <= |Q.qs|
    && |R.qs| == |Q.qs| && |R.tr| == |Q.tr| && R.qIdx == Q.qIdx + 2 && R.trIdx == Q.trIdx + 1
    && SplitAt(Q, R, t, Q.tr[t].sink)
    && (forall x :: 0 < x < Q.qIdx && x != Q.tr[t].sink ==> R.qs[x] == Q.qs[x])
    && (forall k :: 0 < k < Q.trIdx && k != t ==> R.tr[k].state == Q.tr[k].state && R.tr[k].sink == Q.tr[k].sink)
  }

  predicate SplitAt(Q: Query, R: Query, t: int, sk: int)
    requires 0 < t < Q.trIdx < |Q.tr| == |R.tr| && 0 < sk < Q.qIdx && Q.qIdx + 2 <= |Q.qs| == |R.qs|
  {
    var i, u := Q.qIdx, Q.trIdx;
    && Internal(R, sk) && R.qs[sk].parent == Q.qs[sk].parent
    && (if R.qs[sk].kind == XNode then R.qs[sk].left == i && R.qs[sk].right == i + 1
        else R.qs[sk].left == i + 1 && R.qs[sk].right == i)
    && R.qs[i].kind == Sink && R.qs[i].trnum == t && R.qs[i].parent == sk
    && R.qs[i + 1].kind == Sink && R.qs[i + 1].trnum == u && R.qs[i + 1].parent == sk
    && R.tr[t].state == Valid && R.tr[t].sink == i
    && R.tr[u].state == Valid && R.tr[u].sink == i + 1
  }

  function Tick(H: History, sk: int): History
    requires 0 <= sk < |H.born|
  {
    History(H.born[sk := H.clock], H.clock + 1)
  }

  lemma ExpandKeepsNode(Q: Query, R: Query, H: History, root: int, t: int, x: int)
    requires WellFormed(Q, H, root) && Expanded(Q, R, t)
    requires 0 < x < R.qIdx && Internal(R, x)
    ensures NodeOk(R, Tick(H, Q.tr[t].sink), x)
    ensures x != root ==> ParentOk(R, Tick(H, Q.tr[t].sink), x)
  {
    var sk := Q.tr[t].sink;
    assert TrapOk(Q, H, t) && NodeOk(Q, H, Q.qs[sk].parent);
    if x != sk {
      assert x < Q.qIdx && NodeOk(Q, H, x);
      if x != root { assert ParentOk(Q, H, x); }
    }
  }

  lemma ExpandKeepsTrap(Q: Query, R: Query, H: History, root: int, t: int, k: int)
    requires WellFormed(Q, H, root) && Expanded(Q, R, t)
    requires 0 < k < R.trIdx && R.tr[k].state == Valid
    ensures TrapOk(R, Tick(H, Q.tr[t].sink), k)
  {
    assert TrapOk(Q, H, t);
    if k != t && k != Q.trIdx { assert TrapOk(Q, H, k); }
  }

  lemma ExpandKeepsStructure(Q: Query, R: Query, H: History, root: int, t: int)
    requires WellFormed(Q, H, root) && Expanded(Q, R, t)
    ensures WellFormed(R, Tick(H, Q.tr[t].sink), root)
  {
    forall x | 0 < x < R.qIdx && Internal(R, x)
      ensures NodeOk(R, Tick(H, Q.tr[t].sink), x)
      ensures x != root ==> ParentOk(R, Tick(H, Q.tr[t].sink), x)
    {
      ExpandKeepsNode(Q, R, H, root, t, x);
    }
    forall k | 0 < k < R.trIdx && R.tr[k].state == Valid ensures TrapOk(R, Tick(H, Q.tr[t].sink), k) {
      ExpandKeepsTrap(Q, R, H, root, t, k);
    }
  }

  lemma {:induction false} ExpandKeepsPassing(Q: Query, R: Query, H: History, root: int, t: int, ends: seq<Ends>,
                                              since: int, x: int, r: int, v: Point, vo: Point)
    requires WellFormed(Q, H, root) && Expanded(Q, R, t) && WellFormed(R, Tick(H, Q.tr[t].sink), root)
    requires InUse(Q, x) && since <= H.clock && Passes(Q, H, root, ends, since, x, r, v, vo)
    ensures InUse(R, x) && Passes(R, Tick(H, Q.tr[t].sink), root, ends, since, x, r, v, vo)
    decreases Height(Q, H, x)
  {
    if x != r {
      assert NodeOk(R, Tick(H, Q.tr[t].sink), x);
      ExpandKeepsPassing(Q, R, H, root, t, ends, since, Next(Q, ends, x, v, vo), r, v, vo);
    }
  }

  /** A split refines every search: only those that ended in t are now told apart. */
  lemma {:induction false} ExpandRefinesSearch(Q: Query, R: Query, H: History, root: int, t: int, ends: seq<Ends>,
                                               x: int, v: Point, vo: Point)
    requires WellFormed(Q, H, root) && Expanded(Q, R, t) && WellFormed(R, Tick(H, Q.tr[t].sink), root)
    requires InUse(Q, x)
    ensures InUse(R, x)
    ensures Locate(R, Tick(H, Q.tr[t].sink), root, ends, x, v, vo)
         == PartFor(Q, R, ends, t, Locate(Q, H, root, ends, x, v, vo), v, vo)
    decreases Height(Q, H, x)
  {
    var H' := Tick(H, Q.tr[t].sink);
    if Internal(Q, x) {
      assert NodeOk(Q, H, x);
      ExpandRefinesSearch(Q, R, H, root, t, ends, Next(Q, ends, x, v, vo), v, vo);
    } else if Internal(R, x) {
      assert NodeOk(R, H', x);
      assert Locate(R, H', root, ends, Next(R, ends, x, v, vo), v, vo)
          == R.qs[Next(R, ends, x, v, vo)].trnum;
    } else {
      assert TrapOk(Q, H, t);
    }
  }

  /** Where a search that ended in trapezoid k ends once t is split: to the right of an
      x node, or below a y node, lies the new part. */
  function PartFor(Q: Query, R: Query, ends: seq<Ends>, t: int, k: int, v: Point, vo: Point): int
    requires 0 < t < |Q.tr| && 0 <= Q.tr[t].sink < |R.qs|
  {
    var nd := R.qs[Q.tr[t].sink];
    if k == t && GoesRight(ends, nd, v, vo) == (nd.kind == XNode) then Q.trIdx else k
  }

  // ------------------------------------------------------------ merging two trapezoids

  /** Nothing but the node's parent leads to it, and that on one side only. */
  ghost predicate SingleParent(Q: Query, s: int) {
    && 0 < s < Q.qIdx <= |Q.qs| && 0 < Q.qs[s].parent < Q.qIdx
    && Q.qs[Q.qs[s].parent].left != Q.qs[Q.qs[s].parent].right
    && forall x :: 0 < x < Q.qIdx && Leads(Q, x, s) ==> x == Q.qs[s].parent
  }

  function Bypassed(nd: Node, from: int, to: int): Node {
    if nd.left == from then nd.(left := to) else nd.(right := to)
  }

  /** Trapezoid n is merged into t: the node that led to n's sink now leads to t's. */
  ghost predicate Merged(Q: Query, R: Query, t: int, n: int) {
    && 0 < t < Q.trIdx <= |Q.tr| && 0 < n < Q.trIdx && t != n
    && Q.tr[t].state == Valid && Q.tr[n].state == Valid
    && LiveSink(Q, Q.tr[t].sink) && LiveSink(Q, Q.tr[n].sink) && SingleParent(Q, Q.tr[n].sink)
    && |R.qs| == |Q.qs| && |R.tr| == |Q.tr| && R.qIdx == Q.qIdx && R.trIdx == Q.trIdx
    && R.tr[n].state == Invalid
    && (forall k :: 0 < k < Q.trIdx ==> R.tr[k].sink == Q.tr[k].sink && (k != n ==> R.tr[k].state == Q.tr[k].state))
    && var p := Q.qs[Q.tr[n].sink].parent;
       R.qs == Q.qs[p := Bypassed(Q.qs[p], Q.tr[n].sink, Q.tr[t].sink)]
  }

  lemma MergeKeepsNode(Q: Query, R: Query, H: History, root: int, t: int, n: int, x: int)
    requires WellFormed(Q, H, root) && Merged(Q, R, t, n)
    requires 0 < x < R.qIdx && Internal(R, x)
    ensures NodeOk(R, H, x)
    ensures x != root ==> ParentOk(R, H, x)
  {
    assert TrapOk(Q, H, n) && TrapOk(Q, H, t) && NodeOk(Q, H, x);
    assert Leads(Q, x, Q.tr[n].sink) ==> x == Q.qs[Q.tr[n].sink].parent;
    if x != root { assert ParentOk(Q, H, x); }
  }

  lemma MergeKeepsTrap(Q: Query, R: Query, H: History, root: int, t: int, n: int, k: int)
    requires WellFormed(Q, H, root) && Merged(Q, R, t, n)
    requires 0 < k < R.trIdx && R.tr[k].state == Valid
    ensures TrapOk(R, H, k)
  {
    assert TrapOk(Q, H, n) && TrapOk(Q, H, t) && TrapOk(Q, H, k);
  }

  lemma MergeKeepsStructure(Q: Query, R: Query, H: History, root: int, t: int, n: int)
    requires WellFormed(Q, H, root) && Merged(Q, R, t, n)
    ensures WellFormed(R, H, root)
  {
    forall x | 0 < x < R.qIdx && Internal(R, x)
      ensures NodeOk(R, H, x) && (x != root ==> ParentOk(R, H, x))
    {
      MergeKeepsNode(Q, R, H, root, t, n, x);
    }
    forall k | 0 < k < R.trIdx && R.tr[k].state == Valid ensures TrapOk(R, H, k) {
      MergeKeepsTrap(Q, R, H, root, t, n, k);
    }
  }

  /** A search that comes past r over old nodes does so still: only a node of this
      insertion was redirected. */
  lemma {:induction false} MergeKeepsPassing(Q: Query, R: Query, H: History, root: int, t: int, n: int,
                                             ends: seq<Ends>, since: int, x: int, r: int, v: Point, vo: Point)
    requires WellFormed(Q, H, root) && Merged(Q, R, t, n) && WellFormed(R, H, root)
    requires since <= H.born[Q.qs[Q.tr[n].sink].parent]
    requires InUse(Q, x) && x != Q.tr[n].sink && Passes(Q, H, root, ends, since, x, r, v, vo)
    ensures InUse(R, x) && Passes(R, H, root, ends, since, x, r, v, vo)
    decreases Height(Q, H, x)
  {
    assert TrapOk(Q, H, n);
    if LiveSink(Q, x) { assert Q.qs[x].trnum != n; }
    if x != r {
      assert NodeOk(R, H, x) && NodeOk(Q, H, x);
      var y := Next(Q, ends, x, v, vo);
      assert Leads(Q, x, y);
      MergeKeepsPassing(Q, R, H, root, t, n, ends, since, y, r, v, vo);
    }
  }

  /** A merge only redirects the searches that ended in the trapezoid merged away. */
  lemma {:induction false} MergeRedirectsSearch(Q: Query, R: Query, H: History, root: int, t: int, n: int,
                                                ends: seq<Ends>, x: int, v: Point, vo: Point)
    requires WellFormed(Q, H, root) && Merged(Q, R, t, n) && WellFormed(R, H, root)
    requires InUse(Q, x) && x != Q.tr[n].sink
    ensures InUse(R, x)
    ensures Locate(R, H, root, ends, x, v, vo)
         == if Locate(Q, H, root, ends, x, v, vo) == n then t else Locate(Q, H, root, ends, x, v, vo)
    decreases Height(Q, H, x)
  {
    assert TrapOk(Q, H, n) && TrapOk(Q, H, t);
    if Internal(Q, x) {
      assert NodeOk(R, H, x) && NodeOk(Q, H, x);
      var y := Next(Q, ends, x, v, vo);
      if y == Q.tr[n].sink {
        assert Leads(Q, x, y);
        assert Next(R, ends, x, v, vo) == Q.tr[t].sink;
      } else {
        MergeRedirectsSearch(Q, R, H, root, t, n, ends, y, v, vo);
      }
    } else {
      assert Q.qs[x].trnum != n;
    }
  }
}
