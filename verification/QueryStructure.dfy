/** The point location structure of the trapezoidation: a binary decision graph whose
    sinks are the trapezoids. Merging trapezoids makes it a graph rather than a tree. */
module QueryStructure {
  import opened Plane
  import opened Trapezoids
  import opened Tolerance

  datatype NodeKind = Free | XNode | YNode | Sink

  datatype Node = Node(kind: NodeKind, segnum: int, yval: Point, trnum: int, parent: int, left: int, right: int)

  /** The two tables with their fill levels; row 0 of either is never used. */
  datatype Query = Query(qs: seq<Node>, tr: seq<Trap>, qIdx: int, trIdx: int)

  /** When each node was split, on a clock that ticks with every split. */
  datatype History = History(born: seq<int>, clock: int)

  /** The end points of every segment, which the searches compare with. */
  datatype Ends = Ends(v0: Point, v1: Point)

  function EndsAt(ends: seq<Ends>, k: int): Ends {
    if 0 <= k < |ends| then ends[k] else Ends(ORIGIN, ORIGIN)
  }

  predicate Internal(Q: Query, x: int)
    requires 0 <= x < |Q.qs|
  {
    Q.qs[x].kind == XNode || Q.qs[x].kind == YNode
  }

  /** A sink that is still some valid trapezoid's. */
  predicate LiveSink(Q: Query, s: int) {
    && 0 < s < Q.qIdx <= |Q.qs| && Q.qs[s].kind == Sink
    && 0 < Q.qs[s].trnum < Q.trIdx <= |Q.tr|
    && Q.tr[Q.qs[s].trnum].state == Valid && Q.tr[Q.qs[s].trnum].sink == s
  }

  predicate ChildOk(Q: Query, H: History, x: int, c: int)
    requires 0 <= x < |Q.qs| == |H.born|
  {
    && 0 < c < Q.qIdx <= |Q.qs|
    && if Internal(Q, c) then H.born[x] < H.born[c] else LiveSink(Q, c)
  }

  /** Both ways on from an inner node lead to a later inner node or to a live sink. */
  predicate NodeOk(Q: Query, H: History, x: int)
    requires 0 <= x < |Q.qs| == |H.born|
  {
    0 <= H.born[x] < H.clock && ChildOk(Q, H, x, Q.qs[x].left) && ChildOk(Q, H, x, Q.qs[x].right)
  }

  predicate Leads(Q: Query, x: int, c: int)
    requires 0 <= x < |Q.qs|
  {
    Internal(Q, x) && (Q.qs[x].left == c || Q.qs[x].right == c)
  }

  /** The node's parent link names an earlier inner node that leads to it. */
  predicate ParentOk(Q: Query, H: History, x: int)
    requires 0 <= x < |Q.qs| == |H.born|
  {
    && 0 < Q.qs[x].parent < Q.qIdx <= |Q.qs|
    && Leads(Q, Q.qs[x].parent, x)
    && (Internal(Q, x) ==> H.born[Q.qs[x].parent] < H.born[x])
  }

  predicate TrapOk(Q: Query, H: History, t: int)
    requires 0 <= t < |Q.tr| && |Q.qs| == |H.born|
  {
    LiveSink(Q, Q.tr[t].sink) && Q.qs[Q.tr[t].sink].trnum == t && ParentOk(Q, H, Q.tr[t].sink)
  }

  ghost predicate WellFormed(Q: Query, H: History, root: int) {
    && |Q.qs| == |H.born| && 0 < root < Q.qIdx <= |Q.qs| && 0 < Q.trIdx <= |Q.tr|
    && Internal(Q, root)
    && (forall x {:trigger NodeOk(Q, H, x)} :: 0 < x < Q.qIdx && Internal(Q, x) ==> NodeOk(Q, H, x))
    && (forall x {:trigger ParentOk(Q, H, x)} ::
          0 < x < Q.qIdx && Internal(Q, x) && x != root ==> ParentOk(Q, H, x))
    && (forall t {:trigger TrapOk(Q, H, t)} :: 0 < t < Q.trIdx && Q.tr[t].state == Valid ==> TrapOk(Q, H, t))
  }

  // ------------------------------------------------------------ the search

  /** The branch a search for v takes; vo, the other end of its segment, breaks ties. */
  predicate GoesRight(ends: seq<Ends>, nd: Node, v: Point, vo: Point) {
    if nd.kind == YNode then
      if Above(v, nd.yval) then true
      else if SamePoint(v, nd.yval) then Above(vo, nd.yval)
      else false
    else
      var s := EndsAt(ends, nd.segnum);
      if SamePoint(v, s.v0) || SamePoint(v, s.v1) then
        if Near(v.y, vo.y) then !(vo.x < v.x) else !IsLeftOf(s.v0, s.v1, vo)
      else !IsLeftOf(s.v0, s.v1, v)
  }

  function Next(Q: Query, ends: seq<Ends>, x: int, v: Point, vo: Point): int
    requires 0 <= x < |Q.qs|
  {
    if GoesRight(ends, Q.qs[x], v, vo) then Q.qs[x].right else Q.qs[x].left
  }

  /** Still in use: an inner node, or the sink of a valid trapezoid. */
  predicate InUse(Q: Query, x: int) {
    0 < x < Q.qIdx <= |Q.qs| && (Internal(Q, x) || LiveSink(Q, x))
  }

  ghost function Height(Q: Query, H: History, x: int): nat
    requires 0 <= x < |Q.qs| == |H.born|
  {
    if Internal(Q, x) && H.born[x] < H.clock then H.clock - H.born[x] else 0
  }

  /** Point location: down from node x by the answers of the inner nodes. The search ends,
      and at a trapezoid that is still valid. */
  function Locate(Q: Query, ghost H: History, ghost root: int, ends: seq<Ends>, x: int, v: Point, vo: Point): (t: int)
    requires WellFormed(Q, H, root) && InUse(Q, x)
    ensures 0 < t < Q.trIdx && Q.tr[t].state == Valid
    decreases Height(Q, H, x)
  {
    if Internal(Q, x) then
      assert NodeOk(Q, H, x);
      Locate(Q, H, root, ends, Next(Q, ends, x, v, vo), v, vo)
    else Q.qs[x].trnum
  }

  /** The search from x for v comes past r, over nodes split before `since` only. */
  ghost predicate Passes(Q: Query, H: History, root: int, ends: seq<Ends>, since: int, x: int, r: int,
                         v: Point, vo: Point)
    requires WellFormed(Q, H, root) && InUse(Q, x)
    decreases Height(Q, H, x)
  {
    x == r || (Internal(Q, x) && H.born[x] < since && NodeOk(Q, H, x)
               && Passes(Q, H, root, ends, since, Next(Q, ends, x, v, vo), r, v, vo))
  }

  /** Searching from a node on the way ends where searching from the start does. */
  lemma {:induction false} PassingIsEnough(Q: Query, H: History, root: int, ends: seq<Ends>, since: int, x: int,
                                           r: int, v: Point, vo: Point)
    requires WellFormed(Q, H, root) && InUse(Q, x) && Passes(Q, H, root, ends, since, x, r, v, vo)
    ensures InUse(Q, r) && Locate(Q, H, root, ends, r, v, vo) == Locate(Q, H, root, ends, x, v, vo)
    decreases Height(Q, H, x)
  {
    if x != r { PassingIsEnough(Q, H, root, ends, since, Next(Q, ends, x, v, vo), r, v, vo); }
  }

  /** Between insertions, the sink a search ends at can serve as a new start for it. */
  lemma {:induction false} FoundSinkIsPassed(Q: Query, H: History, root: int, ends: seq<Ends>, x: int,
                                             v: Point, vo: Point)
    requires WellFormed(Q, H, root) && InUse(Q, x)
    ensures Passes(Q, H, root, ends, H.clock, x, Q.tr[Locate(Q, H, root, ends, x, v, vo)].sink, v, vo)
    decreases Height(Q, H, x)
  {
    if Internal(Q, x) {
      assert NodeOk(Q, H, x);
      FoundSinkIsPassed(Q, H, root, ends, Next(Q, ends, x, v, vo), v, vo);
    }
  }

  // ------------------------------------------------------------ sinks and trapezoids

  ghost predicate IsPath(Q: Query, p: seq<int>) {
    && p != [] && (forall i :: 0 <= i < |p| ==> 0 < p[i] < Q.qIdx <= |Q.qs|)
    && (forall i :: 0 <= i < |p| - 1 ==> LinkOn(Q, p, i))
  }

  predicate LinkOn(Q: Query, p: seq<int>, i: nat)
    requires i + 1 < |p| && 0 <= p[i] < |Q.qs|
  {
    Leads(Q, p[i], p[i + 1])
  }

  lemma PathTail(Q: Query, p: seq<int>)
    requires IsPath(Q, p) && |p| > 1
    ensures IsPath(Q, p[1..]) && Leads(Q, p[0], p[1])
  {
    assert LinkOn(Q, p, 0);
    forall i | 0 <= i < |p| - 2 ensures LinkOn(Q, p[1..], i) { assert LinkOn(Q, p, i + 1); }
  }

  ghost predicate Reaches(Q: Query, x: int, y: int) {
    exists p :: IsPath(Q, p) && p[0] == x && p[|p| - 1] == y
  }

  /** What a path runs into is in use. */
  lemma {:induction false} PathsStayInUse(Q: Query, H: History, root: int, p: seq<int>)
    requires WellFormed(Q, H, root) && IsPath(Q, p) && InUse(Q, p[0])
    ensures InUse(Q, p[|p| - 1])
  {
    if |p| > 1 {
      PathTail(Q, p);
      assert NodeOk(Q, H, p[0]);
      PathsStayInUse(Q, H, root, p[1..]);
    }
  }

  /** Parent links lead back to the root. */
  lemma {:induction false} PathFromRoot(Q: Query, H: History, root: int, x: int) returns (p: seq<int>)
    requires WellFormed(Q, H, root) && 0 < x < Q.qIdx && Internal(Q, x)
    ensures IsPath(Q, p) && p[0] == root && p[|p| - 1] == x
    decreases H.born[x]
  {
    if x == root {
      p := [x];
    } else {
      assert ParentOk(Q, H, x) && NodeOk(Q, H, Q.qs[x].parent);
      var q := PathFromRoot(Q, H, root, Q.qs[x].parent);
      PathExtends(Q, q, x);
      p := q + [x];
    }
  }

  lemma PathExtends(Q: Query, q: seq<int>, x: int)
    requires IsPath(Q, q) && 0 < x < Q.qIdx && Leads(Q, q[|q| - 1], x)
    ensures IsPath(Q, q + [x])
  {
    forall i | 0 <= i < |q| ensures LinkOn(Q, q + [x], i) {
      if i + 1 < |q| { assert LinkOn(Q, q, i); }
    }
  }

  /** The sinks that can be reached are in bijection with the valid trapezoids. */
  lemma SinksAreTrapezoids(Q: Query, H: History, root: int)
    requires WellFormed(Q, H, root)
    ensures forall t :: 0 < t < Q.trIdx && Q.tr[t].state == Valid ==>
              Reaches(Q, root, Q.tr[t].sink) && Q.qs[Q.tr[t].sink].kind == Sink && Q.qs[Q.tr[t].sink].trnum == t
    ensures forall s :: 0 < s < Q.qIdx && Q.qs[s].kind == Sink && Reaches(Q, root, s) ==>
              0 < Q.qs[s].trnum < Q.trIdx && Q.tr[Q.qs[s].trnum].state == Valid && Q.tr[Q.qs[s].trnum].sink == s
  {
    forall t | 0 < t < Q.trIdx && Q.tr[t].state == Valid
      ensures Reaches(Q, root, Q.tr[t].sink) && LiveSink(Q, Q.tr[t].sink) && Q.qs[Q.tr[t].sink].trnum == t
    {
      var s := Q.tr[t].sink;
      assert TrapOk(Q, H, t);
      var q := PathFromRoot(Q, H, root, Q.qs[s].parent);
      PathExtends(Q, q, s);
      var p := q + [s];
      assert p[|p| - 1] == s;
    }
    forall s | 0 < s < Q.qIdx && Q.qs[s].kind == Sink && Reaches(Q, root, s) ensures LiveSink(Q, s) {
      var p :| IsPath(Q, p) && p[0] == root && p[|p| - 1] == s;
      PathsStayInUse(Q, H, root, p);
    }
  }

  /** No path comes back to where it was: inner nodes lead to later ones. */
  lemma {:induction false} PathsNeverReturn(Q: Query, H: History, root: int, p: seq<int>)
    requires WellFormed(Q, H, root) && IsPath(Q, p) && |p| > 1
    ensures p[0] != p[|p| - 1]
    ensures Internal(Q, p[|p| - 1]) ==> H.born[p[0]] < H.born[p[|p| - 1]]
  {
    PathTail(Q, p);
    assert NodeOk(Q, H, p[0]);
    if |p| > 2 {
      PathTail(Q, p[1..]);
      PathsNeverReturn(Q, H, root, p[1..]);
    }
  }
}
