/** An application's objects on the server: slots that are reused, links that form a
    forest, and per object the transformation its link path calls for. */
module Scene {
  import opened Kinds
  import opened Options
  import opened Sequences

  datatype Vec = Vec(x: real, y: real, z: real)

  datatype Axis = AxisX | AxisY | AxisZ

  /** The calls that multiply the current matrix; a matrix is the word of calls that made it. */
  datatype GlOp = Translatef(offset: Vec) | Rotatef(angle: real, axis: Axis) | Scalef(factor: real)

  type Matrix = seq<GlOp>

  datatype Obj = Obj(
    kind: Kind,
    link: bool,            // OF_LINK
    linkSrc: bool,         // OF_LINK_SRC
    linkid: int,           // the object this one is linked to
    lsub: int,             // first object linked to this one
    lnext: int, lprev: int, // siblings in the chain of the common parent
    translate: Vec, rotate: Vec, scale: real,
    m: Matrix,             // cached matrix
    uptodate: bool)

  type Objects = seq<Option<Obj>>

  predicate Live(O: Objects, x: int) { 0 <= x < |O| && O[x].Some? }

  predicate IsSystem(k: Kind) { Has(k, OF_SYSTEM) }

  /** What an object itself contributes, in the order the calls are made. */
  function Local(o: Obj): Matrix {
    [Translatef(o.translate), Rotatef(o.rotate.y, AxisY), Rotatef(o.rotate.x, AxisX),
     Rotatef(o.rotate.z, AxisZ), Scalef(o.scale)]
  }

  // ------------------------------------------------------------ link paths

  /** Links lead to live objects of lower rank: there are no cycles. */
  ghost predicate Ranked(O: Objects, rank: seq<nat>) {
    |rank| == |O| && forall y {:trigger RankedAt(O, rank, y)} :: Live(O, y) ==> RankedAt(O, rank, y)
  }

  predicate RankedAt(O: Objects, rank: seq<nat>, y: int)
    requires Live(O, y) && |rank| == |O|
  {
    O[y].value.link ==> Live(O, O[y].value.linkid) && rank[O[y].value.linkid] < rank[y]
  }

  /** The object and those above it, upwards. */
  ghost function Up(O: Objects, rank: seq<nat>, y: int): (p: seq<int>)
    requires Ranked(O, rank) && Live(O, y)
    ensures |p| > 0 && p[0] == y
    decreases rank[y]
  {
    assert RankedAt(O, rank, y);
    if O[y].value.link then [y] + Up(O, rank, O[y].value.linkid) else [y]
  }

  /** The composition of local transformations along the full link path. */
  ghost function PathMatrix(O: Objects, rank: seq<nat>, y: int): Matrix
    requires Ranked(O, rank) && Live(O, y)
    decreases rank[y]
  {
    assert RankedAt(O, rank, y);
    (if O[y].value.link then PathMatrix(O, rank, O[y].value.linkid) else []) + Local(O[y].value)
  }

  const ORIGIN := Vec(0.0, 0.0, 0.0)

  /** Neither linked nor moved since it was created, with the matrix it was given then. */
  predicate AsCreated(o: Obj) {
    !o.link && o.translate == ORIGIN && o.rotate == ORIGIN && o.scale == 1.0 && o.m == []
  }

  /** Every object is up to date, with the composition along its path, or as created. */
  ghost predicate CachesOk(O: Objects, rank: seq<nat>)
    requires Ranked(O, rank)
  {
    forall y {:trigger CacheOk(O, rank, y)} :: Live(O, y) ==> CacheOk(O, rank, y)
  }

  ghost predicate CacheOk(O: Objects, rank: seq<nat>, y: int)
    requires Ranked(O, rank) && Live(O, y)
  {
    if O[y].value.uptodate then O[y].value.m == PathMatrix(O, rank, y) else AsCreated(O[y].value)
  }

  // ------------------------------------------------------------ what a matrix means

  /** What a word of calls makes of the identity, calls read as elements of any monoid. */
  function Meaning<M>(w: Matrix, call: GlOp -> M, mul: (M, M) -> M, one: M): M {
    if w == [] then one else mul(Meaning(w[..|w| - 1], call, mul, one), call(w[|w| - 1]))
  }

  /** One is neutral, and what the calls mean that do not move anything. */
  ghost predicate Neutral<M(!new)>(call: GlOp -> M, mul: (M, M) -> M, one: M) {
    && (forall x :: mul(x, one) == x) && call(Translatef(ORIGIN)) == one && call(Scalef(1.0)) == one
    && forall axis :: call(Rotatef(0.0, axis)) == one
  }

  lemma MeaningStep<M>(w: Matrix, op: GlOp, call: GlOp -> M, mul: (M, M) -> M, one: M)
    ensures Meaning(w + [op], call, mul, one) == mul(Meaning(w, call, mul, one), call(op))
  {
    assert (w + [op])[..|w|] == w;
  }

  /** The product of the five calls an object's own transformation is made of. */
  lemma LocalMeaning<M(!new)>(o: Obj, call: GlOp -> M, mul: (M, M) -> M, one: M)
    ensures Meaning(Local(o), call, mul, one)
         == mul(mul(mul(mul(mul(one, call(Translatef(o.translate))), call(Rotatef(o.rotate.y, AxisY))),
                        call(Rotatef(o.rotate.x, AxisX))), call(Rotatef(o.rotate.z, AxisZ))), call(Scalef(o.scale)))
  {
    var w1 := [Translatef(o.translate)];
    var w2 := w1 + [Rotatef(o.rotate.y, AxisY)];
    var w3 := w2 + [Rotatef(o.rotate.x, AxisX)];
    var w4 := w3 + [Rotatef(o.rotate.z, AxisZ)];
    assert w1 == [] + [Translatef(o.translate)] && Local(o) == w4 + [Scalef(o.scale)];
    MeaningStep([], Translatef(o.translate), call, mul, one);
    MeaningStep(w1, Rotatef(o.rotate.y, AxisY), call, mul, one);
    MeaningStep(w2, Rotatef(o.rotate.x, AxisX), call, mul, one);
    MeaningStep(w3, Rotatef(o.rotate.z, AxisZ), call, mul, one);
    MeaningStep(w4, Scalef(o.scale), call, mul, one);
  }

  /** An object that is only moved, only turned about one axis, or only scaled means just
      that: each angle turns about its own axis. */
  lemma LocalAlone<M(!new)>(o: Obj, call: GlOp -> M, mul: (M, M) -> M, one: M)
    requires Neutral(call, mul, one) && forall x :: mul(one, x) == x
    ensures var w, t, r := Meaning(Local(o), call, mul, one), o.translate == ORIGIN, o.scale == 1.0;
            && (o.rotate == ORIGIN && r ==> w == call(Translatef(o.translate)))
            && (t && r && o.rotate.y == o.rotate.z == 0.0 ==> w == call(Rotatef(o.rotate.x, AxisX)))
            && (t && r && o.rotate.x == o.rotate.z == 0.0 ==> w == call(Rotatef(o.rotate.y, AxisY)))
            && (t && r && o.rotate.x == o.rotate.y == 0.0 ==> w == call(Rotatef(o.rotate.z, AxisZ)))
            && (t && o.rotate == ORIGIN ==> w == call(Scalef(o.scale)))
  {
    LocalMeaning(o, call, mul, one);
  }

  /** Every object's cached matrix means the composition along its full link path, whatever
      the calls mean. */
  lemma CachesAreCompositions<M(!new)>(O: Objects, rank: seq<nat>, y: int, call: GlOp -> M, mul: (M, M) -> M, one: M)
    requires Ranked(O, rank) && CachesOk(O, rank) && Live(O, y) && Neutral(call, mul, one)
    ensures Meaning(O[y].value.m, call, mul, one) == Meaning(PathMatrix(O, rank, y), call, mul, one)
  {
    assert CacheOk(O, rank, y);
    var o := O[y].value;
    if !o.uptodate {
      var w0: Matrix := [];
      var w1 := w0 + [Translatef(ORIGIN)];
      var w2 := w1 + [Rotatef(0.0, AxisY)];
      var w3 := w2 + [Rotatef(0.0, AxisX)];
      var w4 := w3 + [Rotatef(0.0, AxisZ)];
      MeaningStep(w0, Translatef(ORIGIN), call, mul, one);
      MeaningStep(w1, Rotatef(0.0, AxisY), call, mul, one);
      MeaningStep(w2, Rotatef(0.0, AxisX), call, mul, one);
      MeaningStep(w3, Rotatef(0.0, AxisZ), call, mul, one);
      MeaningStep(w4, Scalef(1.0), call, mul, one);
      assert PathMatrix(O, rank, y) == w4 + [Scalef(1.0)];
    }
  }

  lemma {:induction false} UpIsLive(O: Objects, rank: seq<nat>, y: int)
    requires Ranked(O, rank) && Live(O, y)
    ensures forall i :: 0 <= i < |Up(O, rank, y)| ==>
              Live(O, Up(O, rank, y)[i]) && (i > 0 ==> rank[Up(O, rank, y)[i]] < rank[y])
    decreases rank[y]
  {
    assert RankedAt(O, rank, y);
    if O[y].value.link { UpIsLive(O, rank, O[y].value.linkid); }
  }

  lemma {:induction false} UpIsDistinct(O: Objects, rank: seq<nat>, y: int)
    requires Ranked(O, rank) && Live(O, y)
    ensures Distinct(Up(O, rank, y))
    decreases rank[y]
  {
    assert RankedAt(O, rank, y);
    if O[y].value.link {
      UpIsDistinct(O, rank, O[y].value.linkid);
      UpIsLive(O, rank, O[y].value.linkid);
    }
  }

  lemma {:induction false} DistinctFits(c: seq<int>, n: nat)
    requires Distinct(c) && forall i :: 0 <= i < |c| ==> 0 <= c[i] < n
    ensures |c| <= n
  {
    ElementsOfDistinct(c, n);
    var s := Elements(c);
    assert FirstNats(n) == s + (FirstNats(n) - s);
  }

  function Elements(c: seq<int>): set<int> {
    if c == [] then {} else {c[0]} + Elements(c[1..])
  }

  function FirstNats(n: nat): (s: set<int>)
    ensures |s| == n && forall x :: x in s <==> 0 <= x < n
  {
    if n == 0 then {} else FirstNats(n - 1) + {n - 1}
  }

  lemma {:induction false} ElementsOfDistinct(c: seq<int>, n: nat)
    requires Distinct(c) && forall i :: 0 <= i < |c| ==> 0 <= c[i] < n
    ensures |Elements(c)| == |c| && Elements(c) <= FirstNats(n)
    ensures forall x :: x in Elements(c) <==> x in c
  {
    if c != [] { ElementsOfDistinct(c[1..], n); }
  }

  /** A path is never longer than there are slots: the recursion guard never cuts one. */
  lemma PathFits(O: Objects, rank: seq<nat>, y: int)
    requires Ranked(O, rank) && Live(O, y)
    ensures |Up(O, rank, y)| <= |O|
  {
    UpIsDistinct(O, rank, y);
    UpIsLive(O, rank, y);
    DistinctFits(Up(O, rank, y), |O|);
  }

  // ------------------------------------------------------------ what a path depends on

  /** The object is linked as before and contributes what it did. */
  predicate SamePlace(a: Obj, b: Obj) {
    a.link == b.link && a.linkid == b.linkid && Local(a) == Local(b)
  }

  lemma {:induction false} PathUnchanged(O: Objects, r: seq<nat>, P: Objects, s: seq<nat>, y: int)
    requires Ranked(O, r) && Ranked(P, s) && Live(O, y)
    requires forall a :: a in Up(O, r, y) ==> Live(O, a) && Live(P, a) && SamePlace(O[a].value, P[a].value)
    ensures Live(P, y) && Up(P, s, y) == Up(O, r, y) && PathMatrix(P, s, y) == PathMatrix(O, r, y)
    decreases r[y]
  {
    assert RankedAt(O, r, y) && y in Up(O, r, y);
    if O[y].value.link {
      var p := O[y].value.linkid;
      assert forall a :: a in Up(O, r, p) ==> a in Up(O, r, y);
      PathUnchanged(O, r, P, s, p);
    }
  }

  /** The paths do not depend on the ranks that witness there are no cycles. */
  lemma RankDoesNotMatter(O: Objects, r: seq<nat>, s: seq<nat>, y: int)
    requires Ranked(O, r) && Ranked(O, s) && Live(O, y)
    ensures Up(O, s, y) == Up(O, r, y) && PathMatrix(O, s, y) == PathMatrix(O, r, y)
  {
    UpIsLive(O, r, y);
    PathUnchanged(O, r, O, s, y);
  }

  /** Whoever is above y is above everything that y is above. */
  lemma {:induction false} UpIsTransitive(O: Objects, rank: seq<nat>, y: int, a: int, b: int)
    requires Ranked(O, rank) && Live(O, y) && a in Up(O, rank, y) && b in Up(O, rank, y)
    ensures Live(O, a) && Live(O, b) && (a in Up(O, rank, b) || b in Up(O, rank, a))
    decreases rank[y]
  {
    assert RankedAt(O, rank, y);
    UpIsLive(O, rank, y);
    if O[y].value.link && a != y && b != y { UpIsTransitive(O, rank, O[y].value.linkid, a, b); }
  }
}
