/** Recalculating the matrices below an object: which objects the recursion visits, and
    that visiting just those makes every cached matrix right again. */
module SceneUpdate {
  import opened Options
  import opened Sequences
  import opened Scene
  import opened SceneLinks

  /** All ranks lie below the bound. */
  ghost predicate RanksBelow(rank: seq<nat>, bound: nat) {
    forall x :: 0 <= x < |rank| ==> rank[x] < bound
  }

  /** Children rank higher than their parents. */
  ghost predicate Nested(kids: seq<seq<int>>, rank: seq<nat>, bound: nat) {
    && |kids| == |rank| && RanksBelow(rank, bound)
    && forall x {:trigger NestedAt(kids, rank, x)} :: 0 <= x < |kids| ==> NestedAt(kids, rank, x)
  }

  ghost predicate NestedAt(kids: seq<seq<int>>, rank: seq<nat>, x: int)
    requires |kids| == |rank| && 0 <= x < |kids|
  {
    forall i :: 0 <= i < |kids[x]| ==> 0 <= kids[x][i] < |rank| && rank[x] < rank[kids[x][i]]
  }

  lemma ForestIsNested(O: Objects, kids: seq<seq<int>>, rank: seq<nat>, bound: nat)
    requires Forest(O, kids, rank) && RanksBelow(rank, bound)
    ensures Nested(kids, rank, bound)
  {
    forall x | 0 <= x < |kids| ensures NestedAt(kids, rank, x) {
      assert KidsOk(O, kids[x], x);
      forall i | 0 <= i < |kids[x]| ensures 0 <= kids[x][i] < |rank| && rank[x] < rank[kids[x][i]] {
        ChildFacts(O, kids, rank, x, i);
      }
    }
  }

  /** The objects the recursion visits from x down, in its order. */
  ghost function Tour(kids: seq<seq<int>>, rank: seq<nat>, bound: nat, x: int): seq<int>
    requires Nested(kids, rank, bound) && 0 <= x < |kids|
    decreases bound - rank[x], |kids[x]| + 1
  {
    [x] + TourFrom(kids, rank, bound, x, 0)
  }

  /** Those it visits below x from child i on. */
  ghost function TourFrom(kids: seq<seq<int>>, rank: seq<nat>, bound: nat, x: int, i: nat): seq<int>
    requires Nested(kids, rank, bound) && 0 <= x < |kids| && i <= |kids[x]|
    decreases bound - rank[x], |kids[x]| - i
  {
    if i == |kids[x]| then []
    else
      assert NestedAt(kids, rank, x);
      Tour(kids, rank, bound, kids[x][i]) + TourFrom(kids, rank, bound, x, i + 1)
  }

  lemma ChildFacts(O: Objects, kids: seq<seq<int>>, rank: seq<nat>, x: int, i: nat)
    requires Forest(O, kids, rank) && Live(O, x) && i < |kids[x]|
    ensures Live(O, kids[x][i]) && O[kids[x][i]].value.link && O[kids[x][i]].value.linkid == x
    ensures rank[kids[x][i]] > rank[x]
    ensures O[kids[x][i]].value.lnext == if i + 1 < |kids[x]| then kids[x][i + 1] else -1
    ensures O[x].value.lsub == kids[x][0]
  {
    assert KidsOk(O, kids[x], x) && ChildAt(O, kids[x], x, i);
    assert LinkOk(O, kids, rank, kids[x][i]);
  }

  // ------------------------------------------------------------ the tour is the subtree

  lemma {:induction false} TourStaysBelow(O: Objects, kids: seq<seq<int>>, rank: seq<nat>, bound: nat, x: int, y: int)
    requires Forest(O, kids, rank) && Ranked(O, rank) && Nested(kids, rank, bound) && Live(O, x)
    requires y in Tour(kids, rank, bound, x)
    ensures Live(O, y) && x in Up(O, rank, y)
    decreases bound - rank[x], |kids[x]| + 1
  {
    if y != x { TourFromStaysBelow(O, kids, rank, bound, x, 0, y); }
  }

  lemma {:induction false} TourFromStaysBelow(O: Objects, kids: seq<seq<int>>, rank: seq<nat>, bound: nat, x: int,
                                              i: nat, y: int)
    requires Forest(O, kids, rank) && Ranked(O, rank) && Nested(kids, rank, bound) && Live(O, x) && i <= |kids[x]|
    requires y in TourFrom(kids, rank, bound, x, i)
    ensures Live(O, y) && x in Up(O, rank, y)
    ensures exists j :: i <= j < |kids[x]| && kids[x][j] in Up(O, rank, y)
    decreases bound - rank[x], |kids[x]| - i
  {
    ChildFacts(O, kids, rank, x, i);
    var k := kids[x][i];
    if y in Tour(kids, rank, bound, k) {
      TourStaysBelow(O, kids, rank, bound, k, y);
      UpContains(O, rank, y, k);
    } else {
      TourFromStaysBelow(O, kids, rank, bound, x, i + 1, y);
    }
  }

  /** The parent of whoever is above y is above y. */
  lemma {:induction false} UpContains(O: Objects, rank: seq<nat>, y: int, k: int)
    requires Ranked(O, rank) && Live(O, y) && k in Up(O, rank, y)
    ensures Live(O, k) && (O[k].value.link ==> O[k].value.linkid in Up(O, rank, y))
    ensures rank[k] <= rank[y]
    decreases rank[y]
  {
    assert RankedAt(O, rank, y);
    if k != y {
      UpContains(O, rank, O[y].value.linkid, k);
    } else if O[y].value.link {
      assert O[y].value.linkid in Up(O, rank, O[y].value.linkid);
    }
  }

  lemma {:induction false} TourHasChild(O: Objects, kids: seq<seq<int>>, rank: seq<nat>, bound: nat, x: int, i: nat,
                                        j: nat)
    requires Forest(O, kids, rank) && Nested(kids, rank, bound) && Live(O, x) && i <= j < |kids[x]|
    ensures Live(O, kids[x][j])
    ensures forall y :: y in Tour(kids, rank, bound, kids[x][j]) ==> y in TourFrom(kids, rank, bound, x, i)
    decreases j - i
  {
    ChildFacts(O, kids, rank, x, j);
    ChildFacts(O, kids, rank, x, i);
    if i < j { TourHasChild(O, kids, rank, bound, x, i + 1, j); }
  }

  /** Everything below x is visited. */
  lemma {:induction false} TourReachesBelow(O: Objects, kids: seq<seq<int>>, rank: seq<nat>, bound: nat, x: int, y: int)
    requires Forest(O, kids, rank) && Ranked(O, rank) && Nested(kids, rank, bound) && Live(O, x) && Live(O, y)
    requires x in Up(O, rank, y)
    ensures forall z :: z in Tour(kids, rank, bound, y) ==> z in Tour(kids, rank, bound, x)
    decreases rank[y]
  {
    if y != x {
      assert LinkOk(O, kids, rank, y);
      var p := O[y].value.linkid;
      TourReachesBelow(O, kids, rank, bound, x, p);
      TourHasChild(O, kids, rank, bound, p, 0, Index(kids[p], y));
    }
  }

  /** The recursion visits exactly the subtree. */
  lemma TourIsSubtree(O: Objects, kids: seq<seq<int>>, rank: seq<nat>, bound: nat, x: int)
    requires Forest(O, kids, rank) && Ranked(O, rank) && Nested(kids, rank, bound) && Live(O, x)
    ensures forall y :: y in Tour(kids, rank, bound, x) <==> Live(O, y) && x in Up(O, rank, y)
  {
    forall y | y in Tour(kids, rank, bound, x) ensures Live(O, y) && x in Up(O, rank, y) {
      TourStaysBelow(O, kids, rank, bound, x, y);
    }
    forall y | Live(O, y) && x in Up(O, rank, y) ensures y in Tour(kids, rank, bound, x) {
      TourReachesBelow(O, kids, rank, bound, x, y);
      assert y in Tour(kids, rank, bound, y);
    }
  }

  /** And nothing twice. */
  lemma {:induction false} TourIsDistinct(O: Objects, kids: seq<seq<int>>, rank: seq<nat>, bound: nat, x: int)
    requires Forest(O, kids, rank) && Ranked(O, rank) && Nested(kids, rank, bound) && Live(O, x)
    ensures Distinct(Tour(kids, rank, bound, x))
    decreases bound - rank[x], |kids[x]| + 1
  {
    TourFromIsDistinct(O, kids, rank, bound, x, 0);
    var f := TourFrom(kids, rank, bound, x, 0);
    forall y | y in f ensures y != x {
      TourFromStaysBelow(O, kids, rank, bound, x, 0, y);
      var j :| 0 <= j < |kids[x]| && kids[x][j] in Up(O, rank, y);
      UpContains(O, rank, y, kids[x][j]);
      ChildFacts(O, kids, rank, x, j);
    }
    DisjointJoin([x], f);
  }

  lemma {:induction false} TourFromIsDistinct(O: Objects, kids: seq<seq<int>>, rank: seq<nat>, bound: nat, x: int,
                                              i: nat)
    requires Forest(O, kids, rank) && Ranked(O, rank) && Nested(kids, rank, bound) && Live(O, x) && i <= |kids[x]|
    ensures Distinct(TourFrom(kids, rank, bound, x, i))
    decreases bound - rank[x], |kids[x]| - i
  {
    if i < |kids[x]| {
      var k := kids[x][i];
      ChildFacts(O, kids, rank, x, i);
      TourIsDistinct(O, kids, rank, bound, k);
      TourFromIsDistinct(O, kids, rank, bound, x, i + 1);
      var a, b := Tour(kids, rank, bound, k), TourFrom(kids, rank, bound, x, i + 1);
      forall y | y in a ensures y !in b {
        TourStaysBelow(O, kids, rank, bound, k, y);
        if y in b {
          TourFromStaysBelow(O, kids, rank, bound, x, i + 1, y);
          var j :| i + 1 <= j < |kids[x]| && kids[x][j] in Up(O, rank, y);
          SiblingsApart(O, kids, rank, x, i, j, y);
          assert false;
        }
      }
      DisjointJoin(a, b);
    }
  }

  lemma DisjointJoin(a: seq<int>, b: seq<int>)
    requires Distinct(a) && Distinct(b) && forall y :: y in a ==> y !in b
    ensures Distinct(a + b)
  {
    var c := a + b;
    forall i, j | 0 <= i < j < |c| ensures c[i] != c[j] {
      if i < |a| <= j { assert c[i] == a[i] && c[j] == b[j - |a|] && a[i] in a && b[j - |a|] in b; }
    }
  }

  /** No object lies below two different children of x. */
  lemma SiblingsApart(O: Objects, kids: seq<seq<int>>, rank: seq<nat>, x: int, i: nat, j: nat, y: int)
    requires Forest(O, kids, rank) && Ranked(O, rank) && Live(O, x) && i < j < |kids[x]| && Live(O, y)
    requires kids[x][i] in Up(O, rank, y)
    ensures kids[x][j] !in Up(O, rank, y)
  {
    var a, b := kids[x][i], kids[x][j];
    ChildFacts(O, kids, rank, x, i);
    ChildFacts(O, kids, rank, x, j);
    assert KidsOk(O, kids[x], x);
    NotAboveSibling(O, rank, a, b);
    NotAboveSibling(O, rank, b, a);
    if b in Up(O, rank, y) { UpIsTransitive(O, rank, y, a, b); }
  }

  lemma NotAboveSibling(O: Objects, rank: seq<nat>, a: int, b: int)
    requires Ranked(O, rank) && Live(O, a) && Live(O, b) && a != b
    requires O[a].value.link && O[b].value.link && O[a].value.linkid == O[b].value.linkid
    ensures a !in Up(O, rank, b)
  {
    assert RankedAt(O, rank, a) && RankedAt(O, rank, b);
    if a in Up(O, rank, O[b].value.linkid) { UpContains(O, rank, O[b].value.linkid, a); }
  }

  // ------------------------------------------------------------ what the update does

  /** The objects of v have their matrices recalculated. */
  ghost function Refreshed(O: Objects, rank: seq<nat>, v: seq<int>): (P: Objects)
    requires Ranked(O, rank)
    ensures |P| == |O|
  {
    seq(|O|, x requires 0 <= x < |O| =>
      if Live(O, x) && x in v then Some(O[x].value.(m := PathMatrix(O, rank, x), uptodate := true)) else O[x])
  }

  /** Only cached matrices differ. */
  ghost predicate SameScene(O: Objects, P: Objects) {
    |O| == |P| && forall x :: 0 <= x < |O| ==>
      (O[x].Some? <==> P[x].Some?)
      && (O[x].Some? ==> P[x].value == O[x].value.(m := P[x].value.m, uptodate := P[x].value.uptodate))
  }

  /** The same slots are live and their link fields agree. */
  ghost predicate SameLinks(O: Objects, P: Objects) {
    |O| == |P| && forall x :: 0 <= x < |O| ==>
      (O[x].Some? <==> P[x].Some?) && (O[x].Some? ==> SameLinkFields(O[x].value, P[x].value))
  }

  predicate SameLinkFields(a: Obj, b: Obj) {
    a.link == b.link && a.linkid == b.linkid && a.lsub == b.lsub && a.lnext == b.lnext && a.lprev == b.lprev
  }

  lemma SameLinksKeepForest(O: Objects, P: Objects, kids: seq<seq<int>>, rank: seq<nat>)
    requires Forest(O, kids, rank) && SameLinks(O, P)
    ensures Forest(P, kids, rank) && Ranked(P, rank)
  {
    forall x | 0 <= x < |P| ensures KidsOk(P, kids[x], x) {
      assert KidsOk(O, kids[x], x);
      forall i | 0 <= i < |kids[x]| ensures ChildAt(P, kids[x], x, i) { assert ChildAt(O, kids[x], x, i); }
    }
    forall y | Live(P, y) ensures LinkOk(P, kids, rank, y) { assert LinkOk(O, kids, rank, y); }
    ForestIsRanked(P, kids, rank);
  }

  lemma SameSceneKeepsPaths(O: Objects, P: Objects, rank: seq<nat>)
    requires Ranked(O, rank) && Ranked(P, rank) && SameScene(O, P)
    ensures forall y :: Live(O, y) ==> Up(P, rank, y) == Up(O, rank, y) && PathMatrix(P, rank, y) == PathMatrix(O, rank, y)
  {
    forall y | Live(O, y) ensures Up(P, rank, y) == Up(O, rank, y) && PathMatrix(P, rank, y) == PathMatrix(O, rank, y) {
      UpIsLive(O, rank, y);
      PathUnchanged(O, rank, P, rank, y);
    }
  }

  /** Everything but object x is placed, cached and flagged as before. */
  ghost predicate ChangedAt(O: Objects, P: Objects, x: int) {
    |O| == |P| && forall y :: 0 <= y < |O| ==>
      (O[y].Some? <==> P[y].Some?)
      && (O[y].Some? && y != x ==> SamePlace(O[y].value, P[y].value)
                                   && O[y].value.m == P[y].value.m && O[y].value.uptodate == P[y].value.uptodate)
  }

  lemma LocalTellsAll(a: Obj, b: Obj)
    requires Local(a) == Local(b)
    ensures a.translate == b.translate && a.rotate == b.rotate && a.scale == b.scale
  {
    assert Local(a)[0] == Local(b)[0] && Local(a)[1] == Local(b)[1] && Local(a)[2] == Local(b)[2];
    assert Local(a)[3] == Local(b)[3] && Local(a)[4] == Local(b)[4];
  }

  /** After object x was moved or linked elsewhere, refreshing the subtree of x makes all
      caches right again. */
  lemma RefreshRestoresCaches(O: Objects, r: seq<nat>, P: Objects, s: seq<nat>, x: int, v: seq<int>, R: Objects)
    requires Ranked(O, r) && Ranked(P, s) && CachesOk(O, r) && ChangedAt(O, P, x) && Live(P, x)
    requires forall y :: y in v <==> Live(P, y) && x in Up(P, s, y)
    requires R == Refreshed(P, s, v) && Ranked(R, s)
    ensures CachesOk(R, s) && SameScene(P, R)
    ensures forall y :: y in v ==> Live(R, y) && R[y].value.uptodate && R[y].value.m == PathMatrix(R, s, y)
  {
    SameSceneKeepsPaths(P, R, s);
    forall y | Live(R, y) && y !in v ensures CacheOk(R, s, y) {
      UpIsLive(P, s, y);
      forall a | a in Up(P, s, y) ensures Live(O, a) && Live(P, a) && SamePlace(P[a].value, O[a].value) {}
      PathUnchanged(P, s, O, r, y);
      assert CacheOk(O, r, y);
      LocalTellsAll(O[y].value, P[y].value);
    }
    forall y | Live(R, y) && y in v ensures CacheOk(R, s, y) {}
  }

  /** Refreshing some objects and then others refreshes all of them. */
  lemma RefreshTwice(O: Objects, rank: seq<nat>, a: seq<int>, b: seq<int>)
    requires Ranked(O, rank) && Ranked(Refreshed(O, rank, a), rank)
    ensures Refreshed(Refreshed(O, rank, a), rank, b) == Refreshed(O, rank, a + b)
  {
    SameSceneKeepsPaths(O, Refreshed(O, rank, a), rank);
  }

  lemma RefreshKeepsForest(O: Objects, kids: seq<seq<int>>, rank: seq<nat>, v: seq<int>)
    requires Forest(O, kids, rank) && Ranked(O, rank)
    ensures Forest(Refreshed(O, rank, v), kids, rank) && Ranked(Refreshed(O, rank, v), rank)
  {
    SameLinksKeepForest(O, Refreshed(O, rank, v), kids, rank);
  }
}
