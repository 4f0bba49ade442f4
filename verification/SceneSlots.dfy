/** Slots come and go: taking one for a new object, and giving one up once nothing is
    linked to its object any more. */
module SceneSlots {
  import opened Kinds
  import opened Options
  import opened Scene
  import opened SceneLinks
  import opened SceneUpdate

  const FRESH_OBJECT := Obj(Plain, false, false, -1, -1, -1, -1, ORIGIN, ORIGIN, 1.0, [], false)

  /** Same transformation, kind and cache, and unless `moved` the same link. */
  predicate KeptAt(a: Option<Obj>, b: Option<Obj>, moved: bool) {
    && (a.Some? <==> b.Some?)
    && (a.Some? ==> SameContents(a.value, b.value)
                    && (!moved ==> a.value.link == b.value.link && a.value.linkid == b.value.linkid))
  }

  predicate SameContents(a: Obj, b: Obj) {
    && a.translate == b.translate && a.rotate == b.rotate && a.scale == b.scale
    && a.kind == b.kind && a.m == b.m && a.uptodate == b.uptodate
  }

  // ------------------------------------------------------------ a slot for a new object

  /** Slot pos, a free one or one past the end, filled. */
  function Filled(O: Objects, pos: nat, o: Obj): Objects
    requires pos <= |O|
  {
    if pos < |O| then O[pos := Some(o)] else O + [Some(o)]
  }

  lemma FillKeepsForest(O: Objects, kids: seq<seq<int>>, rank: seq<nat>, pos: nat, P: Objects,
                        ks: seq<seq<int>>, r: seq<nat>)
    requires Forest(O, kids, rank) && Ranked(O, rank) && pos <= |O| && !Live(O, pos)
    requires P == Filled(O, pos, FRESH_OBJECT)
    requires ks == (if pos < |O| then kids else kids + [[]]) && r == (if pos < |O| then rank else rank + [0])
    ensures Forest(P, ks, r) && Ranked(P, r)
    ensures CachesOk(O, rank) ==> CachesOk(P, r)
  {
    assert pos < |O| ==> KidsOk(O, kids[pos], pos);
    forall x | 0 <= x < |P| ensures KidsOk(P, ks[x], x) {
      if x != pos {
        assert KidsOk(O, kids[x], x);
        forall i | 0 <= i < |ks[x]| ensures ChildAt(P, ks[x], x, i) { assert ChildAt(O, kids[x], x, i); }
      }
    }
    forall y | Live(P, y) ensures LinkOk(P, ks, r, y) {
      if y != pos { assert LinkOk(O, kids, rank, y); }
    }
    ForestIsRanked(P, ks, r);
    if CachesOk(O, rank) {
      forall y | Live(P, y) ensures CacheOk(P, r, y) {
        if y != pos {
          assert CacheOk(O, rank, y);
          UpIsLive(O, rank, y);
          PathUnchanged(O, rank, P, r, y);
        }
      }
    }
  }

  // ------------------------------------------------------------ giving a slot up

  /** On the way to freeing oid: whoever is linked to it is so still or not linked at all. */
  predicate DetachedAt(a: Option<Obj>, b: Option<Obj>, oid: int, self: bool) {
    && KeptAt(a, b, self || (a.Some? && a.value.linkid == oid))
    && (a.Some? && a.value.linkid == oid && !self ==>
          (b.value.link == a.value.link && b.value.linkid == oid) || (!b.value.link && b.value.linkid == -1))
  }

  ghost predicate Detached(O: Objects, P: Objects, oid: int) {
    |O| == |P| && forall y :: 0 <= y < |O| ==> DetachedAt(O[y], P[y], oid, y == oid)
  }

  lemma UnlinkDetaches(O: Objects, P: Objects, oid: int, y: int)
    requires Detached(O, P, oid) && Live(P, y) && (y == oid || P[y].value.linkid == oid)
    ensures Detached(O, Unlinked(P, y), oid)
  {
    forall z | 0 <= z < |O| ensures DetachedAt(O[z], Unlinked(P, y)[z], oid, z == oid) {
      assert KeptAt(P[z], Unlinked(P, y)[z], z == y);
      assert DetachedAt(O[z], P[z], oid, z == oid);
    }
  }

  /** An object with neither link nor children can go. */
  lemma DropKeepsForest(O: Objects, kids: seq<seq<int>>, rank: seq<nat>, oid: int)
    requires Forest(O, kids, rank) && Live(O, oid) && kids[oid] == [] && !O[oid].value.link
    ensures Forest(O[oid := None], kids, rank)
  {
    var P := O[oid := None];
    assert LinkOk(O, kids, rank, oid);
    forall x | 0 <= x < |P| ensures KidsOk(P, kids[x], x) {
      assert KidsOk(O, kids[x], x);
      forall i | 0 <= i < |kids[x]| ensures ChildAt(P, kids[x], x, i) { assert ChildAt(O, kids[x], x, i); }
    }
    forall y | Live(P, y) ensures LinkOk(P, kids, rank, y) {
      assert LinkOk(O, kids, rank, y);
    }
  }

  /** Empty slots at the end can go. */
  lemma TrimKeepsForest(O: Objects, kids: seq<seq<int>>, rank: seq<nat>, n: nat)
    requires Forest(O, kids, rank) && n <= |O| && forall k :: n <= k < |O| ==> O[k].None?
    ensures Forest(O[..n], kids[..n], rank[..n])
  {
    var P := O[..n];
    forall x | 0 <= x < n ensures KidsOk(P, kids[..n][x], x) {
      assert KidsOk(O, kids[x], x);
      forall i | 0 <= i < |kids[x]| ensures ChildAt(P, kids[x], x, i) { assert ChildAt(O, kids[x], x, i); }
    }
    forall y | Live(P, y) ensures LinkOk(P, kids[..n], rank[..n], y) {
      assert LinkOk(O, kids, rank, y);
    }
  }

  /** The slots after oid was freed: everybody else lives on with the same contents, and
      the same link unless it led to oid. */
  ghost predicate Freed(O: Objects, P: Objects, oid: int) {
    && |P| <= |O|
    && forall y :: 0 <= y < |O| ==> FreedAt(O[y], if y < |P| then P[y] else None, oid, y == oid)
  }

  predicate FreedAt(a: Option<Obj>, b: Option<Obj>, oid: int, self: bool) {
    if self then b.None?
    else if a.Some? && a.value.linkid == oid
    then b.Some? && SameContents(a.value, b.value) && !b.value.link && b.value.linkid == -1
    else KeptAt(a, b, false)
  }

  /** What deletion does to paths: those that came past oid now start below it. */
  lemma {:induction false} FreedPath(O: Objects, r: seq<nat>, P: Objects, s: seq<nat>, oid: int, y: int)
    requires Ranked(O, r) && Ranked(P, s) && Freed(O, P, oid) && Live(O, oid) && Live(O, y) && y != oid
    requires forall z :: Live(O, z) ==> (O[z].value.link <==> O[z].value.linkid != -1)
    ensures Live(P, y)
    ensures PathMatrix(O, r, y)
         == (if oid in Up(O, r, y) then PathMatrix(O, r, oid) else []) + PathMatrix(P, s, y)
    decreases r[y]
  {
    assert RankedAt(O, r, y) && FreedAt(O[y], if y < |P| then P[y] else None, oid, false);
    assert RankedAt(P, s, y);
    var o := O[y].value;
    if o.link {
      UpStep(O, r, y, oid);
      if o.linkid == oid {
        assert PathMatrix(P, s, y) == Local(o);
      } else {
        FreedPath(O, r, P, s, oid, o.linkid);
        Regroup(if oid in Up(O, r, y) then PathMatrix(O, r, oid) else [], PathMatrix(P, s, o.linkid), Local(o));
      }
    }
  }

  lemma UpStep(O: Objects, r: seq<nat>, y: int, oid: int)
    requires Ranked(O, r) && Live(O, y) && O[y].value.link && y != oid
    ensures Live(O, O[y].value.linkid) && (oid in Up(O, r, y) <==> oid in Up(O, r, O[y].value.linkid))
    ensures O[y].value.linkid == oid ==> oid in Up(O, r, y)
  {
    assert RankedAt(O, r, y);
  }

  lemma Regroup(a: Matrix, b: Matrix, c: Matrix)
    ensures (a + b) + c == a + (b + c)
  {
  }

  /** Deleting an object refreshes nothing: the caches stay right exactly when nothing was
      linked to it; what was below it keeps the deleted object's path in front. */
  lemma FreedCaches(O: Objects, r: seq<nat>, P: Objects, s: seq<nat>, oid: int)
    requires Ranked(O, r) && Ranked(P, s) && Freed(O, P, oid) && Live(O, oid) && CachesOk(O, r)
    requires forall z :: Live(O, z) ==> (O[z].value.link <==> O[z].value.linkid != -1)
    ensures forall y :: Live(O, y) && y != oid && oid in Up(O, r, y) ==>
              Live(P, y) && P[y].value.m == PathMatrix(O, r, oid) + PathMatrix(P, s, y)
    ensures CachesOk(P, s) <==> forall y :: Live(O, y) && y != oid ==> oid !in Up(O, r, y)
  {
    forall y | Live(O, y) && y != oid
      ensures Live(P, y) && (CacheOk(P, s, y) <==> oid !in Up(O, r, y))
      ensures oid in Up(O, r, y) ==> P[y].value.m == PathMatrix(O, r, oid) + PathMatrix(P, s, y)
    {
      FreedCache(O, r, P, s, oid, y);
    }
    forall y | Live(P, y) ensures Live(O, y) && y != oid { assert FreedAt(O[y], P[y], oid, y == oid); }
  }

  lemma FreedCache(O: Objects, r: seq<nat>, P: Objects, s: seq<nat>, oid: int, y: int)
    requires Ranked(O, r) && Ranked(P, s) && Freed(O, P, oid) && Live(O, oid) && CachesOk(O, r)
    requires forall z :: Live(O, z) ==> (O[z].value.link <==> O[z].value.linkid != -1)
    requires Live(O, y) && y != oid
    ensures Live(P, y) && (CacheOk(P, s, y) <==> oid !in Up(O, r, y))
    ensures oid in Up(O, r, y) ==> P[y].value.m == PathMatrix(O, r, oid) + PathMatrix(P, s, y)
  {
    assert CacheOk(O, r, y);
    FreedPath(O, r, P, s, oid, y);
    assert FreedAt(O[y], if y < |P| then P[y] else None, oid, false);
    assert |PathMatrix(O, r, oid)| > 0;
    assert RankedAt(O, r, y);
    if oid !in Up(O, r, y) { assert [] + PathMatrix(P, s, y) == PathMatrix(P, s, y); }
  }
}
