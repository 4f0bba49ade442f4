/** An application process's object table, with the operations its requests call. */
module SceneServer {
  import opened Kinds
  import opened Options
  import opened Sequences
  import opened Scene
  import opened SceneLinks
  import opened SceneUpdate
  import opened SceneSlots

  /** Links, transformations and kinds are as before, except for object x's own link. */
  ghost predicate OnlyLinkChanged(O: Objects, P: Objects, x: int) {
    |O| == |P| && forall y :: 0 <= y < |O| ==>
      (O[y].Some? <==> P[y].Some?)
      && (O[y].Some? ==> SameBody(O[y].value, P[y].value) && (y != x ==> SamePlace(O[y].value, P[y].value)))
  }

  /** Object oid has become o; it and all below it are up to date, and nothing else changed. */
  ghost predicate Changed(O: Objects, P: Objects, rank: seq<nat>, oid: int, o: Obj)
    requires Ranked(P, rank)
  {
    && |O| == |P| && Live(O, oid) && Live(P, oid) && SameButCache(Some(o), P[oid])
    && (forall y :: 0 <= y < |O| && y != oid ==> SameButCache(O[y], P[y]))
    && forall y :: Live(P, y) ==> if oid in Up(P, rank, y) then P[y].value.uptodate else P[y] == O[y]
  }

  /** Object oid and all below it are up to date, and nothing else was recalculated. */
  ghost predicate Recalculated(O: Objects, P: Objects, rank: seq<nat>, oid: int)
    requires Ranked(P, rank)
  {
    && |O| == |P| && Live(P, oid) && P[oid].value.uptodate
    && forall y :: Live(P, y) ==>
         if oid in Up(P, rank, y) then P[y].value.uptodate
         else O[y].Some? && P[y].value.m == O[y].value.m && P[y].value.uptodate == O[y].value.uptodate
  }

  predicate SameBody(a: Obj, b: Obj) {
    a.translate == b.translate && a.rotate == b.rotate && a.scale == b.scale && a.kind == b.kind
  }

  class Process {
    var objects: Objects
    ghost var kids: seq<seq<int>>
    ghost var rank: seq<nat>
    ghost var height: nat

    /** The links form a forest over the live slots, the last of which is in use. */
    ghost predicate Linked()
      reads this
    {
      && Forest(objects, kids, rank) && Ranked(objects, rank) && Compact(objects)
      && Nested(kids, rank, height)
    }

    /** Moreover every cached matrix is the composition along the object's link path, or the
        one the object was created with. */
    ghost predicate Valid()
      reads this
    {
      Linked() && CachesOk(objects, rank)
    }

    constructor ()
      ensures Valid() && objects == []
    {
      objects, kids, rank, height := [], [], [], 1;
    }

    // ---------------------------------------------------------- recalculation

    /** Goes up the links, then multiplies the transformations of the path, from its upper
        end down to the object, onto the current matrix. The
        depth guard never cuts the path. */
    method IntoPosition(oid: int, depth: nat, current: Matrix) returns (w: Matrix)
      requires Linked() && Live(objects, oid) && depth + |Up(objects, rank, oid)| <= |objects|
      ensures w == current + PathMatrix(objects, rank, oid)
      decreases rank[oid]
    {
      assert LinkOk(objects, kids, rank, oid);
      assert depth < |objects|;
      var o := objects[oid].value;
      w := current;
      if o.link && depth < |objects| {
        var on := o.linkid;
        if Live(objects, on) {
          w := IntoPosition(on, depth + 1, w);
        } else {
          assert false;   // the link object is never broken
        }
      }
      w := w + [Translatef(o.translate)];
      w := w + [Rotatef(o.rotate.y, AxisY)];
      w := w + [Rotatef(o.rotate.x, AxisX)];
      w := w + [Rotatef(o.rotate.z, AxisZ)];
      w := w + [Scalef(o.scale)];
    }

    /** Brings the object's cached matrix up to date, unless its flag says that it is. */
    method RecalcTmat(oid: int)
      requires Linked() && Live(objects, oid)
      modifies `objects
      ensures objects == if old(objects[oid].value.uptodate) then old(objects) else Refreshed(old(objects), rank, [oid])
      ensures Linked()
    {
      if !objects[oid].value.uptodate {
        PathFits(objects, rank, oid);
        var w := IntoPosition(oid, 0, []);
        assert [] + PathMatrix(objects, rank, oid) == PathMatrix(objects, rank, oid);
        RefreshKeepsForest(objects, kids, rank, [oid]);
        objects := Put(objects, oid, objects[oid].value.(m := w, uptodate := true));
        assert objects == Refreshed(old(objects), rank, [oid]);
      }
    }

    /** Recalculate one object's matrix, whether it is flagged as up to date or not. */
    method Renew(oid: int)
      requires Linked() && Live(objects, oid)
      modifies `objects
      ensures Linked() && objects == Refreshed(old(objects), rank, [oid])
    {
      FlagIsNoMatter(objects, kids, rank, oid);
      objects := Put(objects, oid, objects[oid].value.(uptodate := false));
      RecalcTmat(oid);
    }

    /** New matrices for an object and for all below it; from a child on, also of
        the siblings after it. */
    method PosUpdate(oid: int, first: int) returns (ghost visits: seq<int>)
      requires Linked() && Placed(objects, kids, rank, height, oid, first)
      modifies `objects
      ensures Linked() && visits == VisitsOf(old(objects), kids, rank, height, oid, first)
      ensures objects == Refreshed(old(objects), rank, visits)
      decreases Room(objects, rank, height, oid, first), Ahead(objects, kids, oid, first), 1
    {
      ghost var O := objects;
      VisitsSplit(O, kids, rank, height, oid, first);
      visits := RenewBelow(oid, first);
      if oid != first {
        ghost var S := objects;
        ghost var next := UpdateNext(oid, first);
        RefreshOn(O, kids, rank, height, visits, S, next, objects, oid, first);
        visits := visits + next;
      }
    }

    /** The object itself and what is below it. */
    method RenewBelow(oid: int, first: int) returns (ghost visits: seq<int>)
      requires Linked() && Placed(objects, kids, rank, height, oid, first)
      modifies `objects
      ensures Linked() && visits == [oid] + TourFrom(kids, rank, height, oid, 0)
      ensures objects == Refreshed(old(objects), rank, visits)
      ensures Placed(objects, kids, rank, height, oid, first) && objects[oid].value.linkid == old(objects)[oid].value.linkid
      decreases Room(objects, rank, height, oid, first), Ahead(objects, kids, oid, first), 0
    {
      ghost var O := objects;
      Renew(oid);
      RefreshKeepsPlaces(O, kids, rank, height, [oid], oid, first);
      ghost var S := objects;
      ghost var below := UpdateBelow(oid, first);
      RefreshOn(O, kids, rank, height, [oid], S, below, objects, oid, first);
      visits := [oid] + below;
    }

    /** The children of oid, and what is below them. */
    method UpdateBelow(oid: int, first: int) returns (ghost visits: seq<int>)
      requires Linked() && Placed(objects, kids, rank, height, oid, first)
      modifies `objects
      ensures Linked() && visits == TourFrom(kids, rank, height, oid, 0)
      ensures objects == Refreshed(old(objects), rank, visits)
      decreases height - rank[oid], |kids[oid]|, 2
    {
      visits := [];
      assert KidsOk(objects, kids[oid], oid);
      var o := objects[oid].value;
      if kids[oid] != [] { ChildFacts(objects, kids, rank, oid, 0); }
      if o.lsub != -1 {
        IndexIs(kids[oid], 0);
        visits := PosUpdate(o.lsub, first);
      } else {
        assert objects == Refreshed(objects, rank, []);
      }
    }

    /** The siblings after oid, and what is below them. */
    method UpdateNext(oid: int, first: int) returns (ghost visits: seq<int>)
      requires Linked() && Placed(objects, kids, rank, height, oid, first) && oid != first
      modifies `objects
      ensures Linked()
      ensures visits == old(var p := objects[oid].value.linkid;
                            TourFrom(kids, rank, height, p, Index(kids[p], oid) + 1))
      ensures objects == Refreshed(old(objects), rank, visits)
      decreases Room(objects, rank, height, oid, first), Ahead(objects, kids, oid, first) - 1, 2
    {
      visits := [];
      var o := objects[oid].value;
      Neighbours(objects, kids, rank, oid);
      if o.lnext != -1 {
        IndexOfNext(kids[o.linkid], oid);
        ChildFacts(objects, kids, rank, o.linkid, Index(kids[o.linkid], oid) + 1);
        visits := PosUpdate(o.lnext, first);
      } else {
        assert objects == Refreshed(objects, rank, []);
      }
    }

    // ---------------------------------------------------------- links

    /** The object leaves the chain of its parent's children. */
    method LinkDelete(oid: int)
      requires Linked() && Live(objects, oid)
      modifies `objects, `kids
      ensures Linked() && objects == Unlinked(old(objects), oid)
      ensures kids == KidsWithout(old(objects), old(kids), oid)
    {
      ghost var O, ks := objects, kids;
      assert LinkOk(O, ks, rank, oid);
      UnlinkKeepsForest(O, ks, rank, oid);
      var o := objects[oid].value;
      if o.linkid != -1 {
        Neighbours(O, ks, rank, oid);
        if o.lprev != -1 {
          if Live(objects, o.lprev) {
            objects := Put(objects, o.lprev, objects[o.lprev].value.(lnext := o.lnext));
          }
        }
        if Live(objects, o.linkid) {
          if objects[o.linkid].value.lsub == oid {
            objects := Put(objects, o.linkid, objects[o.linkid].value.(lsub := o.lnext));
          }
        }
        if o.lnext != -1 {
          if Live(objects, o.lnext) {
            objects := Put(objects, o.lnext, objects[o.lnext].value.(lprev := o.lprev));
          }
        }
      }
      objects := Put(objects, oid, objects[oid].value.(lnext := -1, lprev := -1, linkid := -1, link := false));
      assert objects == Unlinked(O, oid);
      kids := KidsWithout(O, ks, oid);
      ForestIsRanked(objects, kids, rank);
      ForestIsNested(objects, kids, rank, height);
    }

    /** Add an unlinked object into target's chain. */
    method LinkInsert(oid: int, target: int)
      requires Linked() && Live(objects, oid) && Live(objects, target)
      requires !objects[oid].value.link && oid !in Up(objects, rank, target)
      modifies `objects, `kids, `rank, `height
      ensures Linked() && objects == LinkedTo(old(objects), oid, target)
      ensures kids == old(kids)[target := [oid] + old(kids)[target]]
    {
      ghost var O, ks, r := objects, kids, rank;
      LinkKeepsForest(O, ks, r, oid, target);
      assert LinkOk(O, ks, r, oid) && KidsOk(O, ks[target], target);
      var ot := objects[target].value;
      objects := Put(objects, oid, objects[oid].value.(link := true, linkid := target, lnext := ot.lsub));
      if ot.lsub != -1 {
        if Live(objects, ot.lsub) {
          objects := Put(objects, ot.lsub, objects[ot.lsub].value.(lprev := oid));
        }
      }
      objects := Put(objects, target, objects[target].value.(lsub := oid));
      assert ks[target] != [] ==> ChildAt(O, ks[target], target, 0) && LinkOk(O, ks, r, ks[target][0]);
      assert objects == LinkedTo(O, oid, target);
      kids, rank, height := ks[target := [oid] + ks[target]], RankUnder(O, r, oid, target), 2 * height + 1;
      ForestIsRanked(objects, kids, rank);
      ForestIsNested(objects, kids, rank, height);
    }

    /** Does a chain of links lead from `to` up to `from`? */
    method WouldCycle(oidFrom: int, oidTo: int) returns (circular: bool)
      requires Linked() && Live(objects, oidFrom) && Live(objects, oidTo) && oidFrom != oidTo
      ensures circular <==> oidFrom in Up(objects, rank, oidTo)
    {
      var o2 := oidTo;
      circular := false;
      while objects[o2].value.link
        invariant Live(objects, o2) && o2 != oidFrom && !circular
        invariant oidFrom in Up(objects, rank, oidTo) <==> oidFrom in Up(objects, rank, o2)
        decreases rank[o2]
      {
        assert LinkOk(objects, kids, rank, o2);
        if objects[o2].value.linkid == oidFrom {      // a circle
          circular := true;
          return;
        }
        o2 := objects[o2].value.linkid;               // one up
      }
    }

    /** Bring the subtree of a moved or newly linked object up to date. */
    method Settle(oid: int, ghost before: Objects, ghost r: seq<nat>)
      requires Linked() && Live(objects, oid)
      requires Ranked(before, r) && CachesOk(before, r) && ChangedAt(before, objects, oid)
      modifies `objects
      ensures Valid() && SameScene(old(objects), objects)
      ensures forall y :: Live(objects, y) && oid in Up(objects, rank, y) ==>
                objects[y].value.uptodate && objects[y].value.m == PathMatrix(objects, rank, y)
      ensures forall y :: Live(objects, y) && oid !in Up(objects, rank, y) ==> objects[y] == old(objects)[y]
    {
      ghost var P := objects;
      TourIsSubtree(P, kids, rank, height, oid);
      ghost var v := PosUpdate(oid, oid);
      RefreshRestoresCaches(before, r, P, rank, oid, v, objects);
      SameSceneKeepsPaths(P, objects, rank);
    }

    /** One object is put below another: refused for missing objects, for an object
        onto itself, for pointers and when it would close a circle. */
    method ObjLink(oidFrom: int, oidTo: int) returns (result: int)
      requires Valid()
      modifies `objects, `kids, `rank, `height
      ensures Valid() && |objects| == |old(objects)|
      ensures result == if old(MayLink(objects, rank, oidFrom, oidTo)) then 0 else -1
      ensures result != 0 ==> objects == old(objects)
      ensures result == 0 ==> Live(objects, oidFrom) && objects[oidFrom].value.link && objects[oidFrom].value.linkid == oidTo
      ensures OnlyLinkChanged(old(objects), objects, oidFrom)
      ensures result == 0 ==> Recalculated(old(objects), objects, rank, oidFrom)
    {
      result := -1;
      if Live(objects, oidFrom) && Live(objects, oidTo) {
        var o := objects[oidFrom].value;
        if oidTo == oidFrom { return; }
        if o.kind == Pointer { return; }
        var circular := WouldCycle(oidFrom, oidTo);
        if circular { return; }
        assert LinkOk(objects, kids, rank, oidFrom);
        if oidTo != o.linkid {          // only if something changed
          Relink(oidFrom, oidTo);
        } else {
          LinkedAreUpToDate(objects, rank, oidFrom);
        }
        result := 0;
      }
    }

    method Relink(oidFrom: int, oidTo: int)
      requires Valid() && Live(objects, oidFrom) && Live(objects, oidTo) && oidFrom !in Up(objects, rank, oidTo)
      modifies `objects, `kids, `rank, `height
      ensures Valid() && OnlyLinkChanged(old(objects), objects, oidFrom)
      ensures objects[oidFrom].value.link && objects[oidFrom].value.linkid == oidTo
      ensures Recalculated(old(objects), objects, rank, oidFrom)
    {
      ghost var O, r := objects, rank;
      MoveLink(oidFrom, oidTo);
      ghost var R := objects;
      Settle(oidFrom, O, r);
      SettledLink(O, R, objects, oidFrom);
      SettledCaches(O, R, objects, rank, oidFrom);
    }

    /** Out of the old chain, into the new one. */
    method MoveLink(oidFrom: int, oidTo: int)
      requires Valid() && Live(objects, oidFrom) && Live(objects, oidTo) && oidFrom !in Up(objects, rank, oidTo)
      modifies `objects, `kids, `rank, `height
      ensures Linked() && ChangedAt(old(objects), objects, oidFrom) && OnlyLinkChanged(old(objects), objects, oidFrom)
      ensures Live(objects, oidFrom) && objects[oidFrom].value.link && objects[oidFrom].value.linkid == oidTo
    {
      ghost var O := objects;
      assert LinkOk(O, kids, rank, oidFrom);
      if objects[oidFrom].value.linkid != -1 { LinkDelete(oidFrom); }
      ghost var P := objects;
      StillNotAbove(O, P, rank, oidFrom, oidTo);
      LinkInsert(oidFrom, oidTo);
      objects := Put(objects, oidTo, objects[oidTo].value.(linkSrc := true));
      SameLinksKeepForest(LinkedTo(P, oidFrom, oidTo), objects, kids, rank);
      RelinkedObjects(O, P, oidFrom, oidTo, objects);
    }

    /** This unlinks an object, unless it is a pointer. */
    method ObjUnlink(oid: int) returns (result: int)
      requires Valid()
      modifies `objects, `kids
      ensures Valid() && |objects| == |old(objects)|
      ensures result == if old(Live(objects, oid) && objects[oid].value.kind != Pointer) then 0 else -1
      ensures result != 0 ==> objects == old(objects)
      ensures result == 0 ==> Live(objects, oid) && !objects[oid].value.link && OnlyLinkChanged(old(objects), objects, oid)
      ensures result == 0 ==> Recalculated(old(objects), objects, rank, oid)
    {
      if Live(objects, oid) {
        if objects[oid].value.kind == Pointer { return -1; }
        ghost var O := objects;
        LinkDelete(oid);
        ghost var R := objects;
        Settle(oid, O, rank);
        SettledCaches(O, R, objects, rank, oid);
        return 0;
      }
      return -1;
    }

    // ---------------------------------------------------------- moving

    /** Give an object a new transformation, and update it and all below it. */
    method Place(oid: int, translate: Vec, rotate: Vec, scale: real)
      requires Valid() && Live(objects, oid)
      modifies `objects
      ensures Valid()
      ensures Changed(old(objects), objects, rank, oid,
                      old(objects)[oid].value.(translate := translate, rotate := rotate, scale := scale))
    {
      ghost var O := objects;
      objects := Put(objects, oid, objects[oid].value.(translate := translate, rotate := rotate, scale := scale));
      SameLinksKeepForest(O, objects, kids, rank);
      Settle(oid, O, rank);
    }

    /** From a client: translates the object. System objects follow the user, not the client. */
    method ObjTranslate(oid: int, v: Vec)
      requires Valid()
      modifies `objects
      ensures Valid()
      ensures !old(Movable(objects, oid)) ==> objects == old(objects)
      ensures old(Movable(objects, oid)) ==>
                Changed(old(objects), objects, rank, oid, old(objects)[oid].value.(translate := v))
    {
      if Live(objects, oid) && !IsSystem(objects[oid].value.kind) {
        Place(oid, v, objects[oid].value.rotate, objects[oid].value.scale);
      }
    }

    /** Sets the rotation, each angle brought to within one turn. */
    method ObjRotate(oid: int, v: Vec)
      requires Valid()
      modifies `objects
      ensures Valid()
      ensures !old(Movable(objects, oid)) ==> objects == old(objects)
      ensures old(Movable(objects, oid)) ==>
                Changed(old(objects), objects, rank, oid,
                        old(objects)[oid].value.(rotate := Vec(WithinTurn(v.x), WithinTurn(v.y), WithinTurn(v.z))))
    {
      if Live(objects, oid) && !IsSystem(objects[oid].value.kind) {
        Place(oid, objects[oid].value.translate, Vec(WithinTurn(v.x), WithinTurn(v.y), WithinTurn(v.z)),
              objects[oid].value.scale);
      }
    }

    /** And scaling; values next to zero are ignored. */
    method ObjScale(oid: int, factor: real)
      requires Valid()
      modifies `objects
      ensures Valid()
      ensures !old(Movable(objects, oid)) || -0.0000000001 < factor < 0.0000000001 ==> objects == old(objects)
      ensures old(Movable(objects, oid)) && (factor <= -0.0000000001 || 0.0000000001 <= factor) ==>
                Changed(old(objects), objects, rank, oid, old(objects)[oid].value.(scale := factor))
    {
      if Live(objects, oid) && !IsSystem(objects[oid].value.kind) {
        if !NearZero(factor) {
          Place(oid, objects[oid].value.translate, objects[oid].value.rotate, factor);
        }
      }
    }

    // ---------------------------------------------------------- slots

    /** Creates a new object, in the first free slot or at the end, returning the object id. */
    method ObjNew() returns (pos: int)
      requires Valid()
      modifies `objects, `kids, `rank, `height
      ensures Valid() && 0 <= pos <= |old(objects)| && !old(Live(objects, pos))
      ensures forall k :: 0 <= k < pos ==> old(objects)[k].Some?
      ensures objects == Filled(old(objects), pos, FRESH_OBJECT)
    {
      pos := 0;
      while pos < |objects| && objects[pos].Some?
        invariant 0 <= pos <= |objects| && forall k :: 0 <= k < pos ==> objects[k].Some?
      {
        pos := pos + 1;
      }
      ghost var O, ks, r := objects, kids, rank;
      if pos < |objects| {
        objects := objects[pos := Some(FRESH_OBJECT)];
      } else {
        objects, kids, rank := objects + [Some(FRESH_OBJECT)], kids + [[]], rank + [0];
      }
      height := height + 1;
      FillKeepsForest(O, ks, r, pos, objects, kids, rank);
      ForestIsNested(objects, kids, rank, height);
    }

    /** Unlink an object and everything linked to it. */
    method ClearLinks(oid: int)
      requires Linked() && Live(objects, oid)
      modifies `objects, `kids
      ensures Linked() && Live(objects, oid) && kids[oid] == [] && !objects[oid].value.link
      ensures Detached(old(objects), objects, oid)
    {
      ghost var O := objects;
      assert LinkOk(objects, kids, rank, oid);
      if objects[oid].value.linkid != -1 {
        LinkDelete(oid);
        UnlinkDetaches(O, O, oid, oid);
      }
      while objects[oid].value.lsub != -1
        invariant Linked() && Live(objects, oid) && !objects[oid].value.link
        invariant Detached(O, objects, oid)
        decreases |kids[oid]|
      {
        var i := objects[oid].value.lsub;
        DeleteFirst(oid, O);
        if i == objects[oid].value.lsub { assert false; }   // something would be wrong
      }
      assert KidsOk(objects, kids[oid], oid);
      if kids[oid] != [] { ChildFacts(objects, kids, rank, oid, 0); }
    }

    /** Unlink the first of oid's children. */
    method DeleteFirst(oid: int, ghost O: Objects)
      requires Linked() && Live(objects, oid) && !objects[oid].value.link && objects[oid].value.lsub != -1
      requires Detached(O, objects, oid)
      modifies `objects, `kids
      ensures Linked() && Live(objects, oid) && !objects[oid].value.link
      ensures Detached(O, objects, oid) && |kids[oid]| < |old(kids)[oid]|
      ensures objects[oid].value.lsub != old(objects)[oid].value.lsub
    {
      var i := objects[oid].value.lsub;
      assert KidsOk(objects, kids[oid], oid);
      ChildFacts(objects, kids, rank, oid, 0);
      UnlinkDetaches(O, objects, oid, i);
      IndexIs(kids[oid], 0);
      LinkDelete(i);
      assert KidsOk(objects, kids[oid], oid);
    }

    /** The direct freeing function: its links are cleared, its slot emptied, and empty
        slots at the end are given back. No matrix is recalculated. */
    method ObjFree(oid: int)
      requires Linked() && Live(objects, oid)
      modifies `objects, `kids, `rank
      ensures Linked() && Freed(old(objects), objects, oid)
      ensures |objects| == |old(objects)| || (oid == |old(objects)| - 1 && |objects| < |old(objects)|)
    {
      ghost var O := objects;
      ClearLinks(oid);
      AllDetached(O, objects, kids, rank, oid);
      DropKeepsForest(objects, kids, rank, oid);
      objects := objects[oid := None];
      if oid == |objects| - 1 {
        var i := oid;
        while i != -1 && objects[i].None?
          invariant -1 <= i < |objects| && forall k :: i < k < |objects| ==> objects[k].None?
        {
          i := i - 1;
        }
        TrimKeepsForest(objects, kids, rank, i + 1);
        objects, kids, rank := objects[..i + 1], kids[..i + 1], rank[..i + 1];
      }
      ForestIsRanked(objects, kids, rank);
      ForestIsNested(objects, kids, rank, height);
    }

    /** Object-deletion request: system objects stay. The caches stay right exactly when
        nothing was linked to the object. */
    method ObjDel(oid: int) returns (result: int)
      requires Valid()
      modifies `objects, `kids, `rank
      ensures Linked() && result == if old(Live(objects, oid)) then 0 else -1
      ensures !old(Movable(objects, oid)) ==> objects == old(objects) && Valid()
      ensures old(Movable(objects, oid)) ==> Freed(old(objects), objects, oid)
      ensures old(Movable(objects, oid)) ==>
                (Valid() <==> forall y :: old(Live(objects, y)) && y != oid ==> oid !in old(Up(objects, rank, y)))
    {
      if Live(objects, oid) {
        if IsSystem(objects[oid].value.kind) { return 0; }
        ghost var O, r := objects, rank;
        LinkFlags(O, kids, r);
        ObjFree(oid);
        FreedCaches(O, r, objects, rank, oid);
        return 0;
      }
      return -1;
    }
  }

  lemma LinkFlags(O: Objects, kids: seq<seq<int>>, rank: seq<nat>)
    requires Forest(O, kids, rank)
    ensures forall z :: Live(O, z) ==> (O[z].value.link <==> O[z].value.linkid != -1)
  {
    forall z | Live(O, z) ensures O[z].value.link <==> O[z].value.linkid != -1 { assert LinkOk(O, kids, rank, z); }
  }

  /** Once nobody is linked to oid any more, everybody who was is unlinked. */
  lemma AllDetached(O: Objects, P: Objects, kids: seq<seq<int>>, rank: seq<nat>, oid: int)
    requires Detached(O, P, oid) && Forest(P, kids, rank) && Live(P, oid) && kids[oid] == []
    ensures Freed(O, P[oid := None], oid)
  {
    forall y | 0 <= y < |O| ensures FreedAt(O[y], P[oid := None][y], oid, y == oid) {
      assert DetachedAt(O[y], P[y], oid, y == oid);
      if Live(P, y) { assert LinkOk(P, kids, rank, y); }
    }
  }

  predicate Movable(O: Objects, oid: int) { Live(O, oid) && !IsSystem(O[oid].value.kind) }

  predicate NearZero(f: real) { -0.0000000001 < f < 0.0000000001 }

  /** Conversion to an integer drops the fraction; here f is not negative. */
  function WholeTurns(f: real): int
    requires f >= 0.0
  {
    f.Floor / 360
  }

  function WithinTurn(f: real): real {
    var g := if f < 0.0 then f + (WholeTurns(-f) * 360) as real else f;
    if g > 360.0 then g + (WholeTurns(g) * -360) as real else g
  }

  /** The angle is the same up to whole turns. */
  lemma WithinTurnIsSameAngle(f: real)
    ensures -360.0 < WithinTurn(f) <= 360.0
    ensures WithinTurn(f) == f + (360 * (if f < 0.0 then WholeTurns(-f) else if f > 360.0 then -WholeTurns(f) else 0)) as real
  {
    if f < 0.0 { assert (-f).Floor as real <= -f; }
  }

  predicate SameButCache(a: Option<Obj>, b: Option<Obj>) {
    (a.Some? <==> b.Some?) && (a.Some? ==> b.value == a.value.(m := b.value.m, uptodate := b.value.uptodate))
  }

  /** When a link request is granted. */
  ghost predicate MayLink(O: Objects, rank: seq<nat>, oidFrom: int, oidTo: int)
    requires Ranked(O, rank)
  {
    && Live(O, oidFrom) && Live(O, oidTo) && oidFrom != oidTo && O[oidFrom].value.kind != Pointer
    && oidFrom !in Up(O, rank, oidTo)
  }

  /** Unlinking an object that is not above another does not put it there. */
  lemma StillNotAbove(O: Objects, P: Objects, rank: seq<nat>, oid: int, y: int)
    requires Ranked(O, rank) && Ranked(P, rank) && Live(O, y) && Live(O, oid) && oid !in Up(O, rank, y)
    requires P == O || P == Unlinked(O, oid)
    ensures Live(P, y) && oid !in Up(P, rank, y)
  {
    UpIsLive(O, rank, y);
    PathUnchanged(O, rank, P, rank, y);
  }

  lemma RelinkedAt(O: Objects, P: Objects, oid: int, target: int, R: Objects, y: int)
    requires Live(O, oid) && (P == O || P == Unlinked(O, oid)) && Live(P, oid) && Live(P, target)
    requires R == Put(LinkedTo(P, oid, target), target, LinkedTo(P, oid, target)[target].value.(linkSrc := true))
    requires 0 <= y < |O|
    ensures KeptAt(O[y], R[y], y == oid)
  {
    var Q := LinkedTo(P, oid, target);
    assert KeptAt(O[y], P[y], y == oid);
    assert KeptAt(P[y], Q[y], y == oid);
    assert KeptAt(Q[y], R[y], y == oid);
  }

  /** Taken out of its old chain, put into the new one, the target flagged: only the
      object's own place has changed. */
  lemma RelinkedObjects(O: Objects, P: Objects, oid: int, target: int, R: Objects)
    requires Live(O, oid) && (P == O || P == Unlinked(O, oid)) && Live(P, oid) && Live(P, target)
    requires R == Put(LinkedTo(P, oid, target), target, LinkedTo(P, oid, target)[target].value.(linkSrc := true))
    ensures ChangedAt(O, R, oid) && OnlyLinkChanged(O, R, oid)
  {
    forall y | 0 <= y < |O| ensures KeptAt(O[y], R[y], y == oid) { RelinkedAt(O, P, oid, target, R, y); }
    AllKept(O, R, oid);
  }

  /** Clearing an object's flag first makes no difference to refreshing it. */
  lemma FlagIsNoMatter(O: Objects, kids: seq<seq<int>>, rank: seq<nat>, oid: int)
    requires Forest(O, kids, rank) && Ranked(O, rank) && Live(O, oid)
    ensures var P := Put(O, oid, O[oid].value.(uptodate := false));
            && Forest(P, kids, rank) && Ranked(P, rank) && (Compact(O) ==> Compact(P))
            && Refreshed(P, rank, [oid]) == Refreshed(O, rank, [oid])
  {
    var P := Put(O, oid, O[oid].value.(uptodate := false));
    SameLinksKeepForest(O, P, kids, rank);
    SameSceneKeepsPaths(O, P, rank);
  }

  /** Refreshing caches changes no link. */
  lemma SettledLink(O: Objects, P: Objects, R: Objects, oid: int)
    requires OnlyLinkChanged(O, P, oid) && SameScene(P, R) && Live(P, oid)
    ensures OnlyLinkChanged(O, R, oid) && Live(R, oid)
    ensures R[oid].value.link == P[oid].value.link && R[oid].value.linkid == P[oid].value.linkid
  {
  }

  /** The subtree was recalculated, everything else kept its cache. */
  lemma SettledCaches(O: Objects, P: Objects, R: Objects, rank: seq<nat>, oid: int)
    requires ChangedAt(O, P, oid) && SameScene(P, R) && Live(P, oid) && Ranked(R, rank)
    requires forall y :: Live(R, y) && oid in Up(R, rank, y) ==> R[y].value.uptodate
    requires forall y :: Live(R, y) && oid !in Up(R, rank, y) ==> R[y] == P[y]
    ensures Recalculated(O, R, rank, oid)
  {
    assert oid in Up(R, rank, oid);
    forall y | Live(R, y) && oid !in Up(R, rank, y)
      ensures O[y].Some? && R[y].value.m == O[y].value.m && R[y].value.uptodate == O[y].value.uptodate
    {
      assert Live(P, y) && y != oid;
    }
  }

  /** Linked objects are not as created, so they are up to date, and all below them. */
  lemma LinkedAreUpToDate(O: Objects, rank: seq<nat>, oid: int)
    requires Ranked(O, rank) && CachesOk(O, rank) && Live(O, oid) && O[oid].value.link
    ensures Recalculated(O, O, rank, oid)
  {
    forall y | Live(O, y) && oid in Up(O, rank, y) ensures O[y].value.uptodate {
      assert CacheOk(O, rank, y) && RankedAt(O, rank, y);
    }
    assert oid in Up(O, rank, oid);
  }

  lemma AllKept(O: Objects, R: Objects, oid: int)
    requires |O| == |R| && forall y :: 0 <= y < |O| ==> KeptAt(O[y], R[y], y == oid)
    ensures ChangedAt(O, R, oid) && OnlyLinkChanged(O, R, oid)
  {
  }

  /** The recursion that began at `first` may stand at oid. */
  ghost predicate Placed(O: Objects, kids: seq<seq<int>>, rank: seq<nat>, height: nat, oid: int, first: int) {
    && Live(O, oid) && |kids| == |rank| == |O| && Nested(kids, rank, height)
    && (oid != first ==> Live(O, first) && O[oid].value.link && LinkOk(O, kids, rank, oid)
                         && rank[first] <= rank[O[oid].value.linkid])
  }

  ghost function Room(O: Objects, rank: seq<nat>, height: nat, oid: int, first: int): int
    requires Live(O, oid) && |rank| == |O| && (oid != first ==> Live(O, O[oid].value.linkid))
  {
    height - rank[if oid == first then oid else O[oid].value.linkid]
  }

  /** How many children the recursion still has before it at oid, oid included. */
  ghost function Ahead(O: Objects, kids: seq<seq<int>>, oid: int, first: int): nat
    requires Live(O, oid) && |kids| == |O|
    requires oid != first ==> Live(O, O[oid].value.linkid) && oid in kids[O[oid].value.linkid]
  {
    if oid == first then |kids[oid]| + 1 else |kids[O[oid].value.linkid]| - Index(kids[O[oid].value.linkid], oid)
  }

  /** What the recursion visits from oid on, in its order. */
  ghost function VisitsOf(O: Objects, kids: seq<seq<int>>, rank: seq<nat>, height: nat, oid: int, first: int): seq<int>
    requires Placed(O, kids, rank, height, oid, first)
  {
    if oid == first then Tour(kids, rank, height, oid)
    else TourFrom(kids, rank, height, O[oid].value.linkid, Index(kids[O[oid].value.linkid], oid))
  }

  lemma VisitsSplit(O: Objects, kids: seq<seq<int>>, rank: seq<nat>, height: nat, oid: int, first: int)
    requires Placed(O, kids, rank, height, oid, first)
    ensures oid == first ==>
      VisitsOf(O, kids, rank, height, oid, first) == [oid] + TourFrom(kids, rank, height, oid, 0)
    ensures oid != first ==>
      VisitsOf(O, kids, rank, height, oid, first)
      == [oid] + TourFrom(kids, rank, height, oid, 0)
         + TourFrom(kids, rank, height, O[oid].value.linkid, Index(kids[O[oid].value.linkid], oid) + 1)
  {
    assert Tour(kids, rank, height, oid) == [oid] + TourFrom(kids, rank, height, oid, 0);
  }

  lemma RefreshKeepsPlaces(O: Objects, kids: seq<seq<int>>, rank: seq<nat>, height: nat, v: seq<int>, oid: int,
                           first: int)
    requires Forest(O, kids, rank) && Ranked(O, rank) && Placed(O, kids, rank, height, oid, first)
    ensures Ranked(Refreshed(O, rank, v), rank)
    ensures Placed(Refreshed(O, rank, v), kids, rank, height, oid, first)
    ensures Refreshed(O, rank, v)[oid].value.linkid == O[oid].value.linkid
  {
    RefreshKeepsForest(O, kids, rank, v);
    if oid != first { assert LinkOk(Refreshed(O, rank, v), kids, rank, oid); }
  }

  /** The recursion's next part, after the objects of a were refreshed. */
  lemma RefreshOn(O: Objects, kids: seq<seq<int>>, rank: seq<nat>, height: nat, a: seq<int>, S: Objects,
                  b: seq<int>, R: Objects, oid: int, first: int)
    requires Forest(O, kids, rank) && Ranked(O, rank) && Placed(O, kids, rank, height, oid, first)
    requires S == Refreshed(O, rank, a) && Ranked(S, rank) && R == Refreshed(S, rank, b)
    ensures R == Refreshed(O, rank, a + b)
    ensures Placed(R, kids, rank, height, oid, first) && R[oid].value.linkid == O[oid].value.linkid
  {
    RefreshTwice(O, rank, a, b);
    RefreshKeepsPlaces(O, kids, rank, height, a + b, oid, first);
  }

  lemma {:induction false} IndexOfNext(c: seq<int>, x: int)
    requires Distinct(c) && x in c && Index(c, x) + 1 < |c|
    ensures Index(c, c[Index(c, x) + 1]) == Index(c, x) + 1
  {
    IndexIs(c, Index(c, x) + 1);
  }

  lemma {:induction false} IndexIs(c: seq<int>, k: nat)
    requires Distinct(c) && k < |c|
    ensures Index(c, c[k]) == k
  {
  }
}
