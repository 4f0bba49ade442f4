/** The chains that hold each parent's children, and what linking and unlinking do to
    them: the links stay a forest over the live slots. */
module SceneLinks {
  import opened Options
  import opened Sequences
  import opened Scene

  /** Child i of x: it names x as its parent and its two neighbours in the chain. */
  predicate ChildAt(O: Objects, c: seq<int>, x: int, i: nat)
    requires i < |c|
  {
    && Live(O, c[i]) && O[c[i]].value.linkid == x
    && O[c[i]].value.lprev == (if i > 0 then c[i - 1] else -1)
    && O[c[i]].value.lnext == (if i + 1 < |c| then c[i + 1] else -1)
  }

  /** c is exactly the chain of x's children, and x knows its first. */
  ghost predicate KidsOk(O: Objects, c: seq<int>, x: int) {
    && Distinct(c) && (!Live(O, x) ==> c == [])
    && (Live(O, x) ==> O[x].value.lsub == if c == [] then -1 else c[0])
    && forall i {:trigger ChildAt(O, c, x, i)} :: 0 <= i < |c| ==> ChildAt(O, c, x, i)
  }

  /** An object's own link: flag and id agree, the parent is live, ranks lower and has the
      object among its children; an unlinked object has no neighbours. */
  predicate LinkOk(O: Objects, kids: seq<seq<int>>, rank: seq<nat>, y: int)
    requires Live(O, y) && |kids| == |rank| == |O|
  {
    var o := O[y].value;
    && (o.link <==> o.linkid != -1)
    && (o.link ==> Live(O, o.linkid) && y in kids[o.linkid] && rank[o.linkid] < rank[y])
    && (!o.link ==> o.lnext == -1 && o.lprev == -1)
  }

  /** The last slot is in use. */
  predicate Compact(O: Objects) { O != [] ==> O[|O| - 1].Some? }

  /** The chains hold the children, and links never cycle. */
  ghost predicate Forest(O: Objects, kids: seq<seq<int>>, rank: seq<nat>) {
    && |kids| == |rank| == |O|
    && (forall x {:trigger KidsOk(O, kids[x], x)} :: 0 <= x < |O| ==> KidsOk(O, kids[x], x))
    && (forall y {:trigger LinkOk(O, kids, rank, y)} :: Live(O, y) ==> LinkOk(O, kids, rank, y))
  }

  lemma ForestIsRanked(O: Objects, kids: seq<seq<int>>, rank: seq<nat>)
    requires Forest(O, kids, rank)
    ensures Ranked(O, rank)
  {
    forall y | Live(O, y) ensures RankedAt(O, rank, y) { assert LinkOk(O, kids, rank, y); }
  }

  function Put(O: Objects, x: int, o: Obj): (P: Objects)
    requires 0 <= x < |O|
    ensures |P| == |O|
  {
    O[x := Some(o)]
  }

  lemma WithoutIsDistinct(c: seq<int>, k: nat)
    requires Distinct(c) && k < |c|
    ensures Distinct(Without(c, k)) && |Without(c, k)| == |c| - 1
    ensures forall x :: x in Without(c, k) <==> x in c && x != c[k]
  {
    var d := Without(c, k);
    assert forall i :: 0 <= i < |d| ==> d[i] == c[if i < k then i else i + 1];
    forall x | x in c && x != c[k] ensures x in d {
      var j :| 0 <= j < |c| && c[j] == x;
      assert d[if j < k then j else j - 1] == x;
    }
  }

  // ------------------------------------------------------------ unlinking

  /** The object taken out of its chain: its neighbours close up over it. */
  function Unlinked(O: Objects, oid: int): (P: Objects)
    requires Live(O, oid)
    ensures |P| == |O|
  {
    var o := O[oid].value;
    seq(|O|, x requires 0 <= x < |O| =>
      if O[x].None? then None
      else if x == oid then Some(o.(lnext := -1, lprev := -1, linkid := -1, link := false))
      else if o.linkid == -1 then O[x]
      else if x == o.lprev then Some(O[x].value.(lnext := o.lnext))
      else if x == o.linkid && O[x].value.lsub == oid then Some(O[x].value.(lsub := o.lnext))
      else if x == o.lnext then Some(O[x].value.(lprev := o.lprev))
      else O[x])
  }

  function KidsWithout(O: Objects, kids: seq<seq<int>>, oid: int): seq<seq<int>>
    requires Live(O, oid) && |kids| == |O|
  {
    var p := O[oid].value.linkid;
    if 0 <= p < |kids| && oid in kids[p] then kids[p := Without(kids[p], Index(kids[p], oid))] else kids
  }

  /** Nobody else's chain mentions a child of x. */
  lemma ChildOfOne(O: Objects, kids: seq<seq<int>>, rank: seq<nat>, x: int, i: nat, y: int, j: nat)
    requires Forest(O, kids, rank) && 0 <= x < |O| && 0 <= y < |O|
    requires i < |kids[x]| && j < |kids[y]| && kids[x][i] == kids[y][j]
    ensures x == y && i == j
  {
    assert KidsOk(O, kids[x], x) && KidsOk(O, kids[y], y);
    assert ChildAt(O, kids[x], x, i) && ChildAt(O, kids[y], y, j);
  }

  /** Child k and the children on either side. */
  predicate Surrounded(O: Objects, c: seq<int>, p: int, k: nat)
    requires k < |c|
  {
    ChildAt(O, c, p, k) && (k > 0 ==> ChildAt(O, c, p, k - 1)) && (k + 1 < |c| ==> ChildAt(O, c, p, k + 1))
  }

  /** Where a linked object sits in its parent's chain. */
  lemma Neighbours(O: Objects, kids: seq<seq<int>>, rank: seq<nat>, oid: int)
    requires Forest(O, kids, rank) && Live(O, oid) && O[oid].value.link
    ensures var o := O[oid].value; var p := o.linkid;
            && Live(O, p) && p != oid && oid in kids[p] && KidsOk(O, kids[p], p)
            && Surrounded(O, kids[p], p, Index(kids[p], oid))
            && (forall i {:trigger ChildAt(O, kids[p], p, i)} ::
                  0 <= i < |kids[p]| ==> ChildAt(O, kids[p], p, i) && kids[p][i] != p)
  {
    var p := O[oid].value.linkid;
    assert LinkOk(O, kids, rank, oid) && KidsOk(O, kids[p], p);
    forall i | 0 <= i < |kids[p]| ensures ChildAt(O, kids[p], p, i) && kids[p][i] != p {
      assert ChildAt(O, kids[p], p, i);
      assert LinkOk(O, kids, rank, kids[p][i]);
    }
  }

  lemma ShortenedAt(O: Objects, c: seq<int>, p: int, k: nat, i: nat)
    requires k < |c| && i + 1 < |c| && Distinct(c) && ChildAt(O, c, p, k) && p != -1
    requires ChildAt(O, c, p, if i < k then i else i + 1) && c[if i < k then i else i + 1] != p
    ensures ChildAt(Unlinked(O, c[k]), Without(c, k), p, i)
  {
    var d, j := Without(c, k), if i < k then i else i + 1;
    assert d[i] == c[j];
    assert i > 0 ==> d[i - 1] == if i - 1 < k then c[i - 1] else c[i];
    assert i + 1 < |d| ==> d[i + 1] == if i + 1 < k then c[i + 1] else c[i + 2];
  }

  /** The parent's chain closes up. */
  lemma UnlinkShortensChain(O: Objects, kids: seq<seq<int>>, rank: seq<nat>, oid: int)
    requires Forest(O, kids, rank) && Live(O, oid) && O[oid].value.link
    ensures var p := O[oid].value.linkid;
            0 <= p < |kids| && oid in kids[p]
            && KidsOk(Unlinked(O, oid), Without(kids[p], Index(kids[p], oid)), p)
  {
    Neighbours(O, kids, rank, oid);
    var p := O[oid].value.linkid;
    var c, k := kids[p], Index(kids[p], oid);
    var d := Without(c, k);
    WithoutIsDistinct(c, k);
    assert c != [oid] && k == 0 ==> d[0] == c[1];
    assert k > 0 ==> d[0] == c[0] && c[0] != oid;
    forall i | 0 <= i < |d| ensures ChildAt(Unlinked(O, oid), d, p, i) {
      var j := if i < k then i else i + 1;
      assert ChildAt(O, c, p, j) && c[j] != p;
      ShortenedAt(O, c, p, k, i);
    }
  }

  /** Other chains stay. */
  lemma UnlinkKeepsOtherChain(O: Objects, kids: seq<seq<int>>, rank: seq<nat>, oid: int, x: int)
    requires Forest(O, kids, rank) && Live(O, oid) && 0 <= x < |O| && (O[oid].value.link ==> x != O[oid].value.linkid)
    ensures KidsOk(Unlinked(O, oid), kids[x], x)
  {
    var o, c, P := O[oid].value, kids[x], Unlinked(O, oid);
    assert KidsOk(O, c, x) && LinkOk(O, kids, rank, oid);
    if o.link { Neighbours(O, kids, rank, oid); }
    forall i | 0 <= i < |c| ensures ChildAt(P, c, x, i) {
      assert ChildAt(O, c, x, i);
    }
  }

  lemma UnlinkKeepsForest(O: Objects, kids: seq<seq<int>>, rank: seq<nat>, oid: int)
    requires Forest(O, kids, rank) && Live(O, oid)
    ensures Forest(Unlinked(O, oid), KidsWithout(O, kids, oid), rank)
  {
    var o, P, ks := O[oid].value, Unlinked(O, oid), KidsWithout(O, kids, oid);
    assert LinkOk(O, kids, rank, oid);
    if o.link { UnlinkShortensChain(O, kids, rank, oid); }
    forall x | 0 <= x < |P| ensures KidsOk(P, ks[x], x) {
      if !(o.link && x == o.linkid) { UnlinkKeepsOtherChain(O, kids, rank, oid, x); }
    }
    forall y | Live(P, y) ensures LinkOk(P, ks, rank, y) {
      assert LinkOk(O, kids, rank, y);
      if o.link { Neighbours(O, kids, rank, oid); }
    }
  }

  // ------------------------------------------------------------ linking

  /** The object put in front of target's children. */
  function LinkedTo(O: Objects, oid: int, target: int): (P: Objects)
    requires Live(O, oid) && Live(O, target)
    ensures |P| == |O|
  {
    var first := O[target].value.lsub;
    seq(|O|, x requires 0 <= x < |O| =>
      if O[x].None? then None
      else if x == oid then Some(O[x].value.(link := true, linkid := target, lnext := first))
      else if x == target then Some(O[x].value.(lsub := oid))
      else if x == first then Some(O[x].value.(lprev := oid))
      else O[x])
  }

  /** Ranks that witness the forest with oid under target: oid's whole tree moves up. */
  ghost function RankUnder(O: Objects, rank: seq<nat>, oid: int, target: int): (r: seq<nat>)
    requires Ranked(O, rank) && Live(O, target)
    ensures |r| == |O|
  {
    seq(|O|, x requires 0 <= x < |O| =>
      if Live(O, x) && oid in Up(O, rank, x) then rank[x] + rank[target] + 1 else rank[x])
  }

  lemma LinkKeepsForest(O: Objects, kids: seq<seq<int>>, rank: seq<nat>, oid: int, target: int)
    requires Forest(O, kids, rank) && Ranked(O, rank) && Live(O, oid) && Live(O, target)
    requires !O[oid].value.link && oid !in Up(O, rank, target)
    ensures Forest(LinkedTo(O, oid, target), kids[target := [oid] + kids[target]], RankUnder(O, rank, oid, target))
  {
    var P, ks, r := LinkedTo(O, oid, target), kids[target := [oid] + kids[target]], RankUnder(O, rank, oid, target);
    assert LinkOk(O, kids, rank, oid) && KidsOk(O, kids[target], target);
    LinkLengthensChain(O, kids, rank, oid, target);
    forall x | 0 <= x < |P| ensures KidsOk(P, ks[x], x) {
      if x != target { LinkKeepsOtherChain(O, kids, rank, oid, target, x); }
    }
    forall y | Live(P, y) ensures LinkOk(P, ks, r, y) {
      LinkKeepsLink(O, kids, rank, oid, target, y);
    }
  }

  lemma LinkLengthensChain(O: Objects, kids: seq<seq<int>>, rank: seq<nat>, oid: int, target: int)
    requires Forest(O, kids, rank) && Live(O, oid) && Live(O, target) && !O[oid].value.link && oid != target
    ensures KidsOk(LinkedTo(O, oid, target), [oid] + kids[target], target)
  {
    var c, P := kids[target], LinkedTo(O, oid, target);
    var d := [oid] + c;
    assert KidsOk(O, c, target) && LinkOk(O, kids, rank, oid);
    assert c != [] ==> ChildAt(O, c, target, 0);
    forall i | 0 <= i < |c| ensures c[i] != oid && c[i] != target {
      assert ChildAt(O, c, target, i);
      assert LinkOk(O, kids, rank, c[i]);
    }
    forall i | 0 <= i < |d| ensures ChildAt(P, d, target, i) {
      if i > 0 { assert ChildAt(O, c, target, i - 1); }
    }
  }

  lemma LinkKeepsOtherChain(O: Objects, kids: seq<seq<int>>, rank: seq<nat>, oid: int, target: int, x: int)
    requires Forest(O, kids, rank) && Live(O, oid) && Live(O, target) && !O[oid].value.link
    requires 0 <= x < |O| && x != target
    ensures KidsOk(LinkedTo(O, oid, target), kids[x], x)
  {
    var c, P := kids[x], LinkedTo(O, oid, target);
    assert KidsOk(O, c, x) && LinkOk(O, kids, rank, oid) && KidsOk(O, kids[target], target);
    assert kids[target] != [] ==> ChildAt(O, kids[target], target, 0);
    forall i | 0 <= i < |c| ensures ChildAt(P, c, x, i) {
      assert ChildAt(O, c, x, i);
      assert LinkOk(O, kids, rank, c[i]);
    }
  }

  lemma LinkKeepsLink(O: Objects, kids: seq<seq<int>>, rank: seq<nat>, oid: int, target: int, y: int)
    requires Forest(O, kids, rank) && Ranked(O, rank) && Live(O, oid) && Live(O, target)
    requires !O[oid].value.link && oid !in Up(O, rank, target) && Live(O, y)
    ensures LinkOk(LinkedTo(O, oid, target), kids[target := [oid] + kids[target]], RankUnder(O, rank, oid, target), y)
  {
    assert LinkOk(O, kids, rank, y) && LinkOk(O, kids, rank, oid) && KidsOk(O, kids[target], target);
    assert kids[target] != [] ==> ChildAt(O, kids[target], target, 0);
    if kids[target] != [] { assert LinkOk(O, kids, rank, kids[target][0]); }
    var o := O[y].value;
    if o.link {
      assert Up(O, rank, y) == [y] + Up(O, rank, o.linkid);
    }
  }
}
