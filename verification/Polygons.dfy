/** The pool as a whole: its rings partition the used positions 1..m. A diagonal splits
    one ring or merges two, and never changes the boundary the rings bound together. */
module Polygons {
  import opened Sequences
  import opened Rings
  import opened GreedyCut

  ghost function TotalLength(rs: seq<seq<int>>): nat {
    if rs == [] then 0 else |rs[0]| + TotalLength(rs[1..])
  }

  ghost predicate Within(c: seq<int>, m: int) {
    forall k :: 0 <= k < |c| ==> 1 <= c[k] <= m
  }

  ghost predicate OnSome(rs: seq<seq<int>>, x: int) {
    exists a :: 0 <= a < |rs| && x in rs[a]
  }

  /** Every position 1..m lies on exactly one ring. */
  ghost predicate Partition(t: Table, rs: seq<seq<int>>, m: int) {
    && 0 <= m < |t|
    && (forall a :: 0 <= a < |rs| ==> IsRing(t, rs[a]) && Within(rs[a], m))
    && (forall a, b :: 0 <= a < |rs| && 0 <= b < |rs| && a != b ==> Apart(rs[a], rs[b]))
    && (forall x :: 1 <= x <= m ==> OnSome(rs, x))
    && TotalLength(rs) == m
  }

  ghost function RingOf(rs: seq<seq<int>>, x: int): (a: nat)
    requires OnSome(rs, x)
    ensures a < |rs| && x in rs[a]
  {
    var a :| 0 <= a < |rs| && x in rs[a];
    a
  }

  /** The rings after a diagonal from p to q, its end points copied to i and j. */
  ghost function SpliceRings(rs: seq<seq<int>>, p: int, q: int, i: int, j: int): seq<seq<int>>
    requires OnSome(rs, p) && OnSome(rs, q)
  {
    var a, b := RingOf(rs, p), RingOf(rs, q);
    var c := RotateTo(rs[a], p);
    if a == b then SplitRings(rs, a, c, StepsTo(c, q), i, j)
    else DropRing(rs[a := Merged(c, RotateTo(rs[b], q), i, j)], b)
  }

  /** How many steps q lies after c[0]; a full round when it is c[0] itself. */
  ghost function StepsTo(c: seq<int>, q: int): (m: nat)
    requires c != []
    ensures 1 <= m <= |c|
    ensures q in c ==> c[Target(c, m)] == q
  {
    if q == c[0] || q !in c then |c| else Index(c, q)
  }

  ghost function SplitRings(rs: seq<seq<int>>, a: nat, c: seq<int>, m: nat, i: int, j: int): seq<seq<int>>
    requires a < |rs| && 1 <= m <= |c|
  {
    rs[a := FirstHalf(c, m)] + [SecondHalf(c, m, i, j)]
  }

  ghost function DropRing(rs: seq<seq<int>>, b: nat): seq<seq<int>>
    requires b < |rs|
  {
    rs[..b] + rs[b + 1..]
  }

  // ------------------------------------------------------------ sums over rings

  lemma {:induction false} TotalLengthJoin(r: seq<seq<int>>, s: seq<seq<int>>)
    ensures TotalLength(r + s) == TotalLength(r) + TotalLength(s)
  {
    if r == [] {
      assert r + s == s;
    } else {
      assert (r + s)[1..] == r[1..] + s;
      TotalLengthJoin(r[1..], s);
    }
  }

  lemma TotalLengthAt(rs: seq<seq<int>>, a: nat)
    requires a < |rs|
    ensures TotalLength(rs) == TotalLength(rs[..a]) + |rs[a]| + TotalLength(rs[a + 1..])
  {
    assert rs == rs[..a] + ([rs[a]] + rs[a + 1..]);
    TotalLengthJoin(rs[..a], [rs[a]] + rs[a + 1..]);
    TotalLengthJoin([rs[a]], rs[a + 1..]);
    assert [rs[a]][1..] == [];
  }

  lemma TotalLengthUpdate(rs: seq<seq<int>>, a: nat, r: seq<int>)
    requires a < |rs|
    ensures TotalLength(rs[a := r]) == TotalLength(rs) - |rs[a]| + |r|
  {
    TotalLengthAt(rs, a);
    TotalLengthAt(rs[a := r], a);
    assert rs[a := r][..a] == rs[..a] && rs[a := r][a + 1..] == rs[a + 1..];
  }

  lemma TotalLengthDrop(rs: seq<seq<int>>, b: nat)
    requires b < |rs|
    ensures TotalLength(DropRing(rs, b)) == TotalLength(rs) - |rs[b]|
  {
    TotalLengthAt(rs, b);
    TotalLengthJoin(rs[..b], rs[b + 1..]);
  }

  /** The vertex numbers along a ring. */
  function Vertices(t: Table, c: seq<int>): (v: seq<int>)
    ensures |v| == |c|
  {
    seq(|c|, k requires 0 <= k < |c| => if 0 <= c[k] < |t| then t[c[k]].vnum else 0)
  }

  /** Summed boundary weight of all rings. */
  ghost function Boundary(W: (int, int) -> real, t: Table, rs: seq<seq<int>>): real {
    if rs == [] then 0.0 else RingSum(W, Vertices(t, rs[0])) + Boundary(W, t, rs[1..])
  }

  lemma {:induction false} BoundaryJoin(W: (int, int) -> real, t: Table, r: seq<seq<int>>, s: seq<seq<int>>)
    ensures Boundary(W, t, r + s) == Boundary(W, t, r) + Boundary(W, t, s)
  {
    if r == [] {
      assert r + s == s;
    } else {
      assert (r + s)[1..] == r[1..] + s;
      BoundaryJoin(W, t, r[1..], s);
    }
  }

  lemma BoundaryAt(W: (int, int) -> real, t: Table, rs: seq<seq<int>>, a: nat)
    requires a < |rs|
    ensures Boundary(W, t, rs)
         == Boundary(W, t, rs[..a]) + RingSum(W, Vertices(t, rs[a])) + Boundary(W, t, rs[a + 1..])
  {
    assert rs == rs[..a] + ([rs[a]] + rs[a + 1..]);
    BoundaryJoin(W, t, rs[..a], [rs[a]] + rs[a + 1..]);
    BoundaryJoin(W, t, [rs[a]], rs[a + 1..]);
    assert [rs[a]][1..] == [];
  }

  lemma BoundaryUpdate(W: (int, int) -> real, t: Table, rs: seq<seq<int>>, a: nat, r: seq<int>)
    requires a < |rs|
    ensures Boundary(W, t, rs[a := r])
         == Boundary(W, t, rs) - RingSum(W, Vertices(t, rs[a])) + RingSum(W, Vertices(t, r))
  {
    BoundaryAt(W, t, rs, a);
    BoundaryAt(W, t, rs[a := r], a);
    assert rs[a := r][..a] == rs[..a] && rs[a := r][a + 1..] == rs[a + 1..];
  }

  lemma BoundaryDrop(W: (int, int) -> real, t: Table, rs: seq<seq<int>>, b: nat)
    requires b < |rs|
    ensures Boundary(W, t, DropRing(rs, b)) == Boundary(W, t, rs) - RingSum(W, Vertices(t, rs[b]))
  {
    BoundaryAt(W, t, rs, b);
    BoundaryJoin(W, t, rs[..b], rs[b + 1..]);
  }

  /** Where a ring is read from does not matter. */
  lemma RingSumRotates(W: (int, int) -> real, a: seq<int>, b: seq<int>)
    ensures RingSum(W, a + b) == RingSum(W, b + a)
  {
    if a == [] {
      assert a + b == b + a;
    } else if b == [] {
      assert a + b == b + a;
    } else {
      PathSumJoin(W, a, b);
      PathSumJoin(W, b, a);
    }
  }

  lemma RotateToKeepsSum(W: (int, int) -> real, t: Table, c: seq<int>, x: int)
    requires x in c
    ensures RingSum(W, Vertices(t, RotateTo(c, x))) == RingSum(W, Vertices(t, c))
  {
    var k, v := Index(c, x), Vertices(t, c);
    assert Vertices(t, RotateTo(c, x)) == v[k..] + v[..k];
    assert v == v[..k] + v[k..];
    RingSumRotates(W, v[k..], v[..k]);
  }

  lemma Flip(W: (int, int) -> real, a: int, b: int)
    requires Antisymmetric(W)
    ensures W(a, b) == -W(b, a)
  {
  }

  /** The two halves bound together what the ring bounded: the diagonal cancels. */
  lemma SplitKeepsSum(W: (int, int) -> real, v: seq<int>, m: nat)
    requires Antisymmetric(W) && 1 <= m <= |v|
    ensures var q := v[if m < |v| then m else 0];
            RingSum(W, [v[0]] + v[m..]) + RingSum(W, v[..m] + [q]) == RingSum(W, v)
  {
    var n := |v|;
    var q := v[if m < n then m else 0];
    Flip(W, v[0], q);
    Flip(W, v[0], v[0]);
    PathSumJoin(W, v[..m], [q]);
    if m < n {
      assert v == v[..m] + v[m..];
      PathSumJoin(W, v[..m], v[m..]);
      PathSumJoin(W, [v[0]], v[m..]);
    } else {
      assert v[..m] == v;
      assert [v[0]] + v[m..] == [v[0]];
    }
  }

  /** So does the merged ring for the two it came from. */
  lemma MergeKeepsSum(W: (int, int) -> real, v: seq<int>, u: seq<int>)
    requires Antisymmetric(W) && v != [] && u != []
    ensures RingSum(W, [v[0]] + u + [u[0], v[0]] + v[1..]) == RingSum(W, v) + RingSum(W, u)
  {
    Flip(W, v[0], u[0]);
    var tail := [v[0]] + v[1..];
    assert tail == v;
    assert [v[0]] + u + [u[0], v[0]] + v[1..] == [v[0]] + (u + ([u[0]] + tail));
    PathSumJoin(W, [u[0]], tail);
    PathSumJoin(W, u, [u[0]] + tail);
    PathSumJoin(W, [v[0]], u + ([u[0]] + tail));
  }

  // ------------------------------------------------------------ the partition survives

  /** Reading one ring from elsewhere changes nothing. */
  lemma RotatePartition(t: Table, rs: seq<seq<int>>, m: int, a: nat, x: int)
    requires Partition(t, rs, m) && a < |rs| && x in rs[a]
    ensures Partition(t, rs[a := RotateTo(rs[a], x)], m)
  {
    var c := RotateTo(rs[a], x);
    var ss := rs[a := c];
    RotateToIsRing(t, rs[a], x);
    TotalLengthUpdate(rs, a, c);
    forall k | 0 <= k < |c| ensures 1 <= c[k] <= m { assert c[k] in rs[a]; }
    forall b, d | 0 <= b < |ss| && 0 <= d < |ss| && b != d ensures Apart(ss[b], ss[d]) {
      assert Apart(rs[b], rs[d]);
      ApartSubset(rs[b], rs[d], ss[b], ss[d]);
    }
    forall y | 1 <= y <= m ensures OnSome(ss, y) {
      assert OnSome(rs, y);
      var b :| 0 <= b < |rs| && y in rs[b];
      assert y in ss[b];
    }
  }

  lemma ApartSubset(c: seq<int>, d: seq<int>, e: seq<int>, f: seq<int>)
    requires Apart(c, d) && (forall y :: y in e ==> y in c) && (forall y :: y in f ==> y in d)
    ensures Apart(e, f)
  {
    forall k, l | 0 <= k < |e| && 0 <= l < |f| ensures e[k] != f[l] {
      assert e[k] in e && f[l] in f;
      var x, y := e[k], f[l];
      assert x in c && y in d;
    }
  }

  /** The rings the diagonal leaves alone. */
  lemma OthersKeep(t: Table, rs: seq<seq<int>>, m: int, a: nat, b: nat, l: nat, e: nat, v0: int, v1: int)
    requires Partition(t, rs, m) && m + 2 < |t|
    requires a < |rs| && b < |rs| && e < |rs| && e != a && e != b
    requires rs[a] != [] && l < |rs[b]| && 0 <= rs[a][0] < |t| && 0 <= rs[b][l] < |t|
    ensures IsRing(Spliced(t, rs[a][0], rs[b][l], m + 1, m + 2, v0, v1), rs[e])
    ensures Within(rs[e], m + 2)
  {
    assert IsRing(t, rs[a]) && IsRing(t, rs[b]) && IsRing(t, rs[e]);
    assert LinkedAt(t, rs[a], 0) && LinkedAt(t, rs[b], l);
    assert Apart(rs[e], rs[a]) && Apart(rs[e], rs[b]) && Within(rs[e], m);
    SpliceKeeps(t, rs[e], rs[a][0], rs[b][l], m + 1, m + 2, v0, v1);
  }

  // A split: ring c becomes FirstHalf and SecondHalf.

  lemma HalvesAreParts(c: seq<int>, s: nat, i: int, j: int)
    requires 1 <= s <= |c|
    ensures var f, h := FirstHalf(c, s), SecondHalf(c, s, i, j);
            && |f| + |h| == |c| + 2
            && (forall k :: 0 <= k < |f| ==> f[k] == c[if k == 0 then 0 else k + s - 1])
            && (forall k :: 0 <= k < |h| ==> h[k] == if k == 0 then i else if k == s then j else c[k])
            && h[0] == i && h[s] == j
  {
  }

  lemma HalvesApart(c: seq<int>, s: nat, i: int, j: int, e: seq<int>, m: int)
    requires 1 <= s <= |c| && Within(c, m) && Within(e, m) && Apart(c, e) && i > m && j > m
    ensures Apart(FirstHalf(c, s), e) && Apart(e, FirstHalf(c, s))
    ensures Apart(SecondHalf(c, s, i, j), e) && Apart(e, SecondHalf(c, s, i, j))
  {
    HalvesAreParts(c, s, i, j);
  }

  lemma HalvesOfRing(c: seq<int>, s: nat, i: int, j: int, m: int)
    requires 1 <= s <= |c| && Within(c, m) && Distinct(c) && i == m + 1 && j == m + 2
    ensures var f, h := FirstHalf(c, s), SecondHalf(c, s, i, j);
            Apart(f, h) && Apart(h, f) && Within(f, m + 2) && Within(h, m + 2)
    ensures forall x :: x in c ==> x in FirstHalf(c, s) || x in SecondHalf(c, s, i, j)
  {
    HalvesAreParts(c, s, i, j);
    assert c == [c[0]] + c[1..s] + c[s..];
  }

  lemma SplitPartition(t: Table, rs: seq<seq<int>>, m: int, a: nat, s: nat, v0: int, v1: int)
    requires Partition(t, rs, m) && m + 2 < |t| && a < |rs| && rs[a] != [] && 1 <= s <= |rs[a]|
    requires 0 <= rs[a][0] < |t| && 0 <= rs[a][Target(rs[a], s)] < |t|
    ensures Partition(Spliced(t, rs[a][0], rs[a][Target(rs[a], s)], m + 1, m + 2, v0, v1),
                      SplitRings(rs, a, rs[a], s, m + 1, m + 2), m + 2)
  {
    var c, i, j, n := rs[a], m + 1, m + 2, |rs|;
    var u := Spliced(t, c[0], c[Target(c, s)], i, j, v0, v1);
    var f, h := FirstHalf(c, s), SecondHalf(c, s, i, j);
    var ss := SplitRings(rs, a, c, s, i, j);
    assert Within(c, m) && IsRing(t, c);
    SpliceSplits(t, c, s, i, j, v0, v1);
    HalvesOfRing(c, s, i, j, m);
    assert ss[a] == f && ss[n] == h && forall e :: 0 <= e < n && e != a ==> ss[e] == rs[e];
    forall e | 0 <= e <= n ensures IsRing(u, ss[e]) && Within(ss[e], m + 2) {
      if e != a && e != n { OthersKeep(t, rs, m, a, a, Target(c, s), e, v0, v1); }
    }
    forall e, g | 0 <= e <= n && 0 <= g <= n && e != g ensures Apart(ss[e], ss[g]) {
      SplitApart(rs, m, a, s, e, g);
    }
    HalvesAreParts(c, s, i, j);
    TotalLengthUpdate(rs, a, f);
    TotalLengthJoin(rs[a := f], [h]);
    assert [h][1..] == [];
    forall x | 1 <= x <= m + 2 ensures OnSome(ss, x) {
      if x <= m {
        assert OnSome(rs, x);
        var e :| 0 <= e < |rs| && x in rs[e];
        assert x in ss[e] || x in ss[n];
      } else {
        assert x in ss[n];
      }
    }
  }

  lemma SplitApart(rs: seq<seq<int>>, m: int, a: nat, s: nat, e: nat, g: nat)
    requires a < |rs| && 1 <= s <= |rs[a]| && Distinct(rs[a])
    requires forall b :: 0 <= b < |rs| ==> Within(rs[b], m)
    requires forall b, d :: 0 <= b < |rs| && 0 <= d < |rs| && b != d ==> Apart(rs[b], rs[d])
    requires e <= |rs| && g <= |rs| && e != g
    ensures var ss := SplitRings(rs, a, rs[a], s, m + 1, m + 2); Apart(ss[e], ss[g])
  {
    var n := |rs|;
    HalvesOfRing(rs[a], s, m + 1, m + 2, m);
    if e != a && e != n { HalvesApart(rs[a], s, m + 1, m + 2, rs[e], m); }
    if g != a && g != n { HalvesApart(rs[a], s, m + 1, m + 2, rs[g], m); }
  }

  // A merge: rings c and d become one.

  lemma MergedParts(c: seq<int>, d: seq<int>, i: int, j: int)
    requires c != []
    ensures var r, l := Merged(c, d, i, j), |d|;
            && |r| == |c| + |d| + 2 && r[l + 1] == j && r[l + 2] == i
            && forall k :: 0 <= k < |r| ==>
                 r[k] == if k == 0 then c[0] else if k <= l then d[k - 1] else if k == l + 1 then j
                         else if k == l + 2 then i else c[k - l - 2]
    ensures forall x :: x in c || x in d ==> x in Merged(c, d, i, j)
  {
    assert c == [c[0]] + c[1..];
  }

  lemma MergedApart(c: seq<int>, d: seq<int>, i: int, j: int, e: seq<int>, m: int)
    requires c != [] && Within(e, m) && i > m && j > m && Apart(c, e) && Apart(d, e)
    ensures Apart(Merged(c, d, i, j), e) && Apart(e, Merged(c, d, i, j))
  {
    MergedParts(c, d, i, j);
  }

  lemma MergePartition(t: Table, rs: seq<seq<int>>, m: int, a: nat, b: nat, v0: int, v1: int)
    requires Partition(t, rs, m) && m + 2 < |t| && a < |rs| && b < |rs| && a != b
    requires rs[a] != [] && rs[b] != [] && 0 <= rs[a][0] < |t| && 0 <= rs[b][0] < |t|
    ensures Partition(Spliced(t, rs[a][0], rs[b][0], m + 1, m + 2, v0, v1),
                      DropRing(rs[a := Merged(rs[a], rs[b], m + 1, m + 2)], b), m + 2)
  {
    var u := Spliced(t, rs[a][0], rs[b][0], m + 1, m + 2, v0, v1);
    var full := rs[a := Merged(rs[a], rs[b], m + 1, m + 2)];
    var ss := DropRing(full, b);
    assert forall e :: 0 <= e < |ss| ==> ss[e] == full[if e < b then e else e + 1];
    forall e | 0 <= e < |ss| ensures IsRing(u, ss[e]) && Within(ss[e], m + 2) {
      MergeKeepsRing(t, rs, m, a, b, if e < b then e else e + 1, v0, v1);
    }
    forall e, g | 0 <= e < |ss| && 0 <= g < |ss| && e != g ensures Apart(ss[e], ss[g]) {
      MergeKeepsApart(t, rs, m, a, b, if e < b then e else e + 1, if g < b then g else g + 1);
    }
    MergedParts(rs[a], rs[b], m + 1, m + 2);
    TotalLengthUpdate(rs, a, full[a]);
    TotalLengthDrop(full, b);
    forall x | 1 <= x <= m + 2 ensures OnSome(ss, x) {
      MergeCovers(rs, m, a, b, x);
    }
  }

  lemma MergeKeepsRing(t: Table, rs: seq<seq<int>>, m: int, a: nat, b: nat, e: nat, v0: int, v1: int)
    requires Partition(t, rs, m) && m + 2 < |t| && a < |rs| && b < |rs| && a != b
    requires rs[a] != [] && rs[b] != [] && 0 <= rs[a][0] < |t| && 0 <= rs[b][0] < |t|
    requires e < |rs| && e != b
    ensures var r := rs[a := Merged(rs[a], rs[b], m + 1, m + 2)][e];
            IsRing(Spliced(t, rs[a][0], rs[b][0], m + 1, m + 2, v0, v1), r) && Within(r, m + 2)
  {
    assert Within(rs[a], m) && Within(rs[b], m) && IsRing(t, rs[a]) && IsRing(t, rs[b]);
    if e != a {
      OthersKeep(t, rs, m, a, b, 0, e, v0, v1);
    } else {
      assert Apart(rs[a], rs[b]);
      SpliceMerges(t, rs[a], rs[b], m + 1, m + 2, v0, v1);
      MergedParts(rs[a], rs[b], m + 1, m + 2);
    }
  }

  lemma MergeKeepsApart(t: Table, rs: seq<seq<int>>, m: int, a: nat, b: nat, e: nat, g: nat)
    requires Partition(t, rs, m) && a < |rs| && b < |rs| && a != b && rs[a] != []
    requires e < |rs| && g < |rs| && e != g && e != b && g != b
    ensures var full := rs[a := Merged(rs[a], rs[b], m + 1, m + 2)]; Apart(full[e], full[g])
  {
    assert Apart(rs[e], rs[g]) && Within(rs[e], m) && Within(rs[g], m);
    if e == a {
      MergedApart(rs[a], rs[b], m + 1, m + 2, rs[g], m);
    } else if g == a {
      MergedApart(rs[a], rs[b], m + 1, m + 2, rs[e], m);
    }
  }

  lemma MergeCovers(rs: seq<seq<int>>, m: int, a: nat, b: nat, x: int)
    requires a < |rs| && b < |rs| && a != b && rs[a] != []
    requires x <= m ==> OnSome(rs, x)
    requires x <= m + 2
    ensures OnSome(DropRing(rs[a := Merged(rs[a], rs[b], m + 1, m + 2)], b), x)
  {
    var r := Merged(rs[a], rs[b], m + 1, m + 2);
    var full := rs[a := r];
    var ss := DropRing(full, b);
    MergedParts(rs[a], rs[b], m + 1, m + 2);
    var e: nat := if x <= m then RingOf(rs, x) else a;
    var g := if e == b then a else e;
    assert x in full[g];
    assert ss[if g < b then g else g - 1] == full[g];
  }

  // ------------------------------------------------------------ one diagonal, any ends

  lemma SpliceOneRing(t: Table, rs: seq<seq<int>>, m: int, p: int, q: int, a: nat, v0: int, v1: int)
    requires Partition(t, rs, m) && m + 2 < |t| && 1 <= p <= m && 1 <= q <= m
    requires a < |rs| && p in rs[a] && q in rs[a]
    ensures var c := RotateTo(rs[a], p);
            Partition(Spliced(t, p, q, m + 1, m + 2, v0, v1),
                      SplitRings(rs, a, c, StepsTo(c, q), m + 1, m + 2), m + 2)
  {
    var c := RotateTo(rs[a], p);
    var rp := rs[a := c];
    RotatePartition(t, rs, m, a, p);
    RotateToIsRing(t, rs[a], p);
    assert rp[a] == c && c[Target(c, StepsTo(c, q))] == q;
    SplitPartition(t, rp, m, a, StepsTo(c, q), v0, v1);
    assert rp[a := FirstHalf(c, StepsTo(c, q))] == rs[a := FirstHalf(c, StepsTo(c, q))];
  }

  lemma SpliceTwoRings(t: Table, rs: seq<seq<int>>, m: int, p: int, q: int, a: nat, b: nat, v0: int, v1: int)
    requires Partition(t, rs, m) && m + 2 < |t| && 1 <= p <= m && 1 <= q <= m
    requires a < |rs| && b < |rs| && a != b && p in rs[a] && q in rs[b]
    ensures var r := Merged(RotateTo(rs[a], p), RotateTo(rs[b], q), m + 1, m + 2);
            Partition(Spliced(t, p, q, m + 1, m + 2, v0, v1), DropRing(rs[a := r], b), m + 2)
  {
    var c, d := RotateTo(rs[a], p), RotateTo(rs[b], q);
    RotatePartition(t, rs, m, a, p);
    RotatePartition(t, rs[a := c], m, b, q);
    var rpq := rs[a := c][b := d];
    assert rpq[a] == c && rpq[b] == d;
    MergePartition(t, rpq, m, a, b, v0, v1);
    var r := Merged(c, d, m + 1, m + 2);
    assert DropRing(rpq[a := r], b) == DropRing(rs[a := r], b);
  }

  /** One diagonal keeps the pool a partition into rings: one more ring when its ends
      shared one, one fewer when they did not. */
  lemma SplicePartition(t: Table, rs: seq<seq<int>>, m: int, p: int, q: int, v0: int, v1: int)
    requires Partition(t, rs, m) && m + 2 < |t| && 1 <= p <= m && 1 <= q <= m
    ensures Partition(Spliced(t, p, q, m + 1, m + 2, v0, v1), SpliceRings(rs, p, q, m + 1, m + 2), m + 2)
    ensures |SpliceRings(rs, p, q, m + 1, m + 2)|
         == if RingOf(rs, p) == RingOf(rs, q) then |rs| + 1 else |rs| - 1
  {
    var a, b := RingOf(rs, p), RingOf(rs, q);
    if a == b {
      SpliceOneRing(t, rs, m, p, q, a, v0, v1);
    } else {
      SpliceTwoRings(t, rs, m, p, q, a, b, v0, v1);
    }
  }

  lemma HalvesVertices(u: Table, c: seq<int>, s: nat, i: int, j: int)
    requires 1 <= s <= |c| && 0 <= i < |u| && 0 <= j < |u|
    requires 0 <= c[0] < |u| && 0 <= c[Target(c, s)] < |u|
    requires u[i].vnum == u[c[0]].vnum && u[j].vnum == u[c[Target(c, s)]].vnum
    ensures var v := Vertices(u, c);
            && Vertices(u, FirstHalf(c, s)) == [v[0]] + v[s..]
            && Vertices(u, SecondHalf(c, s, i, j)) == v[..s] + [v[Target(c, s)]]
  {
    HalvesAreParts(c, s, i, j);
  }

  /** Together the two halves bound what the ring bounded. */
  lemma HalvesKeepSum(u: Table, c: seq<int>, s: nat, i: int, j: int, W: (int, int) -> real)
    requires 1 <= s <= |c| && 0 <= i < |u| && 0 <= j < |u| && Antisymmetric(W)
    requires 0 <= c[0] < |u| && 0 <= c[Target(c, s)] < |u|
    requires u[i].vnum == u[c[0]].vnum && u[j].vnum == u[c[Target(c, s)]].vnum
    ensures RingSum(W, Vertices(u, FirstHalf(c, s))) + RingSum(W, Vertices(u, SecondHalf(c, s, i, j)))
         == RingSum(W, Vertices(u, c))
  {
    HalvesVertices(u, c, s, i, j);
    SplitKeepsSum(W, Vertices(u, c), s);
  }

  lemma SplitKeepsBoundary(u: Table, rs: seq<seq<int>>, a: nat, p: int, q: int, i: int, j: int,
                           W: (int, int) -> real)
    requires a < |rs| && p in rs[a] && q in rs[a] && Antisymmetric(W)
    requires 0 <= p < |u| && 0 <= q < |u| && 0 <= i < |u| && 0 <= j < |u|
    requires u[i].vnum == u[p].vnum && u[j].vnum == u[q].vnum
    ensures var c := RotateTo(rs[a], p);
            Boundary(W, u, SplitRings(rs, a, c, StepsTo(c, q), i, j)) == Boundary(W, u, rs)
  {
    var c := RotateTo(rs[a], p);
    var s := StepsTo(c, q);
    RotateToKeepsSum(W, u, rs[a], p);
    assert q in c by { assert rs[a] == rs[a][..Index(rs[a], p)] + rs[a][Index(rs[a], p)..]; }
    HalvesKeepSum(u, c, s, i, j, W);
    var h := SecondHalf(c, s, i, j);
    BoundaryUpdate(W, u, rs, a, FirstHalf(c, s));
    BoundaryJoin(W, u, rs[a := FirstHalf(c, s)], [h]);
    assert [h][1..] == [];
  }

  lemma MergeKeepsBoundary(u: Table, rs: seq<seq<int>>, a: nat, b: nat, p: int, q: int, i: int, j: int,
                           W: (int, int) -> real)
    requires a < |rs| && b < |rs| && a != b && p in rs[a] && q in rs[b] && Antisymmetric(W)
    requires 0 <= p < |u| && 0 <= q < |u| && 0 <= i < |u| && 0 <= j < |u|
    requires u[i].vnum == u[p].vnum && u[j].vnum == u[q].vnum
    ensures var r := Merged(RotateTo(rs[a], p), RotateTo(rs[b], q), i, j);
            Boundary(W, u, DropRing(rs[a := r], b)) == Boundary(W, u, rs)
  {
    var c, d := RotateTo(rs[a], p), RotateTo(rs[b], q);
    var v, w := Vertices(u, c), Vertices(u, d);
    var r := Merged(c, d, i, j);
    RotateToKeepsSum(W, u, rs[a], p);
    RotateToKeepsSum(W, u, rs[b], q);
    MergeKeepsSum(W, v, w);
    assert Vertices(u, r) == [v[0]] + w + [w[0], v[0]] + v[1..];
    BoundaryUpdate(W, u, rs, a, r);
    BoundaryDrop(W, u, rs[a := r], b);
  }

  /** The copies carry their originals' vertex numbers, so for every edge weight that
      changes sign with direction the rings' total is what it was. */
  lemma SpliceKeepsBoundary(t: Table, rs: seq<seq<int>>, m: int, p: int, q: int, W: (int, int) -> real)
    requires Partition(t, rs, m) && m + 2 < |t| && 1 <= p <= m && 1 <= q <= m && Antisymmetric(W)
    ensures Boundary(W, Spliced(t, p, q, m + 1, m + 2, t[p].vnum, t[q].vnum),
                     SpliceRings(rs, p, q, m + 1, m + 2))
         == Boundary(W, t, rs)
  {
    var u := Spliced(t, p, q, m + 1, m + 2, t[p].vnum, t[q].vnum);
    var a, b := RingOf(rs, p), RingOf(rs, q);
    SameVertices(W, t, u, rs, m);
    if a == b {
      SplitKeepsBoundary(u, rs, a, p, q, m + 1, m + 2, W);
    } else {
      MergeKeepsBoundary(u, rs, a, b, p, q, m + 1, m + 2, W);
    }
  }

  lemma {:induction false} SameVertices(W: (int, int) -> real, t: Table, u: Table, rs: seq<seq<int>>, m: int)
    requires |u| == |t| && m < |t| && forall x :: 1 <= x <= m ==> u[x].vnum == t[x].vnum
    requires forall a :: 0 <= a < |rs| ==> Within(rs[a], m)
    ensures Boundary(W, u, rs) == Boundary(W, t, rs)
  {
    if rs != [] {
      assert Within(rs[0], m);
      assert Vertices(u, rs[0]) == Vertices(t, rs[0]);
      SameVertices(W, t, u, rs[1..], m);
    }
  }
}
