/** Circular doubly linked lists in an index pool, and what splicing a diagonal into
    them does. A ring is given by the sequence of pool positions along `next`. */
module Rings {
  import opened Sequences

  datatype Link = Link(vnum: int, next: int, prev: int, marked: bool)

  type Table = seq<Link>

  function After(k: int, n: int): int { if k + 1 < n then k + 1 else 0 }

  function Before(k: int, n: int): int { if k > 0 then k - 1 else n - 1 }

  /** The k-th position of c points at its two neighbours in c, cyclically. */
  predicate LinkedAt(t: Table, c: seq<int>, k: nat)
    requires k < |c|
  {
    && 0 < c[k] < |t|
    && t[c[k]].next == c[After(k, |c|)]
    && t[c[k]].prev == c[Before(k, |c|)]
  }

  ghost predicate IsRing(t: Table, c: seq<int>) {
    c != [] && Distinct(c) && forall k :: 0 <= k < |c| ==> LinkedAt(t, c, k)
  }

  /** The same ring, read from position x. */
  function RotateTo(c: seq<int>, x: int): (r: seq<int>)
    requires x in c
    ensures |r| == |c| && r[0] == x
  {
    c[Index(c, x)..] + c[..Index(c, x)]
  }

  /** Where the i-th position of the rotated ring comes from. */
  function Origin(c: seq<int>, x: int, i: nat): (o: nat)
    requires x in c && i < |c|
    ensures o < |c|
  {
    if i < |c| - Index(c, x) then i + Index(c, x) else i + Index(c, x) - |c|
  }

  lemma RotateToAt(c: seq<int>, x: int, i: nat)
    requires x in c && i < |c|
    ensures RotateTo(c, x)[i] == c[Origin(c, x, i)]
  {
  }

  lemma RotateToSame(c: seq<int>, x: int)
    requires x in c
    ensures forall y :: y in RotateTo(c, x) <==> y in c
  {
    assert c == c[..Index(c, x)] + c[Index(c, x)..];
  }

  lemma RotateToIsRing(t: Table, c: seq<int>, x: int)
    requires IsRing(t, c) && x in c
    ensures IsRing(t, RotateTo(c, x))
    ensures forall y :: y in RotateTo(c, x) <==> y in c
  {
    var r, n := RotateTo(c, x), |c|;
    forall i, j | 0 <= i < j < n ensures r[i] != r[j] {
      RotateToAt(c, x, i);
      RotateToAt(c, x, j);
    }
    forall i | 0 <= i < n ensures LinkedAt(t, r, i) {
      assert LinkedAt(t, c, Origin(c, x, i));
      RotateToAt(c, x, i);
      RotateToAt(c, x, After(i, n));
      RotateToAt(c, x, Before(i, n));
    }
    RotateToSame(c, x);
  }

  // ------------------------------------------------------------ the splice

  /** Who ends up before the second end point's copy: the old predecessor of q, which is
      the fresh i when p and q were neighbours. */
  function BeforeCopy(t: Table, p: int, q: int, i: int): int
    requires 0 <= p < |t| && 0 <= q < |t|
  {
    if t[p].next == q then i else t[q].prev
  }

  /** The pool after the diagonal between positions p and q went in: p is followed by q,
      and the copies i (of p) and j (of q) take over p's old successors and q's old
      predecessors. */
  function Spliced(t: Table, p: int, q: int, i: int, j: int, v0: int, v1: int): (r: Table)
    requires 0 <= p < |t| && 0 <= q < |t|
    ensures |r| == |t|
  {
    seq(|t|, x requires 0 <= x < |t| =>
      Link(if x == i then v0 else if x == j then v1 else t[x].vnum,
           if x == p then q else if x == BeforeCopy(t, p, q, i) then j
           else if x == j then i else if x == i then t[p].next else t[x].next,
           if x == q then p else if x == j then BeforeCopy(t, p, q, i)
           else if x == i then j else if x == t[p].next then i else t[x].prev,
           t[x].marked))
  }

  /** Positions i and j are fresh: no ring uses them yet. */
  ghost predicate Fresh(t: Table, c: seq<int>, i: int, j: int) {
    0 < i < |t| && 0 < j < |t| && i != j && forall k :: 0 <= k < |c| ==> c[k] != i && c[k] != j
  }

  function FirstHalf(c: seq<int>, m: nat): seq<int>
    requires 1 <= m <= |c|
  {
    [c[0]] + c[m..]
  }

  function SecondHalf(c: seq<int>, m: nat, i: int, j: int): seq<int>
    requires 1 <= m <= |c|
  {
    [i] + c[1..m] + [j]
  }

  /** The position of q when p is read first and q is m steps on; m == |c| means p == q. */
  function Target(c: seq<int>, m: nat): nat
    requires 1 <= m <= |c|
  {
    if m < |c| then m else 0
  }

  lemma FirstHalfLinked(t: Table, c: seq<int>, m: nat, i: int, j: int, v0: int, v1: int, k: nat)
    requires IsRing(t, c) && Fresh(t, c, i, j) && 1 <= m <= |c|
    requires 0 <= c[0] < |t| && 0 <= c[Target(c, m)] < |t| && k < |FirstHalf(c, m)|
    ensures LinkedAt(Spliced(t, c[0], c[Target(c, m)], i, j, v0, v1), FirstHalf(c, m), k)
  {
    var r := FirstHalf(c, m);
    var o := if k == 0 then 0 else k + m - 1;
    assert r[k] == c[o];
    assert LinkedAt(t, c, o) && LinkedAt(t, c, 0) && LinkedAt(t, c, Target(c, m));
    assert k > 0 && k + 1 < |r| ==> r[k + 1] == c[o + 1];
    assert k > 1 ==> r[k - 1] == c[o - 1];
  }

  lemma SecondHalfLinked(t: Table, c: seq<int>, m: nat, i: int, j: int, v0: int, v1: int, k: nat)
    requires IsRing(t, c) && Fresh(t, c, i, j) && 1 <= m <= |c|
    requires 0 <= c[0] < |t| && 0 <= c[Target(c, m)] < |t| && k <= m
    ensures LinkedAt(Spliced(t, c[0], c[Target(c, m)], i, j, v0, v1), SecondHalf(c, m, i, j), k)
  {
    var r := SecondHalf(c, m, i, j);
    assert |r| == m + 1 && r[0] == i && r[m] == j;
    assert LinkedAt(t, c, 0) && LinkedAt(t, c, Target(c, m)) && LinkedAt(t, c, m - 1);
    assert 1 < m ==> r[1] == c[1] && r[m - 1] == c[m - 1];
    if 1 <= k < m {
      assert r[k] == c[k];
      assert LinkedAt(t, c, k);
      assert k + 1 < m ==> r[k + 1] == c[k + 1];
      assert k > 1 ==> r[k - 1] == c[k - 1];
    }
  }

  /** p and q on one ring: it splits in two along the diagonal. */
  lemma SpliceSplits(t: Table, c: seq<int>, m: nat, i: int, j: int, v0: int, v1: int)
    requires IsRing(t, c) && Fresh(t, c, i, j) && 1 <= m <= |c|
    requires 0 <= c[0] < |t| && 0 <= c[Target(c, m)] < |t|
    ensures IsRing(Spliced(t, c[0], c[Target(c, m)], i, j, v0, v1), FirstHalf(c, m))
    ensures IsRing(Spliced(t, c[0], c[Target(c, m)], i, j, v0, v1), SecondHalf(c, m, i, j))
  {
    forall k | 0 <= k < |FirstHalf(c, m)|
      ensures LinkedAt(Spliced(t, c[0], c[Target(c, m)], i, j, v0, v1), FirstHalf(c, m), k)
    {
      FirstHalfLinked(t, c, m, i, j, v0, v1, k);
    }
    forall k | 0 <= k < |SecondHalf(c, m, i, j)|
      ensures LinkedAt(Spliced(t, c[0], c[Target(c, m)], i, j, v0, v1), SecondHalf(c, m, i, j), k)
    {
      SecondHalfLinked(t, c, m, i, j, v0, v1, k);
    }
  }

  /** Ring c read from p and ring d read from q, joined along the diagonal. */
  function Merged(c: seq<int>, d: seq<int>, i: int, j: int): seq<int>
    requires c != []
  {
    [c[0]] + d + [j, i] + c[1..]
  }

  lemma MergedLinked(t: Table, c: seq<int>, d: seq<int>, i: int, j: int, v0: int, v1: int, k: nat)
    requires IsRing(t, c) && IsRing(t, d) && Apart(c, d)
    requires Fresh(t, c, i, j) && Fresh(t, d, i, j)
    requires 0 <= c[0] < |t| && 0 <= d[0] < |t| && k < |Merged(c, d, i, j)|
    ensures LinkedAt(Spliced(t, c[0], d[0], i, j, v0, v1), Merged(c, d, i, j), k)
  {
    var r := Merged(c, d, i, j);
    var a, b := |c|, |d|;
    assert LinkedAt(t, c, 0) && LinkedAt(t, d, 0) && LinkedAt(t, d, b - 1);
    assert r[0] == c[0] && r[1] == d[0] && r[b] == d[b - 1] && r[b + 1] == j && r[b + 2] == i;
    assert a > 1 ==> r[b + 3] == c[1] && r[|r| - 1] == c[a - 1];
    if 1 <= k <= b {
      assert r[k] == d[k - 1];
      assert LinkedAt(t, d, k - 1);
      assert k < b ==> r[k + 1] == d[k];
      assert k > 1 ==> r[k - 1] == d[k - 2];
    } else if b + 3 <= k {
      var o := k - b - 2;
      assert r[k] == c[o];
      assert LinkedAt(t, c, o);
      assert o + 1 < a ==> r[k + 1] == c[o + 1];
      assert o > 1 ==> r[k - 1] == c[o - 1];
    }
  }

  /** p and q on different rings: they become one. */
  lemma SpliceMerges(t: Table, c: seq<int>, d: seq<int>, i: int, j: int, v0: int, v1: int)
    requires IsRing(t, c) && IsRing(t, d) && Apart(c, d)
    requires Fresh(t, c, i, j) && Fresh(t, d, i, j)
    requires 0 <= c[0] < |t| && 0 <= d[0] < |t|
    ensures IsRing(Spliced(t, c[0], d[0], i, j, v0, v1), Merged(c, d, i, j))
  {
    var r := Merged(c, d, i, j);
    forall k | 0 <= k < |r| ensures LinkedAt(Spliced(t, c[0], d[0], i, j, v0, v1), r, k) {
      MergedLinked(t, c, d, i, j, v0, v1, k);
    }
    var b := |d|;
    assert forall k :: 1 <= k <= b ==> r[k] == d[k - 1];
    assert forall k :: b + 3 <= k < |r| ==> r[k] == c[k - b - 2];
  }

  ghost predicate Apart(c: seq<int>, d: seq<int>) {
    forall k, l :: 0 <= k < |c| && 0 <= l < |d| ==> c[k] != d[l]
  }

  /** A ring the diagonal does not touch stays as it is. */
  lemma SpliceKeeps(t: Table, e: seq<int>, p: int, q: int, i: int, j: int, v0: int, v1: int)
    requires 0 <= p < |t| && 0 <= q < |t|
    requires IsRing(t, e) && Fresh(t, e, i, j)
    requires forall k :: 0 <= k < |e| ==> e[k] != p && e[k] != q && e[k] != t[p].next && e[k] != t[q].prev
    ensures IsRing(Spliced(t, p, q, i, j, v0, v1), e)
  {
    var s := Spliced(t, p, q, i, j, v0, v1);
    forall k | 0 <= k < |e| ensures LinkedAt(s, e, k) {
      assert LinkedAt(t, e, k);
    }
  }

  // ------------------------------------------------------------ the stores of the splice

  function SetNext(t: Table, k: int, x: int): (r: Table)
    requires 0 <= k < |t|
    ensures |r| == |t|
  {
    t[k := t[k].(next := x)]
  }

  function SetPrev(t: Table, k: int, x: int): (r: Table)
    requires 0 <= k < |t|
    ensures |r| == |t|
  {
    t[k := t[k].(prev := x)]
  }

  function SetVnum(t: Table, k: int, x: int): (r: Table)
    requires 0 <= k < |t|
    ensures |r| == |t|
  {
    t[k := t[k].(vnum := x)]
  }

  /** The splice as the ten stores of make_new_monotone_poly, in their order; b is who
      precedes q by the time its successor is redirected. */
  function Stores(t: Table, p: int, q: int, i: int, j: int, b: int, v0: int, v1: int): (r: Table)
    requires 0 <= p < |t| && 0 <= q < |t| && 0 <= i < |t| && 0 <= j < |t| && 0 <= b < |t|
    requires 0 <= t[p].next < |t|
    ensures |r| == |t|
  {
    var t2 := SetVnum(SetVnum(t, i, v0), j, v1);
    var t4 := SetPrev(SetNext(t2, i, t[p].next), t[p].next, i);
    var t6 := SetNext(SetPrev(t4, i, j), j, i);
    var t8 := SetNext(SetPrev(t6, j, b), b, j);
    SetPrev(SetNext(t8, p, q), q, p)
  }

  lemma StoresSpliceNext(t: Table, p: int, q: int, i: int, j: int, b: int, v0: int, v1: int, x: int)
    requires 0 <= p < |t| && 0 <= q < |t| && 0 <= i < |t| && 0 <= j < |t| && 0 <= b < |t|
    requires 0 <= t[p].next < |t|
    requires b == BeforeCopy(t, p, q, i) && p != i && p != j && q != i && q != j && i != j
    requires t[p].next != i && t[p].next != j && t[q].prev != i && t[q].prev != j
    requires t[q].prev == p ==> t[p].next == q
    requires 0 <= x < |t|
    ensures Stores(t, p, q, i, j, b, v0, v1)[x].next == Spliced(t, p, q, i, j, v0, v1)[x].next
  {
  }

  lemma StoresSplicePrev(t: Table, p: int, q: int, i: int, j: int, b: int, v0: int, v1: int, x: int)
    requires 0 <= p < |t| && 0 <= q < |t| && 0 <= i < |t| && 0 <= j < |t| && 0 <= b < |t|
    requires 0 <= t[p].next < |t|
    requires b == BeforeCopy(t, p, q, i) && p != i && p != j && q != i && q != j && i != j
    requires t[p].next != i && t[p].next != j && t[q].prev != i && t[q].prev != j
    requires t[q].prev == p ==> t[p].next == q
    requires 0 <= x < |t|
    ensures Stores(t, p, q, i, j, b, v0, v1)[x].prev == Spliced(t, p, q, i, j, v0, v1)[x].prev
  {
  }

  lemma StoresSpliceRest(t: Table, p: int, q: int, i: int, j: int, b: int, v0: int, v1: int, x: int)
    requires 0 <= p < |t| && 0 <= q < |t| && 0 <= i < |t| && 0 <= j < |t| && 0 <= b < |t|
    requires 0 <= t[p].next < |t|
    requires b == BeforeCopy(t, p, q, i) && p != i && p != j && q != i && q != j && i != j
    requires t[p].next != i && t[p].next != j && t[q].prev != i && t[q].prev != j
    requires t[q].prev == p ==> t[p].next == q
    requires 0 <= x < |t|
    ensures Stores(t, p, q, i, j, b, v0, v1)[x].vnum == Spliced(t, p, q, i, j, v0, v1)[x].vnum
    ensures Stores(t, p, q, i, j, b, v0, v1)[x].marked == Spliced(t, p, q, i, j, v0, v1)[x].marked
  {
  }

  lemma SameLink(a: Link, b: Link)
    requires a.vnum == b.vnum && a.next == b.next && a.prev == b.prev && a.marked == b.marked
    ensures a == b
  {
  }

  lemma StoresSpliceAt(t: Table, p: int, q: int, i: int, j: int, b: int, v0: int, v1: int, x: int)
    requires 0 <= p < |t| && 0 <= q < |t| && 0 <= i < |t| && 0 <= j < |t| && 0 <= b < |t|
    requires 0 <= t[p].next < |t|
    requires b == BeforeCopy(t, p, q, i) && p != i && p != j && q != i && q != j && i != j
    requires t[p].next != i && t[p].next != j && t[q].prev != i && t[q].prev != j
    requires t[q].prev == p ==> t[p].next == q
    requires 0 <= x < |t|
    ensures Stores(t, p, q, i, j, b, v0, v1)[x] == Spliced(t, p, q, i, j, v0, v1)[x]
  {
    StoresSpliceNext(t, p, q, i, j, b, v0, v1, x);
    StoresSplicePrev(t, p, q, i, j, b, v0, v1, x);
    StoresSpliceRest(t, p, q, i, j, b, v0, v1, x);
    SameLink(Stores(t, p, q, i, j, b, v0, v1)[x], Spliced(t, p, q, i, j, v0, v1)[x]);
  }

  /** Carried out in this order, the stores are the splice, also when p and q are
      neighbours or the same position. */
  lemma StoresSplice(t: Table, p: int, q: int, i: int, j: int, b: int, v0: int, v1: int)
    requires 0 <= p < |t| && 0 <= q < |t| && 0 <= i < |t| && 0 <= j < |t| && 0 <= b < |t|
    requires 0 <= t[p].next < |t|
    requires b == BeforeCopy(t, p, q, i) && p != i && p != j && q != i && q != j && i != j
    requires t[p].next != i && t[p].next != j && t[q].prev != i && t[q].prev != j
    requires t[q].prev == p ==> t[p].next == q
    ensures Stores(t, p, q, i, j, b, v0, v1) == Spliced(t, p, q, i, j, v0, v1)
  {
    forall x | 0 <= x < |t|
      ensures Stores(t, p, q, i, j, b, v0, v1)[x] == Spliced(t, p, q, i, j, v0, v1)[x]
    {
      StoresSpliceAt(t, p, q, i, j, b, v0, v1, x);
    }
  }
}
