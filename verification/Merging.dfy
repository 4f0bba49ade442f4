/** The merge pass along a newly threaded segment: which trapezoids it may still merge,
    why it never meets one it has already absorbed, and what it does to searches. */
module Merging {
  import opened Plane
  import opened Trapezoids
  import opened QueryStructure
  import opened QuerySteps

  datatype MergeSide = OnLeft | OnRight

  /** Does the trapezoid flank the segment on this side of it? */
  predicate Carries(t: Trap, side: MergeSide, segnum: int) {
    if side == OnLeft then t.rseg == segnum else t.lseg == segnum
  }

  function Other(side: MergeSide): MergeSide { if side == OnLeft then OnRight else OnLeft }

  /** Trapezoid k is valid, and only one node leads to its sink, one of this insertion. */
  ghost predicate FreshAt(Q: Query, H: History, since: int, k: int)
    requires 0 <= k < |Q.tr| && |Q.qs| == |H.born|
  {
    && Q.tr[k].state == Valid && SingleParent(Q, Q.tr[k].sink)
    && since <= H.born[Q.qs[Q.tr[k].sink].parent]
  }

  ghost predicate AllFresh(Q: Query, H: History, side: MergeSide, segnum: int, since: int) {
    && Q.trIdx <= |Q.tr| && |Q.qs| == |H.born|
    && forall k {:trigger FreshAt(Q, H, since, k)} ::
         0 < k < Q.trIdx && Carries(Q.tr[k], side, segnum) ==> FreshAt(Q, H, since, k)
  }

  /** So are at least the flanking trapezoids that reach further down than `lo`. */
  ghost predicate FreshBelow(Q: Query, H: History, side: MergeSide, segnum: int, since: int, lo: Point) {
    && Q.trIdx <= |Q.tr| && |Q.qs| == |H.born|
    && forall k {:trigger FreshAt(Q, H, since, k)} ::
         0 < k < Q.trIdx && Carries(Q.tr[k], side, segnum) && GreaterThan(lo, Q.tr[k].lo) ==> FreshAt(Q, H, since, k)
  }

  ghost predicate NoneCarriesBoth(Q: Query, segnum: int) {
    Q.trIdx <= |Q.tr| && forall k :: 0 < k < Q.trIdx ==> !(Q.tr[k].lseg == segnum && Q.tr[k].rseg == segnum)
  }

  /** b reaches further down than a, and no further up. */
  predicate Lower(b: Trap, a: Trap) { GreaterThan(a.lo, b.lo) && a.hi.y >= b.hi.y }

  predicate DownAt(tr: seq<Trap>, trIdx: int, k: int)
    requires 0 <= k < |tr|
  {
    && (0 < tr[k].d0 ==> tr[k].d0 < trIdx <= |tr| && Lower(tr[tr[k].d0], tr[k]))
    && (0 < tr[k].d1 ==> tr[k].d1 < trIdx <= |tr| && Lower(tr[tr[k].d1], tr[k]))
  }

  /** The links down lead to trapezoids that reach further down, and no further up. */
  ghost predicate Descending(tr: seq<Trap>, trIdx: int) {
    trIdx <= |tr| && forall k {:trigger DownAt(tr, trIdx, k)} :: 0 < k < trIdx ==> DownAt(tr, trIdx, k)
  }

  /** Trapezoid rows after n was merged into t. */
  ghost predicate RowsMerged(Q: Query, R: Query, t: int, n: int) {
    && 0 < t < Q.trIdx == R.trIdx <= |Q.tr| == |R.tr| && 0 < n < Q.trIdx
    && R.tr[t].lo == Q.tr[n].lo && R.tr[t].d0 == Q.tr[n].d0 && R.tr[t].d1 == Q.tr[n].d1
    && (forall k :: 0 < k < Q.trIdx ==>
          R.tr[k].lseg == Q.tr[k].lseg && R.tr[k].rseg == Q.tr[k].rseg && R.tr[k].hi == Q.tr[k].hi)
    && (forall k :: 0 < k < Q.trIdx && k != t ==>
          R.tr[k].lo == Q.tr[k].lo && R.tr[k].d0 == Q.tr[k].d0 && R.tr[k].d1 == Q.tr[k].d1)
  }

  lemma MergeKeepsFresh(Q: Query, R: Query, H: History, root: int, t: int, n: int, since: int, k: int)
    requires WellFormed(Q, H, root) && Merged(Q, R, t, n) && 0 < k < Q.trIdx && k != t && k != n
    requires FreshAt(Q, H, since, k)
    ensures FreshAt(R, H, since, k)
  {
    assert TrapOk(Q, H, k) && TrapOk(Q, H, t) && TrapOk(Q, H, n);
    var s := Q.tr[k].sink;
    forall x | 0 < x < R.qIdx && Leads(R, x, s) ensures x == R.qs[s].parent { assert Leads(Q, x, s); }
  }

  lemma MergeKeepsFreshBelow(Q: Query, R: Query, H: History, root: int, t: int, n: int, side: MergeSide,
                             segnum: int, since: int)
    requires WellFormed(Q, H, root) && Merged(Q, R, t, n) && RowsMerged(Q, R, t, n)
    requires FreshBelow(Q, H, side, segnum, since, Q.tr[t].lo) && GreaterThan(Q.tr[t].lo, Q.tr[n].lo)
    ensures FreshBelow(R, H, side, segnum, since, R.tr[t].lo)
  {
    forall k | 0 < k < R.trIdx && Carries(R.tr[k], side, segnum) && GreaterThan(R.tr[t].lo, R.tr[k].lo)
      ensures FreshAt(R, H, since, k)
    {
      assert FreshAt(Q, H, since, k);
      MergeKeepsFresh(Q, R, H, root, t, n, since, k);
    }
  }

  lemma MergeKeepsOtherSide(Q: Query, R: Query, H: History, root: int, t: int, n: int, side: MergeSide,
                            segnum: int, since: int)
    requires WellFormed(Q, H, root) && Merged(Q, R, t, n) && RowsMerged(Q, R, t, n)
    requires Carries(Q.tr[t], side, segnum) && Carries(Q.tr[n], side, segnum) && NoneCarriesBoth(Q, segnum)
    ensures NoneCarriesBoth(R, segnum)
    ensures AllFresh(Q, H, Other(side), segnum, since) ==> AllFresh(R, H, Other(side), segnum, since)
  {
    if AllFresh(Q, H, Other(side), segnum, since) {
      forall k | 0 < k < R.trIdx && Carries(R.tr[k], Other(side), segnum) ensures FreshAt(R, H, since, k) {
        assert FreshAt(Q, H, since, k);
        MergeKeepsFresh(Q, R, H, root, t, n, since, k);
      }
    }
  }

  lemma MergeKeepsDescending(Q: Query, R: Query, t: int, n: int)
    requires RowsMerged(Q, R, t, n) && Descending(Q.tr, Q.trIdx) && Lower(Q.tr[n], Q.tr[t])
    ensures Descending(R.tr, R.trIdx)
  {
    forall k | 0 < k < R.trIdx ensures DownAt(R.tr, R.trIdx, k) {
      assert DownAt(Q.tr, Q.trIdx, k) && DownAt(Q.tr, Q.trIdx, n);
    }
  }

  // ------------------------------------------------------------ what the pass leaves

  /** The trapezoid below t the pass looks at. */
  function NextDown(tr: seq<Trap>, t: int, side: MergeSide, segnum: int): int {
    var d := TrapAt(tr, t).d0;
    if d > 0 && Carries(TrapAt(tr, d), side, segnum) then d else TrapAt(tr, t).d1
  }

  /** t and the trapezoid below it are good neighbours. */
  predicate Mergeable(tr: seq<Trap>, t: int, side: MergeSide, segnum: int) {
    var n := NextDown(tr, t, side, segnum);
    && n > 0 && Carries(TrapAt(tr, n), side, segnum)
    && TrapAt(tr, t).lseg == TrapAt(tr, n).lseg && TrapAt(tr, t).rseg == TrapAt(tr, n).rseg
  }

  /** The trapezoids the pass has come past, down to t: none could be merged any more. */
  ghost predicate TrailAt(Q: Query, seen: seq<int>, side: MergeSide, segnum: int, t: int) {
    && seen != [] && seen[|seen| - 1] == t && t < Q.trIdx <= |Q.tr|
    && forall k {:trigger PassedAt(Q, seen, side, segnum, t, k)} ::
         0 <= k < |seen| - 1 ==> PassedAt(Q, seen, side, segnum, t, k)
  }

  predicate PassedAt(Q: Query, seen: seq<int>, side: MergeSide, segnum: int, t: int, k: nat)
    requires k + 1 < |seen| && t < Q.trIdx <= |Q.tr|
  {
    && 0 < seen[k] < Q.trIdx && (0 < t ==> GreaterThan(Q.tr[seen[k]].lo, Q.tr[t].lo))
    && seen[k + 1] == NextDown(Q.tr, seen[k], side, segnum) && !Mergeable(Q.tr, seen[k], side, segnum)
  }

  lemma TrailGoesOn(Q: Query, seen: seq<int>, side: MergeSide, segnum: int, t: int)
    requires TrailAt(Q, seen, side, segnum, t) && 0 < t && !Mergeable(Q.tr, t, side, segnum)
    requires DownAt(Q.tr, Q.trIdx, t)
    ensures var n := NextDown(Q.tr, t, side, segnum); TrailAt(Q, seen + [n], side, segnum, n)
  {
    var n := NextDown(Q.tr, t, side, segnum);
    forall k | 0 <= k < |seen| ensures PassedAt(Q, seen + [n], side, segnum, n, k) {
      assert k < |seen| - 1 ==> PassedAt(Q, seen, side, segnum, t, k);
    }
  }

  /** A merge into the last of the trail changes nothing above it. */
  lemma TrailSurvives(Q: Query, R: Query, seen: seq<int>, side: MergeSide, segnum: int, t: int, n: int)
    requires TrailAt(Q, seen, side, segnum, t) && RowsMerged(Q, R, t, n)
    requires GreaterThan(Q.tr[t].lo, Q.tr[n].lo)
    requires forall k :: 0 < k < Q.trIdx ==> Q.tr[k].d0 < Q.trIdx && Q.tr[k].d1 < Q.trIdx
    ensures TrailAt(R, seen, side, segnum, t)
  {
    forall k | 0 <= k < |seen| - 1 ensures PassedAt(R, seen, side, segnum, t, k) {
      assert PassedAt(Q, seen, side, segnum, t, k);
      var x := seen[k];
      assert x != t && R.tr[x].d0 == Q.tr[x].d0 && R.tr[x].d1 == Q.tr[x].d1;
      assert NextDown(R.tr, x, side, segnum) == NextDown(Q.tr, x, side, segnum);
    }
  }

  // ------------------------------------------------------------ the pass ends

  ghost function Below(tr: seq<Trap>, trIdx: int, lo: Point): set<int> {
    set k | 0 < k < trIdx && k < |tr| && GreaterThan(lo, tr[k].lo)
  }

  lemma BelowIsBounded(tr: seq<Trap>, trIdx: int, lo: Point)
    ensures |Below(tr, trIdx, lo)| <= if trIdx < 0 then 0 else trIdx
  {
    SubsetOf(Below(tr, trIdx, lo), FirstRows(if trIdx < 0 then 0 else trIdx));
  }

  function FirstRows(n: nat): (r: set<int>)
    ensures |r| == n && forall k :: k in r <==> 0 <= k < n
  {
    if n == 0 then {} else FirstRows(n - 1) + {n - 1}
  }

  lemma SubsetOf(A: set<int>, B: set<int>)
    requires A <= B
    ensures |A| <= |B|
  {
    assert B == A + (B - A);
  }

  lemma BelowShrinks(Q: Query, R: Query, t: int, n: int)
    requires RowsMerged(Q, R, t, n) && t != n && GreaterThan(Q.tr[t].lo, Q.tr[n].lo)
    ensures |Below(R.tr, R.trIdx, R.tr[t].lo)| < |Below(Q.tr, Q.trIdx, Q.tr[t].lo)|
  {
    SmallerBelow(Below(R.tr, R.trIdx, R.tr[t].lo), Below(Q.tr, Q.trIdx, Q.tr[t].lo), n);
  }

  lemma BelowStepsDown(tr: seq<Trap>, trIdx: int, t: int, n: int)
    requires 0 < t < trIdx <= |tr| && 0 < n < trIdx && GreaterThan(tr[t].lo, tr[n].lo)
    ensures |Below(tr, trIdx, tr[n].lo)| < |Below(tr, trIdx, tr[t].lo)|
  {
    SmallerBelow(Below(tr, trIdx, tr[n].lo), Below(tr, trIdx, tr[t].lo), n);
  }

  lemma SmallerBelow(A: set<int>, B: set<int>, n: int)
    requires A <= B && n in B && n !in A
    ensures |A| < |B|
  {
    assert B == A + {n} + (B - A - {n});
    assert |A + {n}| == |A| + 1;
  }

  // ------------------------------------------------------------ searches across a pass

  /** Where each trapezoid's area went: into itself, or into the one that absorbed it. */
  ghost predicate Absorbs(Q: Query, R: Query, into: seq<int>, side: MergeSide, segnum: int) {
    && Q.trIdx == R.trIdx <= |Q.tr| == |R.tr| && |into| == Q.trIdx
    && forall k :: 0 < k < |into| ==> AbsorbedAt(Q, R, into, side, segnum, k)
  }

  predicate AbsorbedAt(Q: Query, R: Query, into: seq<int>, side: MergeSide, segnum: int, k: int)
    requires 0 < k < |into| <= |Q.tr| == |R.tr|
  {
    && 0 < into[k] < |into|
    && R.tr[into[k]].lseg == Q.tr[k].lseg && R.tr[into[k]].rseg == Q.tr[k].rseg
    && (into[k] != k ==> Carries(Q.tr[k], side, segnum) && R.tr[k].state == Invalid)
    && (Q.tr[k].state == Invalid ==> R.tr[k].state == Invalid)
    && R.tr[k].hi == Q.tr[k].hi && R.tr[k].lseg == Q.tr[k].lseg && R.tr[k].rseg == Q.tr[k].rseg
  }

  /** Every search now ends where the trapezoid it used to end in went. */
  ghost predicate SearchesFollow(Q: Query, R: Query, H: History, root: int, ends: seq<Ends>, into: seq<int>)
    requires WellFormed(Q, H, root) && WellFormed(R, H, root) && |into| == Q.trIdx
  {
    forall v, vo :: Locate(R, H, root, ends, root, v, vo) == into[Locate(Q, H, root, ends, root, v, vo)]
  }

  function AbsorbOne(into: seq<int>, t: int, n: int): (r: seq<int>)
    ensures |r| == |into|
  {
    seq(|into|, k requires 0 <= k < |into| => if into[k] == n then t else into[k])
  }

  lemma AbsorbStep(Q: Query, R: Query, S: Query, into: seq<int>, side: MergeSide, segnum: int, t: int, n: int)
    requires Absorbs(Q, R, into, side, segnum) && RowsMerged(R, S, t, n) && S.tr[n].state == Invalid
    requires forall k :: 0 < k < R.trIdx && k != n ==> S.tr[k].state == R.tr[k].state
    requires Carries(R.tr[n], side, segnum) && R.tr[t].lseg == R.tr[n].lseg && R.tr[t].rseg == R.tr[n].rseg
    ensures Absorbs(Q, S, AbsorbOne(into, t, n), side, segnum)
  {
    forall k | 0 < k < |into| ensures AbsorbedAt(Q, S, AbsorbOne(into, t, n), side, segnum, k) {
      assert AbsorbedAt(Q, R, into, side, segnum, k);
    }
  }

  lemma FollowStep(Q: Query, R: Query, S: Query, H: History, root: int, ends: seq<Ends>, into: seq<int>,
                   t: int, n: int)
    requires WellFormed(Q, H, root) && WellFormed(R, H, root) && WellFormed(S, H, root) && |into| == Q.trIdx
    requires SearchesFollow(Q, R, H, root, ends, into) && Merged(R, S, t, n)
    ensures SearchesFollow(Q, S, H, root, ends, AbsorbOne(into, t, n))
  {
    forall v, vo
      ensures Locate(S, H, root, ends, root, v, vo) == AbsorbOne(into, t, n)[Locate(Q, H, root, ends, root, v, vo)]
    {
      MergeRedirectsSearch(R, S, H, root, t, n, ends, root, v, vo);
    }
  }
}
