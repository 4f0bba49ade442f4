/** Inserting one segment after another: what holds between insertions, and that it
    survives the splits of one insertion and its merges. */
module Insertion {
  import opened Plane
  import opened Trapezoids
  import opened QueryStructure
  import opened QuerySteps
  import opened Merging

  function EndsOf(seg: seq<Segment>): (e: seq<Ends>)
    ensures |e| == |seg|
  {
    seq(|seg|, k requires 0 <= k < |seg| => Ends(seg[k].v0, seg[k].v1))
  }

  /** Both of the segment's cached roots lie on the search path of their end point, behind
      nodes split before `since` only. */
  ghost predicate RootsPassed(Q: Query, H: History, root: int, ends: seq<Ends>, since: int, s: Segment)
    requires WellFormed(Q, H, root)
  {
    && Passes(Q, H, root, ends, since, root, s.root0, s.v0, s.v1)
    && Passes(Q, H, root, ends, since, root, s.root1, s.v1, s.v0)
  }

  /** So do those of all segments still to be inserted. */
  ghost predicate CachesGood(Q: Query, H: History, root: int, since: int, seg: seq<Segment>, nseg: int) {
    && WellFormed(Q, H, root) && since <= H.clock && nseg < |seg|
    && forall i :: 1 <= i <= nseg && !seg[i].isInserted ==> RootsPassed(Q, H, root, EndsOf(seg), since, seg[i])
  }

  lemma CachedSearchIsPlainSearch(Q: Query, H: History, root: int, since: int, seg: seq<Segment>, nseg: int, i: int)
    requires CachesGood(Q, H, root, since, seg, nseg) && 1 <= i <= nseg && !seg[i].isInserted
    ensures var s, ends := seg[i], EndsOf(seg);
            && InUse(Q, s.root0) && InUse(Q, s.root1)
            && Locate(Q, H, root, ends, s.root0, s.v0, s.v1) == Locate(Q, H, root, ends, root, s.v0, s.v1)
            && Locate(Q, H, root, ends, s.root1, s.v1, s.v0) == Locate(Q, H, root, ends, root, s.v1, s.v0)
  {
    var s, ends := seg[i], EndsOf(seg);
    assert RootsPassed(Q, H, root, ends, since, s);
    PassingIsEnough(Q, H, root, ends, since, root, s.root0, s.v0, s.v1);
    PassingIsEnough(Q, H, root, ends, since, root, s.root1, s.v1, s.v0);
  }

  lemma ExpandKeepsCaches(Q: Query, R: Query, H: History, root: int, t: int, since: int, seg: seq<Segment>, nseg: int)
    requires CachesGood(Q, H, root, since, seg, nseg) && Expanded(Q, R, t)
    ensures CachesGood(R, Tick(H, Q.tr[t].sink), root, since, seg, nseg)
  {
    ExpandKeepsStructure(Q, R, H, root, t);
    forall i | 1 <= i <= nseg && !seg[i].isInserted
      ensures RootsPassed(R, Tick(H, Q.tr[t].sink), root, EndsOf(seg), since, seg[i])
    {
      var s := seg[i];
      assert RootsPassed(Q, H, root, EndsOf(seg), since, s);
      ExpandKeepsPassing(Q, R, H, root, t, EndsOf(seg), since, root, s.root0, s.v0, s.v1);
      ExpandKeepsPassing(Q, R, H, root, t, EndsOf(seg), since, root, s.root1, s.v1, s.v0);
    }
  }

  lemma MergeKeepsCaches(Q: Query, R: Query, H: History, root: int, t: int, n: int, since: int,
                         seg: seq<Segment>, nseg: int)
    requires CachesGood(Q, H, root, since, seg, nseg) && Merged(Q, R, t, n)
    requires since <= H.born[Q.qs[Q.tr[n].sink].parent]
    ensures CachesGood(R, H, root, since, seg, nseg)
  {
    MergeKeepsStructure(Q, R, H, root, t, n);
    forall i | 1 <= i <= nseg && !seg[i].isInserted
      ensures RootsPassed(R, H, root, EndsOf(seg), since, seg[i])
    {
      var s := seg[i];
      assert RootsPassed(Q, H, root, EndsOf(seg), since, s);
      MergeKeepsPassing(Q, R, H, root, t, n, EndsOf(seg), since, root, s.root0, s.v0, s.v1);
      MergeKeepsPassing(Q, R, H, root, t, n, EndsOf(seg), since, root, s.root1, s.v1, s.v0);
    }
  }

  /** A node counts as old for a later insertion too. */
  lemma {:induction false} PassesLater(Q: Query, H: History, root: int, ends: seq<Ends>, since: int, later: int,
                                       x: int, r: int, v: Point, vo: Point)
    requires WellFormed(Q, H, root) && InUse(Q, x) && since <= later
    requires Passes(Q, H, root, ends, since, x, r, v, vo)
    ensures Passes(Q, H, root, ends, later, x, r, v, vo)
    decreases Height(Q, H, x)
  {
    if x != r { PassesLater(Q, H, root, ends, since, later, Next(Q, ends, x, v, vo), r, v, vo); }
  }

  /** A new insertion starts: the caches are good for it, whichever segment it is. */
  lemma CachesGoodLater(Q: Query, H: History, root: int, since: int, seg: seq<Segment>, nseg: int,
                        later: seq<Segment>)
    requires CachesGood(Q, H, root, since, seg, nseg) && |later| == |seg|
    requires forall i :: 0 <= i < |seg| ==> later[i] == seg[i] || later[i] == seg[i].(isInserted := true)
    ensures CachesGood(Q, H, root, H.clock, later, nseg)
  {
    assert EndsOf(later) == EndsOf(seg);
    forall i | 1 <= i <= nseg && !later[i].isInserted
      ensures RootsPassed(Q, H, root, EndsOf(later), H.clock, later[i])
    {
      var s := seg[i];
      assert RootsPassed(Q, H, root, EndsOf(seg), since, s);
      PassesLater(Q, H, root, EndsOf(seg), since, H.clock, root, s.root0, s.v0, s.v1);
      PassesLater(Q, H, root, EndsOf(seg), since, H.clock, root, s.root1, s.v1, s.v0);
    }
  }

  // ------------------------------------------------------------ which segments flank trapezoids

  predicate Known(seg: seq<Segment>, current: int, s: int) {
    s > 0 ==> s == current || (s < |seg| && seg[s].isInserted)
  }

  /** Only inserted segments, and the one being inserted, flank trapezoids. */
  ghost predicate FlanksKnown(Q: Query, seg: seq<Segment>, current: int) {
    && Q.trIdx <= |Q.tr|
    && forall k :: 0 < k < Q.trIdx ==> Known(seg, current, Q.tr[k].lseg) && Known(seg, current, Q.tr[k].rseg)
  }

  /** No link down leads past the rows in use. */
  ghost predicate LinksInRange(Q: Query) {
    Q.trIdx <= |Q.tr| && forall k :: 0 < k < Q.trIdx ==> Q.tr[k].d0 < Q.trIdx && Q.tr[k].d1 < Q.trIdx
  }

  // ------------------------------------------------------------ cutting along a segment

  /** Rows after trapezoid t was cut by the segment: left part t, right part tn. */
  ghost predicate RowsCut(Q: Query, R: Query, t: int, segnum: int) {
    && 0 < t < Q.trIdx < |Q.tr| == |R.tr| && R.trIdx == Q.trIdx + 1
    && R.tr[t].rseg == segnum && R.tr[t].lseg == Q.tr[t].lseg && R.tr[t].hi == Q.tr[t].hi && R.tr[t].lo == Q.tr[t].lo
    && R.tr[Q.trIdx].lseg == segnum && R.tr[Q.trIdx].rseg == Q.tr[t].rseg
    && R.tr[Q.trIdx].hi == Q.tr[t].hi && R.tr[Q.trIdx].lo == Q.tr[t].lo
    && (forall k :: 0 < k < Q.trIdx && k != t ==> SameButLinks(R.tr[k], Q.tr[k]))
  }

  predicate SameButLinks(a: Trap, b: Trap) { a.(u0 := b.u0, u1 := b.u1, d0 := b.d0, d1 := b.d1) == b }

  lemma CutKeepsFreshAt(Q: Query, R: Query, H: History, root: int, t: int, since: int, k: int)
    requires WellFormed(Q, H, root) && Expanded(Q, R, t) && 0 < k < R.trIdx && since <= H.clock
    requires k == t || k == Q.trIdx || FreshAt(Q, H, since, k)
    ensures FreshAt(R, Tick(H, Q.tr[t].sink), since, k)
  {
    assert TrapOk(Q, H, t);
    var s, H' := R.tr[k].sink, Tick(H, Q.tr[t].sink);
    if k != t && k != Q.trIdx { assert TrapOk(Q, H, k); }
    forall x | 0 < x < R.qIdx && Leads(R, x, s) ensures x == R.qs[s].parent {
      if x < Q.qIdx && x != Q.tr[t].sink {
        assert Leads(Q, x, s) && NodeOk(Q, H, x);
      }
    }
  }

  /** While the segment is being threaded, all trapezoids it flanks are fresh. */
  lemma CutKeepsFresh(Q: Query, R: Query, H: History, root: int, t: int, segnum: int, since: int)
    requires WellFormed(Q, H, root) && Expanded(Q, R, t) && RowsCut(Q, R, t, segnum) && since <= H.clock
    requires Q.tr[t].lseg != segnum && Q.tr[t].rseg != segnum && NoneCarriesBoth(Q, segnum)
    requires AllFresh(Q, H, OnLeft, segnum, since) && AllFresh(Q, H, OnRight, segnum, since)
    ensures NoneCarriesBoth(R, segnum)
    ensures AllFresh(R, Tick(H, Q.tr[t].sink), OnLeft, segnum, since)
    ensures AllFresh(R, Tick(H, Q.tr[t].sink), OnRight, segnum, since)
  {
    forall k | 0 < k < R.trIdx && (Carries(R.tr[k], OnLeft, segnum) || Carries(R.tr[k], OnRight, segnum))
      ensures FreshAt(R, Tick(H, Q.tr[t].sink), since, k)
    {
      assert k != t && k != Q.trIdx ==> FreshAt(Q, H, since, k);
      CutKeepsFreshAt(Q, R, H, root, t, since, k);
    }
  }

  /** Before anything is cut, no trapezoid is flanked by the new segment. */
  lemma NothingFlankedYet(Q: Query, H: History, seg: seq<Segment>, segnum: int, since: int)
    requires FlanksKnown(Q, seg, 0) && 0 < segnum < |seg| && !seg[segnum].isInserted && |Q.qs| == |H.born|
    ensures AllFresh(Q, H, OnLeft, segnum, since) && AllFresh(Q, H, OnRight, segnum, since)
    ensures NoneCarriesBoth(Q, segnum)
  {
  }

  // ------------------------------------------------------------ searches across the cuts

  /** Where a search that ended in trapezoid k ends once the trapezoids of `walk` are cut,
      the right parts being numbered from `first` on. */
  function CutPart(ends: seq<Ends>, segnum: int, walk: seq<int>, first: int, k: int, v: Point, vo: Point): int {
    if walk == [] then k
    else if k == walk[|walk| - 1] && GoesRight(ends, Node(XNode, segnum, ORIGIN, 0, 0, 0, 0), v, vo)
    then first + |walk| - 1
    else CutPart(ends, segnum, walk[..|walk| - 1], first, k, v, vo)
  }

  ghost predicate SearchesCut(Q: Query, HQ: History, R: Query, HR: History, root: int, ends: seq<Ends>,
                              segnum: int, walk: seq<int>)
    requires WellFormed(Q, HQ, root) && WellFormed(R, HR, root)
  {
    forall v, vo :: Locate(R, HR, root, ends, root, v, vo)
                 == CutPart(ends, segnum, walk, Q.trIdx, Locate(Q, HQ, root, ends, root, v, vo), v, vo)
  }

  lemma {:induction false} CutPartOld(ends: seq<Ends>, segnum: int, walk: seq<int>, first: int, k: int, t: int,
                                      v: Point, vo: Point)
    requires t < first && t !in walk
    ensures CutPart(ends, segnum, walk, first, k, v, vo) == t <==> k == t
  {
    if walk != [] { CutPartOld(ends, segnum, walk[..|walk| - 1], first, k, t, v, vo); }
  }

  lemma {:induction false} CutPartSelf(ends: seq<Ends>, segnum: int, walk: seq<int>, first: int, t: int,
                                       v: Point, vo: Point)
    requires t !in walk
    ensures CutPart(ends, segnum, walk, first, t, v, vo) == t
  {
    if walk != [] { CutPartSelf(ends, segnum, walk[..|walk| - 1], first, t, v, vo); }
  }

  /** One more cut: searches that ended in t are told apart by the segment, all others end
      where they did. */
  lemma CutStep(Q: Query, HQ: History, R: Query, S: Query, HR: History, root: int, ends: seq<Ends>,
                segnum: int, walk: seq<int>, t: int)
    requires WellFormed(Q, HQ, root) && WellFormed(R, HR, root) && Expanded(R, S, t)
    requires WellFormed(S, Tick(HR, R.tr[t].sink), root)
    requires SearchesCut(Q, HQ, R, HR, root, ends, segnum, walk)
    requires t < Q.trIdx && t !in walk && R.trIdx == Q.trIdx + |walk|
    requires S.qs[R.tr[t].sink].kind == XNode && S.qs[R.tr[t].sink].segnum == segnum
    ensures SearchesCut(Q, HQ, S, Tick(HR, R.tr[t].sink), root, ends, segnum, walk + [t])
  {
    var H', longer := Tick(HR, R.tr[t].sink), walk + [t];
    assert longer[..|longer| - 1] == walk;
    forall v, vo ensures Locate(S, H', root, ends, root, v, vo)
        == CutPart(ends, segnum, longer, Q.trIdx, Locate(Q, HQ, root, ends, root, v, vo), v, vo)
    {
      var k := Locate(Q, HQ, root, ends, root, v, vo);
      ExpandRefinesSearch(R, S, HR, root, t, ends, root, v, vo);
      CutPartOld(ends, segnum, walk, Q.trIdx, k, t, v, vo);
      CutPartSelf(ends, segnum, walk, Q.trIdx, t, v, vo);
    }
  }

  // ------------------------------------------------------------ the merge pass

  /** Where a merge pass on one side of the segment, begun in Q, stands at trapezoid t. */
  ghost predicate PassAt(Q: Query, R: Query, H: History, root: int, ends: seq<Ends>, since: int,
                         side: MergeSide, segnum: int, t: int, into: seq<int>) {
    && WellFormed(Q, H, root) && WellFormed(R, H, root)
    && Descending(R.tr, R.trIdx) && NoneCarriesBoth(R, segnum)
    && (AllFresh(Q, H, Other(side), segnum, since) ==> AllFresh(R, H, Other(side), segnum, since))
    && Absorbs(Q, R, into, side, segnum) && SearchesFollow(Q, R, H, root, ends, into)
    && (0 < t ==> && t < R.trIdx && (Carries(R.tr[t], side, segnum) ==> R.tr[t].state == Valid)
                  && FreshBelow(R, H, side, segnum, since, R.tr[t].lo))
  }

  lemma PassBegins(Q: Query, H: History, root: int, ends: seq<Ends>, since: int, side: MergeSide, segnum: int, t: int)
    requires WellFormed(Q, H, root) && Descending(Q.tr, Q.trIdx) && NoneCarriesBoth(Q, segnum)
    requires AllFresh(Q, H, side, segnum, since) && t < Q.trIdx
    ensures PassAt(Q, Q, H, root, ends, since, side, segnum, t, seq(Q.trIdx, k => k))
  {
    var into := seq(Q.trIdx, k => k);
    assert forall k :: 0 < k < |into| ==> into[k] == k;
    if 0 < t { assert Carries(Q.tr[t], side, segnum) ==> FreshAt(Q, H, since, t); }
  }

  /** Moving on to the trapezoid below. */
  lemma PassMoves(Q: Query, R: Query, H: History, root: int, ends: seq<Ends>, since: int,
                  side: MergeSide, segnum: int, t: int, into: seq<int>, n: int)
    requires PassAt(Q, R, H, root, ends, since, side, segnum, t, into) && 0 < t
    requires n == R.tr[t].d0 || n == R.tr[t].d1
    ensures PassAt(Q, R, H, root, ends, since, side, segnum, n, into)
    ensures 0 < n ==> |Below(R.tr, R.trIdx, R.tr[n].lo)| < |Below(R.tr, R.trIdx, R.tr[t].lo)|
  {
    assert DownAt(R.tr, R.trIdx, t);
    if 0 < n {
      BelowStepsDown(R.tr, R.trIdx, t, n);
      assert Carries(R.tr[n], side, segnum) ==> FreshAt(R, H, since, n);
    }
  }

  /** The trapezoid below is a good neighbour: it is valid, was not merged before, and only
      this insertion's nodes lead to it. */
  lemma PassMayMerge(Q: Query, R: Query, H: History, root: int, ends: seq<Ends>, since: int,
                     side: MergeSide, segnum: int, t: int, into: seq<int>, n: int)
    requires PassAt(Q, R, H, root, ends, since, side, segnum, t, into) && 0 < t
    requires 0 < n < R.trIdx && (n == R.tr[t].d0 || n == R.tr[t].d1)
    requires Carries(R.tr[n], side, segnum) && R.tr[t].lseg == R.tr[n].lseg && R.tr[t].rseg == R.tr[n].rseg
    ensures t != n && Lower(R.tr[n], R.tr[t])
    ensures R.tr[t].state == Valid && FreshAt(R, H, since, n)
    ensures TrapOk(R, H, t) && TrapOk(R, H, n) && DownAt(R.tr, R.trIdx, n)
  {
    assert DownAt(R.tr, R.trIdx, t);
    assert FreshAt(R, H, since, n);
  }

  lemma PassMerges(Q: Query, R: Query, S: Query, H: History, root: int, ends: seq<Ends>, since: int,
                   side: MergeSide, segnum: int, t: int, into: seq<int>, n: int)
    requires PassAt(Q, R, H, root, ends, since, side, segnum, t, into)
    requires Merged(R, S, t, n) && RowsMerged(R, S, t, n) && Lower(R.tr[n], R.tr[t])
    requires Carries(R.tr[n], side, segnum) && R.tr[t].lseg == R.tr[n].lseg && R.tr[t].rseg == R.tr[n].rseg
    ensures PassAt(Q, S, H, root, ends, since, side, segnum, t, AbsorbOne(into, t, n))
    ensures |Below(S.tr, S.trIdx, S.tr[t].lo)| < |Below(R.tr, R.trIdx, R.tr[t].lo)|
  {
    MergeKeepsStructure(R, S, H, root, t, n);
    MergeKeepsDescending(R, S, t, n);
    MergeKeepsOtherSide(R, S, H, root, t, n, side, segnum, since);
    MergeKeepsFreshBelow(R, S, H, root, t, n, side, segnum, since);
    AbsorbStep(Q, R, S, into, side, segnum, t, n);
    FollowStep(Q, R, S, H, root, ends, into, t, n);
    BelowShrinks(R, S, t, n);
  }
}
