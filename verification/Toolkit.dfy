/** The widget toolkit's operations on the tree and on the animation stack. */
module Toolkit {
  import opened Sequences
  import opened Widgets
  import opened Motions

  const MAXANI := 128

  class Toolkit {
    var widgets: Pool
    var motion: seq<Motion>     // where each widget is shown, and where it is to be
    const aniS: array<int>      // the animation stack
    var aniN: int
    var animationOn: bool
    ghost var rank: seq<nat>
    ghost var height: nat

    /** The stack holds live widgets, each once. */
    ghost predicate StackOk()
      reads this, aniS
    {
      0 <= aniN <= aniS.Length && Distinct(aniS[..aniN]) && forall i :: 0 <= i < aniN ==> Live(widgets, aniS[i])
    }

    /** A forest of widgets, those of `open` being deleted. */
    ghost predicate Sound(open: set<int>)
      reads this, aniS
    {
      && Tree(widgets, rank, open) && StackOk()
      && |motion| == |widgets| && forall x :: 0 <= x < |rank| ==> rank[x] < height
    }

    ghost predicate Valid()
      reads this, aniS
    {
      Sound({})
    }

    constructor ()
      ensures Valid() && fresh(aniS) && widgets == [] && aniN == 0 && !animationOn
    {
      widgets, motion, aniN, animationOn := [], [], 0, false;
      aniS := new int[MAXANI](_ => 0);
      rank, height := [], 0;
    }

    /** A new widget, not in any other. */
    method WidgetNew() returns (w: int)
      requires Valid()
      modifies `widgets, `motion, `rank, `height
      ensures Valid() && w == |old(widgets)| && widgets == old(widgets) + [Widget(true, -1, [], -1)]
      ensures motion == old(motion) + [AT_REST]
    {
      w := |widgets|;
      ghost var W, r := widgets, rank;
      widgets, motion := widgets + [Widget(true, -1, [], -1)], motion + [AT_REST];
      rank, height := rank + [0], height + 1;
      forall x | Live(widgets, x) ensures KidsOk(widgets, rank, {}, x) && ParentOk(widgets, rank, {}, x) {
        if x < w {
          assert KidsOk(W, r, {}, x) && ParentOk(W, r, {}, x);
          forall i | 0 <= i < |W[x].pobj| ensures KidAt(widgets, rank, {}, x, widgets[x].pobj[i]) {
            assert KidAt(W, r, {}, x, W[x].pobj[i]);
          }
        }
      }
    }

    /** Append a widget, one that is in no other yet, to a parent that is not in it. */
    method WidgetAppend(p: int, w: int)
      requires Valid() && Live(widgets, p) && Live(widgets, w) && widgets[w].parent == -1
      requires !Under(Parents(widgets), rank, p, w)
      modifies `widgets, `rank, `height
      ensures Valid()
      ensures widgets == old(widgets)[p := old(widgets)[p].(pobj := old(widgets)[p].pobj + [w])]
                                     [w := old(widgets)[w].(parent := p)]
    {
      ghost var W, r := widgets, rank;
      assert p != w;
      widgets := widgets[p := widgets[p].(pobj := widgets[p].pobj + [w])];
      widgets := widgets[w := widgets[w].(parent := p)];
      rank := Raised(Parents(W), r, p, w);
      height := 2 * height + 1;
      AppendKeepsTree(W, widgets, r, p, w);
    }

    /** Give a widget the focus, relative to its parent. */
    method Focus(w: int)
      requires Valid() && Live(widgets, w) && widgets[w].parent != -1
      modifies `widgets
      ensures Valid()
      ensures var p := old(widgets)[w].parent;
              && 0 <= p < |widgets| && 0 <= widgets[p].focus < |widgets[p].pobj| && widgets[p].pobj[widgets[p].focus] == w
              && widgets == old(widgets)[p := old(widgets)[p].(focus := widgets[p].focus)]
    {
      ghost var W := widgets;
      assert ParentOk(W, rank, {}, w);
      var p := widgets[w].parent;
      var i := 0;
      while widgets[p].pobj[i] != w
        invariant 0 <= i < |W[p].pobj| && widgets == W
        invariant w in W[p].pobj[i..]
        decreases |W[p].pobj| - i
      {
        i := i + 1;
      }
      widgets := widgets[p := widgets[p].(focus := i)];
      FocusKeepsTree(W, widgets, rank, p);
    }

    // ---------------------------------------------------------- the animation stack

    /** Is the widget already on the stack, and where? */
    method AniStackpos(w: int) returns (i: int)
      requires StackOk()
      ensures if w in aniS[..aniN] then 0 <= i < aniN && aniS[i] == w else i == -1
    {
      i := 0;
      while i < aniN
        invariant 0 <= i <= aniN && w !in aniS[..i]
      {
        if aniS[i] == w { return i; }
        i := i + 1;
      }
      return -1;
    }

    /** Item i leaves the stack: the last one takes its place. */
    method AniDel(i: int)
      requires StackOk() && 0 <= i < aniN
      modifies `aniN, aniS
      ensures StackOk() && aniN == old(aniN) - 1
      ensures aniS[..aniN] == SwapRemoved(old(aniS[..aniN]), i)
      ensures forall x :: x in aniS[..aniN] <==> x in old(aniS[..aniN]) && x != old(aniS[i])
    {
      ghost var c := aniS[..aniN];
      SwapRemovedIs(c, i);
      aniN := aniN - 1;
      aniS[i] := aniS[aniN];
      assert aniS[..aniN] == SwapRemoved(c, i);
      assert forall j :: 0 <= j < aniN ==> aniS[j] in aniS[..aniN];
    }

    /** Add a widget to the stack, unless it is on it, and do its first step; without room or
        animation it is moved at once instead. Only the camera may be without an object. */
    method AniAdd(w: int, hasObject: bool)
      requires Valid() && Live(widgets, w)
      modifies `motion, `aniN, aniS
      ensures Valid()
      ensures !hasObject ==> motion == old(motion) && aniS[..aniN] == old(aniS[..aniN])
      ensures var room := old(aniN) < aniS.Length && animationOn; var was := old(motion)[w]; hasObject ==>
              && (forall x :: x in aniS[..aniN] <==> x in old(aniS[..aniN]) || (x == w && room))
              && motion == old(motion)[w := if !room then Finished(was)
                                            else if w in old(aniS[..aniN]) then was else Stepped(was)]
    {
      if !hasObject { return; }
      if aniN < aniS.Length && animationOn {
        var pos := AniStackpos(w);
        if pos != -1 { return; }         // already in list
        ghost var c := aniS[..aniN];
        aniS[aniN] := w;
        motion := motion[w := Stepped(motion[w])];
        aniN := aniN + 1;
        assert aniS[..aniN] == c + [w];
      } else {                           // no place, finish now
        AniFinish(w, -1);
      }
    }

    /** Finish the animation of a widget, and take it off stack index i if that is one. */
    method AniFinish(w: int, i: int)
      requires StackOk() && 0 <= w < |motion| && -1 <= i < aniN
      modifies `motion, `aniN, aniS
      ensures StackOk() && motion == old(motion)[w := Finished(old(motion)[w])]
      ensures if i == -1 then aniN == old(aniN) && aniS[..] == old(aniS[..])
              else aniN == old(aniN) - 1 && aniS[..aniN] == SwapRemoved(old(aniS[..aniN]), i)
    {
      motion := motion[w := Finished(motion[w])];
      if i != -1 { AniDel(i); }
    }

    /** One round of a pass over the stack that began with stack c and motions m. */
    ghost predicate RoundAt(c: seq<int>, m: seq<Motion>, i: int)
      reads this, aniS
    {
      && StackOk() && |m| == |motion| == |widgets| && 0 <= i <= aniN
      && (forall x :: x in aniS[..aniN] ==> x in c)
      && (forall x :: x in c ==> 0 <= x < |m|)
      && (forall x :: 0 <= x < |m| ==>
            motion[x] == if x in c && x !in aniS[i..aniN] then Moved(m[x]) else m[x])
      && (forall x :: x in c && x !in aniS[i..aniN] ==> (x in aniS[..i] <==> !Settled(Stepped(m[x]))))
    }

    /** One step of every animation, whatever is taken off the stack on the way: each widget
        on it is moved exactly once, and those that are where they are to be leave it. */
    method AniMate()
      requires Valid()
      modifies `motion, `aniN, `animationOn, aniS
      ensures Valid() && animationOn
      ensures forall x :: 0 <= x < |motion| ==>
                motion[x] == if x in old(aniS[..aniN]) then Moved(old(motion)[x]) else old(motion)[x]
      ensures forall x :: 0 <= x < |motion| ==>
                (x in aniS[..aniN] <==> x in old(aniS[..aniN]) && !Settled(Stepped(old(motion)[x])))
    {
      animationOn := true;               // animation is activated
      ghost var c, m := aniS[..aniN], motion;
      forall x | x in c ensures 0 <= x < |m| { var k :| 0 <= k < |c| && c[k] == x; }
      var i := 0;
      while i < aniN
        invariant RoundAt(c, m, i) && |m| == |old(motion)| && animationOn
        decreases aniN - i
      {
        i := AniRound(i, c, m);
      }
      assert aniS[..i] == aniS[..aniN];
    }

    method AniRound(i: int, ghost c: seq<int>, ghost m: seq<Motion>) returns (next: int)
      requires RoundAt(c, m, i) && i < aniN
      modifies `motion, `aniN, aniS
      ensures RoundAt(c, m, next) && aniN - next < old(aniN) - i
    {
      next := i;
      var f := aniS[i];
      ghost var S := aniS[..aniN];
      WhatIsAhead(S, i);
      assert S[i..] == aniS[i..aniN] && S[..i] == aniS[..i] && f in S;
      motion := motion[f := Stepped(motion[f])];
      if Settled(motion[f]) {
        AniFinish(f, next);
        next := next - 1;                // another widget moved here: its turn is next
        assert aniS[i..aniN] == SwapRemoved(S, i)[i..] && aniS[..i] == S[..i];
      } else {
        assert aniS[i + 1..aniN] == S[i + 1..] && aniS[..i + 1] == S[..i + 1];
      }
      next := next + 1;
    }

    // ---------------------------------------------------------- deleting

    /** Take a widget off the stack and out of its parent. */
    method WidgetRemove(w: int, ghost open: set<int>)
      requires Sound(open) && Live(widgets, w) && w !in open
      modifies `widgets, `aniN, aniS
      ensures Sound(open + {w})
      ensures widgets == var p := old(widgets)[w].parent;
                if p != -1 && Live(old(widgets), p) && w in old(widgets)[p].pobj
                then WithoutKid(old(widgets), p, w) else old(widgets)
      ensures old(widgets)[w].parent != -1 ==>
                Live(old(widgets), old(widgets)[w].parent) && w in old(widgets)[old(widgets)[w].parent].pobj
      ensures forall x :: x in aniS[..aniN] <==> x in old(aniS[..aniN]) && x != w
    {
      RemoveKeepsTree(widgets, rank, open, w);
      var parent := widgets[w].parent;
      OffStack(w);
      if parent == -1 { return; }
      assert KidsOk(widgets, rank, open, parent);
      OutOfParent(parent, w);
      forall k | 0 <= k < aniN ensures Live(widgets, aniS[k]) { assert aniS[k] in aniS[..aniN]; }
    }

    method OffStack(w: int)
      requires StackOk()
      modifies `aniN, aniS
      ensures StackOk()
      ensures forall x :: x in aniS[..aniN] <==> x in old(aniS[..aniN]) && x != w
    {
      var stackpos := AniStackpos(w);
      if stackpos != -1 { AniDel(stackpos); }
    }

    method OutOfParent(parent: int, w: int)
      requires 0 <= parent < |widgets| && w in widgets[parent].pobj && Distinct(widgets[parent].pobj)
      modifies `widgets
      ensures widgets == WithoutKid(old(widgets), parent, w)
    {
      ghost var W, c := widgets, widgets[parent].pobj;
      var i := 0;
      while i < |widgets[parent].pobj|              // search ...
        invariant 0 <= i && 0 <= parent < |widgets|
        invariant widgets == if w in c[..Least(i, |c|)] then WithoutKid(W, parent, w) else W
        decreases |c| - i
      {
        FoundNext(c, w, i);
        if widgets[parent].pobj[i] == w {            // ... and destroy
          DropKid(parent, i);
        }
        i := i + 1;
      }
      AllSearched(c, w, i);
    }

    /** Swap the last child to the one to be deleted, and mind the focus. */
    method DropKid(p: int, i: int)
      requires 0 <= p < |widgets| && 0 <= i < |widgets[p].pobj| && Distinct(widgets[p].pobj)
      modifies `widgets
      ensures widgets == WithoutKid(old(widgets), p, old(widgets)[p].pobj[i])
    {
      ghost var W := widgets;
      var n := |widgets[p].pobj|;
      IndexIs(widgets[p].pobj, i);
      if widgets[p].focus == i { widgets := widgets[p := widgets[p].(focus := -1)]; }
      if widgets[p].focus == n - 1 { widgets := widgets[p := widgets[p].(focus := i)]; }
      widgets := widgets[p := widgets[p].(pobj := widgets[p].pobj[i := widgets[p].pobj[n - 1]])];
      widgets := widgets[p := widgets[p].(pobj := widgets[p].pobj[..n - 1])];
    }

    /** Deletes any widget, and all below it. */
    method Delete(w: int, ghost open: set<int>)
      requires Sound(open) && Live(widgets, w) && w !in open && Above(rank, open, w)
      modifies `widgets, `aniN, aniS
      ensures Sound(open) && Deleted(old(widgets), widgets, rank, w)
      ensures forall x :: x in aniS[..aniN] <==> x in old(aniS[..aniN]) && Live(widgets, x)
      decreases height - rank[w]
    {
      ghost var W0 := widgets;
      WidgetRemove(w, open);
      ghost var W := widgets;
      while |widgets[w].pobj| > 0       // will decrease as the child lets itself be removed
        invariant Sound(open + {w}) && KidsGoing(W, widgets, rank, w)
        invariant forall x :: x in aniS[..aniN] <==> x in old(aniS[..aniN]) && x != w && Live(widgets, x)
        decreases |widgets[w].pobj|
      {
        ghost var V, k := widgets, widgets[w].pobj[0];
        assert KidsOk(V, rank, open + {w}, w) && KidAt(V, rank, open + {w}, w, k);
        Delete(widgets[w].pobj[0], open + {w});
        KidGoes(W, V, widgets, rank, open + {w}, w, k);
      }
      AllGone(W0, W, widgets, rank, open, w);
      DeathKeepsTree(widgets, rank, open, w);
      widgets := widgets[w := widgets[w].(alive := false)];
      forall i | 0 <= i < aniN ensures Live(widgets, aniS[i]) { assert aniS[i] in aniS[..aniN]; }
    }
  }

  /** Passing item i of the stack, or taking it off, leaves the items after it ahead. */
  lemma WhatIsAhead(c: seq<int>, i: nat)
    requires Distinct(c) && i < |c|
    ensures forall x :: x in c[i + 1..] <==> x in c[i..] && x != c[i]
    ensures forall x :: x in SwapRemoved(c, i)[i..] <==> x in c[i..] && x != c[i]
    ensures SwapRemoved(c, i)[..i] == c[..i] && c[i] !in c[..i]
    ensures forall x :: x in c[..i + 1] <==> x in c[..i] || x == c[i]
  {
    var d, n := SwapRemoved(c, i), |c|;
    forall x | x in c[i..] && x != c[i] ensures x in c[i + 1..] && x in d[i..] {
      var k :| i <= k < n && c[k] == x;
      assert c[i + 1..][k - i - 1] == x;
      if k == n - 1 { assert d[i..][0] == x; } else { assert d[i..][k - i] == x; }
    }
  }

  function Least(a: int, b: int): int { if a < b then a else b }

  lemma {:induction false} IndexIs(c: seq<int>, k: nat)
    requires Distinct(c) && k < |c|
    ensures c[k] in c && Index(c, c[k]) == k
  {
  }

  /** The search finds w where it is and nowhere else. */
  lemma FoundNext(c: seq<int>, w: int, i: int)
    requires Distinct(c) && 0 <= i
    ensures i < |c| ==> (w in c[..i + 1] <==> w in c[..i] || c[i] == w)
    ensures i < |c| && w in c[..i] ==> w in c && (i < |c| - 1 ==> SwapRemoved(c, Index(c, w))[i] != w)
  {
    if i < |c| && w in c[..i] { SwapRemovedIs(c, Index(c, w)); }
  }

  lemma AllSearched(c: seq<int>, w: int, i: int)
    requires Distinct(c) && w in c && 0 <= i
    requires w !in c[..Least(i, |c|)] ==> i >= |c|
    ensures w in c[..Least(i, |c|)]
  {
    assert c[..|c|] == c;
  }

  // ------------------------------------------------------------ appending

  /** Ranks once w and all under it have moved below p. */
  ghost function Raised(parents: seq<int>, rank: seq<nat>, p: int, w: int): (r: seq<nat>)
    requires |parents| == |rank| && 0 <= p < |rank|
    ensures |r| == |rank|
  {
    seq(|rank|, x requires 0 <= x < |rank| => if Under(parents, rank, x, w) then rank[x] + rank[p] + 1 else rank[x])
  }

  lemma AppendKeepsTree(W: Pool, V: Pool, rank: seq<nat>, p: int, w: int)
    requires Tree(W, rank, {}) && Live(W, p) && Live(W, w) && W[w].parent == -1
    requires !Under(Parents(W), rank, p, w)
    requires V == W[p := W[p].(pobj := W[p].pobj + [w])][w := W[w].(parent := p)] && p != w
    ensures Tree(V, Raised(Parents(W), rank, p, w), {})
  {
    var r, ps := Raised(Parents(W), rank, p, w), Parents(W);
    assert KidsOk(W, rank, {}, p);
    forall i | 0 <= i < |W[p].pobj| ensures W[p].pobj[i] != w { assert KidAt(W, rank, {}, p, W[p].pobj[i]); }
    forall x | Live(V, x) ensures KidsOk(V, r, {}, x) {
      assert KidsOk(W, rank, {}, x);
      forall i | 0 <= i < |V[x].pobj| ensures KidAt(V, r, {}, x, V[x].pobj[i]) {
        if i < |W[x].pobj| {
          assert KidAt(W, rank, {}, x, W[x].pobj[i]);
          RaisedTogether(ps, rank, p, w, W[x].pobj[i]);
        } else {
          assert Under(ps, rank, w, w);
        }
      }
    }
    forall y | Live(V, y) ensures ParentOk(V, r, {}, y) {
      assert ParentOk(W, rank, {}, y);
      if y != w { RaisedTogether(ps, rank, p, w, y); } else { assert Under(ps, rank, w, w); }
    }
  }

  /** A widget other than w is under w exactly if its parent is. */
  lemma RaisedTogether(parents: seq<int>, rank: seq<nat>, p: int, w: int, y: int)
    requires |parents| == |rank| && 0 <= p < |rank| && 0 <= y < |rank| && y != w
    requires parents[y] == -1 || (0 <= parents[y] < |rank| && rank[parents[y]] < rank[y])
    ensures parents[y] != -1 ==> Raised(parents, rank, p, w)[parents[y]] < Raised(parents, rank, p, w)[y]
  {
  }

  lemma FocusKeepsTree(W: Pool, V: Pool, rank: seq<nat>, p: int)
    requires Tree(W, rank, {}) && Live(W, p) && |V| == |W| && V == W[p := W[p].(focus := V[p].focus)]
    requires 0 <= V[p].focus < |V[p].pobj|
    ensures Tree(V, rank, {})
  {
    forall x | Live(V, x) ensures KidsOk(V, rank, {}, x) {
      assert KidsOk(W, rank, {}, x);
      forall i | 0 <= i < |V[x].pobj| ensures KidAt(V, rank, {}, x, V[x].pobj[i]) {
        assert KidAt(W, rank, {}, x, W[x].pobj[i]);
      }
    }
    forall y | Live(V, y) ensures ParentOk(V, rank, {}, y) { assert ParentOk(W, rank, {}, y); }
  }
}
