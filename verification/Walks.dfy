/** The record of a walk over the trapezoids: where it stopped, how it got there, and with
    which polygon. Every stop follows from an earlier one, and its polygon is the one on its
    side of that one's diagonal. */
module Walks {
  import opened Plane
  import opened Trapezoids
  import opened Traversal

  /** A call of traverse_polygon. */
  datatype Call = Call(mcur: int, to: int, from: int, dir: From)

  /** A call that found its trapezoid unvisited; `last` is the last polygon's number then. */
  datatype Stop = Stop(call: Call, last: int)

  /** What the first stops of a walk answer to: one call, or those made at a stop. */
  datatype Origin = Given(call: Call) | Under(stop: Stop)

  function PlanOf(tr: seq<Trap>, seg: seq<Segment>, c: Call): Plan { PlanAt(tr, seg, c.to, c.from, c.dir) }

  /** The polygon on the other side of the stop's diagonal: the next number, if there is one. */
  function Other(tr: seq<Trap>, seg: seq<Segment>, s: Stop): int {
    if PlanOf(tr, seg, s.call).Split? then s.last + 1 else s.call.mcur
  }

  /** Call number k made at a stop. */
  function CallAt(tr: seq<Trap>, seg: seq<Segment>, s: Stop, k: nat): Call
    requires k < |PlanOf(tr, seg, s.call).visits|
  {
    var v := PlanOf(tr, seg, s.call).visits[k];
    Call(if v.onNew then Other(tr, seg, s) else s.call.mcur, v.to, s.call.to, v.dir)
  }

  ghost predicate Calls(tr: seq<Trap>, seg: seq<Segment>, s: Stop, c: Call) {
    exists k :: 0 <= k < |PlanOf(tr, seg, s.call).visits| && CallAt(tr, seg, s, k) == c
  }

  ghost predicate Answers(tr: seq<Trap>, seg: seq<Segment>, o: Origin, c: Call) {
    match o
    case Given(g) => c == g
    case Under(s) => Calls(tr, seg, s, c)
  }

  /** Every stop answers to the origin or was called at an earlier stop. */
  ghost predicate Led(tr: seq<Trap>, seg: seq<Segment>, log: seq<Stop>, o: Origin) {
    forall i :: 0 <= i < |log| ==> LedAt(tr, seg, log, o, i)
  }

  ghost predicate LedAt(tr: seq<Trap>, seg: seq<Segment>, log: seq<Stop>, o: Origin, i: nat)
    requires i < |log|
  {
    Answers(tr, seg, o, log[i].call) || exists j :: 0 <= j < i && Calls(tr, seg, log[j], log[i].call)
  }

  function StrokeAt(tr: seq<Trap>, seg: seq<Segment>, c: Call): seq<Stroke> {
    var p := PlanOf(tr, seg, c);
    if p.Split? then [Stroke(c.to, c.mcur, p.v0, p.v1)] else []
  }

  function AllOf(f: Stop -> seq<Stroke>, log: seq<Stop>): seq<Stroke> {
    if log == [] then [] else AllOf(f, log[..|log| - 1]) + f(log[|log| - 1])
  }

  function Drawer(tr: seq<Trap>, seg: seq<Segment>): Stop -> seq<Stroke> { (s: Stop) => StrokeAt(tr, seg, s.call) }

  /** The diagonals drawn on the way. */
  function Strokes(tr: seq<Trap>, seg: seq<Segment>, log: seq<Stop>): seq<Stroke> { AllOf(Drawer(tr, seg), log) }

  /** Polygons are numbered in the order of their diagonals. */
  ghost predicate Numbered(tr: seq<Trap>, seg: seq<Segment>, log: seq<Stop>, last: int) {
    forall i :: 0 <= i < |log| ==> NumberedAt(tr, seg, log, last, i)
  }

  ghost predicate NumberedAt(tr: seq<Trap>, seg: seq<Segment>, log: seq<Stop>, last: int, i: nat)
    requires i < |log|
  {
    log[i].last == last + |Strokes(tr, seg, log[..i])|
  }

  /** The walk stopped at the trapezoids of S, once at each. */
  ghost predicate StopsOf(log: seq<Stop>, S: set<int>) {
    && (forall i :: 0 <= i < |log| ==> StopIn(log, i, S))
    && (forall i, j :: 0 <= i < j < |log| ==> StopsDiffer(log, i, j))
    && |log| == |S|
  }

  predicate StopIn(log: seq<Stop>, i: nat, S: set<int>)
    requires i < |log|
  {
    log[i].call.to in S
  }

  predicate StopsDiffer(log: seq<Stop>, i: nat, j: nat)
    requires i < |log| && j < |log|
  {
    log[i].call.to != log[j].call.to
  }

  /** A record of a walk over S. */
  ghost predicate LogOf(tr: seq<Trap>, seg: seq<Segment>, o: Origin, last: int, log: seq<Stop>, S: set<int>) {
    && StopsOf(log, S) && Led(tr, seg, log, o) && Numbered(tr, seg, log, last)
    && StrokesOf(tr, seg, Strokes(tr, seg, log), S)
  }

  lemma {:induction false} AllOfBoth(f: Stop -> seq<Stroke>, a: seq<Stop>, b: seq<Stop>)
    ensures AllOf(f, a + b) == AllOf(f, a) + AllOf(f, b)
  {
    if b == [] {
      assert a + b == a;
    } else {
      AllOfBoth(f, a, b[..|b| - 1]);
      assert (a + b)[..|a + b| - 1] == a + b[..|b| - 1];
    }
  }

  lemma AllOfOne(f: Stop -> seq<Stroke>, s: Stop)
    ensures AllOf(f, [s]) == f(s)
  {
    assert [s][..0] == [];
  }

  lemma StrokesBoth(tr: seq<Trap>, seg: seq<Segment>, a: seq<Stop>, b: seq<Stop>)
    ensures Strokes(tr, seg, a + b) == Strokes(tr, seg, a) + Strokes(tr, seg, b)
  {
    AllOfBoth(Drawer(tr, seg), a, b);
  }

  lemma NumberedJoin(tr: seq<Trap>, seg: seq<Segment>, a: seq<Stop>, b: seq<Stop>, last: int)
    requires Numbered(tr, seg, a, last) && Numbered(tr, seg, b, last + |Strokes(tr, seg, a)|)
    ensures Numbered(tr, seg, a + b, last)
  {
    forall i | 0 <= i < |a + b| ensures NumberedAt(tr, seg, a + b, last, i) {
      if i < |a| {
        assert (a + b)[..i] == a[..i] && NumberedAt(tr, seg, a, last, i);
      } else {
        assert (a + b)[..i] == a + b[..i - |a|] && NumberedAt(tr, seg, b, last + |Strokes(tr, seg, a)|, i - |a|);
        StrokesBoth(tr, seg, a, b[..i - |a|]);
      }
    }
  }

  lemma StopsJoin(a: seq<Stop>, b: seq<Stop>, S: set<int>, T: set<int>)
    requires StopsOf(a, S) && StopsOf(b, T) && S !! T
    ensures StopsOf(a + b, S + T)
  {
    forall i | 0 <= i < |a + b| ensures StopIn(a + b, i, S + T) {
      if i < |a| { assert StopIn(a, i, S); } else { assert StopIn(b, i - |a|, T); }
    }
    forall i, j | 0 <= i < j < |a + b| ensures StopsDiffer(a + b, i, j) {
      if j < |a| {
        assert StopsDiffer(a, i, j);
      } else if i < |a| {
        assert StopIn(a, i, S) && StopIn(b, j - |a|, T);
      } else {
        assert StopsDiffer(b, i - |a|, j - |a|);
      }
    }
  }

  lemma LedJoin(tr: seq<Trap>, seg: seq<Segment>, a: seq<Stop>, b: seq<Stop>, o: Origin)
    requires Led(tr, seg, a, o) && Led(tr, seg, b, o)
    ensures Led(tr, seg, a + b, o)
  {
    assert [] + a + b == a + b == a + b + [];
    forall i | 0 <= i < |a + b| ensures LedAt(tr, seg, a + b, o, i) {
      if i < |a| { LedOn(tr, seg, [], a, b, o, o, i); } else { LedOn(tr, seg, a, b, [], o, o, i - |a|); }
    }
  }

  /** A stop with its reason keeps it in a longer record. */
  lemma LedOn(tr: seq<Trap>, seg: seq<Segment>, a: seq<Stop>, b: seq<Stop>, c: seq<Stop>, o: Origin, p: Origin, i: nat)
    requires i < |b| && LedAt(tr, seg, b, o, i)
    requires Answers(tr, seg, o, b[i].call) ==>
               (Answers(tr, seg, p, b[i].call) || exists j :: 0 <= j < |a| && Calls(tr, seg, a[j], b[i].call))
    ensures LedAt(tr, seg, a + b + c, p, |a| + i)
  {
    var all := a + b + c;
    if Answers(tr, seg, o, b[i].call) {
      if !Answers(tr, seg, p, b[i].call) {
        var j :| 0 <= j < |a| && Calls(tr, seg, a[j], b[i].call);
        assert all[j] == a[j];
      }
    } else {
      var j :| 0 <= j < i && Calls(tr, seg, b[j], b[i].call);
      assert all[|a| + j] == b[j];
    }
  }

  lemma LogJoin(tr: seq<Trap>, seg: seq<Segment>, o: Origin, last: int, a: seq<Stop>, b: seq<Stop>, S: set<int>,
                T: set<int>)
    requires LogOf(tr, seg, o, last, a, S) && LogOf(tr, seg, o, last + |Strokes(tr, seg, a)|, b, T) && S !! T
    ensures LogOf(tr, seg, o, last, a + b, S + T)
  {
    StopsJoin(a, b, S, T);
    LedJoin(tr, seg, a, b, o);
    NumberedJoin(tr, seg, a, b, last);
    StrokesBoth(tr, seg, a, b);
    StrokesJoin(tr, seg, Strokes(tr, seg, a), Strokes(tr, seg, b), S, T);
  }

  lemma OneStop(tr: seq<Trap>, seg: seq<Segment>, s: Stop)
    ensures LogOf(tr, seg, Given(s.call), s.last, [s], {s.call.to})
    ensures Strokes(tr, seg, [s]) == StrokeAt(tr, seg, s.call)
  {
    AllOfOne(Drawer(tr, seg), s);
    StrokesHere(tr, seg, s.call.to, s.call.from, s.call.dir, s.call.mcur);
  }

  /** A stop, and the walk over its calls. */
  lemma LogUnder(tr: seq<Trap>, seg: seq<Segment>, s: Stop, later: seq<Stop>, T: set<int>)
    requires LogOf(tr, seg, Under(s), s.last + |StrokeAt(tr, seg, s.call)|, later, T) && s.call.to !in T
    ensures LogOf(tr, seg, Given(s.call), s.last, [s] + later, {s.call.to} + T)
    ensures Strokes(tr, seg, [s] + later) == StrokeAt(tr, seg, s.call) + Strokes(tr, seg, later)
  {
    OneStop(tr, seg, s);
    StopsJoin([s], later, {s.call.to}, T);
    NumberedJoin(tr, seg, [s], later, s.last);
    StrokesBoth(tr, seg, [s], later);
    StrokesJoin(tr, seg, StrokeAt(tr, seg, s.call), Strokes(tr, seg, later), {s.call.to}, T);
    LedUnder(tr, seg, s, later);
  }

  lemma LedUnder(tr: seq<Trap>, seg: seq<Segment>, s: Stop, later: seq<Stop>)
    requires Led(tr, seg, later, Under(s))
    ensures Led(tr, seg, [s] + later, Given(s.call))
  {
    forall i | 0 <= i < |[s] + later| ensures LedAt(tr, seg, [s] + later, Given(s.call), i) {
      if i > 0 {
        assert [s][0] == s && LedAt(tr, seg, later, Under(s), i - 1);
        LedOn(tr, seg, [s], later, [], Under(s), Given(s.call), i - 1);
        assert [s] + later + [] == [s] + later;
      }
    }
  }

  /** A walk over one of a stop's calls is one over the stop's calls. */
  lemma LedByCall(tr: seq<Trap>, seg: seq<Segment>, s: Stop, k: nat, log: seq<Stop>)
    requires k < |PlanOf(tr, seg, s.call).visits| && Led(tr, seg, log, Given(CallAt(tr, seg, s, k)))
    ensures Led(tr, seg, log, Under(s))
  {
    forall i | 0 <= i < |log| ensures LedAt(tr, seg, log, Under(s), i) {
      assert LedAt(tr, seg, log, Given(CallAt(tr, seg, s, k)), i);
    }
  }

  // ------------------------------------------------------------ where a walk comes from

  /** Neighbour links lead back. */
  ghost predicate Mutual(tr: seq<Trap>, S: set<int>) {
    forall k :: k in S ==> MutualAt(tr, k)
  }

  predicate MutualAt(tr: seq<Trap>, k: int) {
    var t := TrapAt(tr, k);
    && (t.u0 > 0 ==> LinkedDown(tr, t.u0, k)) && (t.u1 > 0 ==> LinkedDown(tr, t.u1, k))
    && (t.d0 > 0 ==> LinkedUp(tr, t.d0, k)) && (t.d1 > 0 ==> LinkedUp(tr, t.d1, k))
  }

  predicate LinkedDown(tr: seq<Trap>, x: int, k: int) { TrapAt(tr, x).d0 == k || TrapAt(tr, x).d1 == k }

  predicate LinkedUp(tr: seq<Trap>, x: int, k: int) { TrapAt(tr, x).u0 == k || TrapAt(tr, x).u1 == k }

  ghost predicate AllPlaced(tr: seq<Trap>, seg: seq<Segment>, S: set<int>) {
    forall k :: k in S ==> Placed(tr, seg, TrapAt(tr, k))
  }

  /** The direction of a visit is that of the link it follows. */
  lemma VisitsFollowLinks(tr: seq<Trap>, seg: seq<Segment>, trnum: int, from: int, dir: From, k: nat)
    requires k < |PlanAt(tr, seg, trnum, from, dir).visits|
    ensures var t, v := TrapAt(tr, trnum), PlanAt(tr, seg, trnum, from, dir).visits[k];
            if v.dir == FromDown then v.to == t.u0 || v.to == t.u1 else v.to == t.d0 || v.to == t.d1
  {
  }

  ghost predicate Came(tr: seq<Trap>, c: Call) { CameFrom(TrapAt(tr, c.to), c.from, c.dir) }

  /** A call made at a stop comes, at the neighbour, from where the stop is. */
  lemma CalledFromThere(tr: seq<Trap>, seg: seq<Segment>, s: Stop, c: Call)
    requires Calls(tr, seg, s, c) && c.to > 0 && s.call.to > 0 && MutualAt(tr, s.call.to)
    ensures Came(tr, c)
  {
    var k :| 0 <= k < |PlanOf(tr, seg, s.call).visits| && CallAt(tr, seg, s, k) == c;
    VisitsFollowLinks(tr, seg, s.call.to, s.call.from, s.call.dir, k);
  }

  /** The diagonal drawn at the stop is right, in its direction too, and there is one unless
      none is needed. */
  ghost predicate RightAt(tr: seq<Trap>, seg: seq<Segment>, s: Stop) {
    var t, plan := TrapAt(tr, s.call.to), PlanOf(tr, seg, s.call);
    && Came(tr, s.call)
    && if OnOneSide(seg, t) then plan.NoSplit?
       else plan.Split? && SplitIsRight(seg, t, s.call.from, s.call.dir, plan.v0, plan.v1, plan.visits)
  }

  /** The polygon on either side of the stop's diagonal: the one it was entered with lies
      where the walk came from, the new one on the other side. */
  function Label(tr: seq<Trap>, seg: seq<Segment>, s: Stop, left: bool): int {
    var t := TrapAt(tr, s.call.to);
    if LiesLeft(seg, t, s.call.from, Opposite(s.call.dir)) == left then s.call.mcur else Other(tr, seg, s)
  }

  /** Stop i was called at stop j, with the polygon on its side of j's diagonal. */
  ghost predicate EntersFrom(tr: seq<Trap>, seg: seq<Segment>, log: seq<Stop>, j: nat, i: nat)
    requires j < i < |log|
  {
    var c, s := log[i].call, log[j];
    && c.from == s.call.to && c.to in Neighbours(tr, s.call.to)
    && c.mcur == Label(tr, seg, s, LiesLeft(seg, TrapAt(tr, s.call.to), c.to, c.dir))
  }

  ghost predicate EntersRight(tr: seq<Trap>, seg: seq<Segment>, log: seq<Stop>, i: nat)
    requires i < |log|
  {
    exists j :: 0 <= j < i && EntersFrom(tr, seg, log, j, i)
  }

  /** In a region of well-placed trapezoids whose links lead back, a walk draws every diagonal
      rightly, and enters every trapezoid with the polygon on its side of the diagonal of the
      trapezoid it comes from. */
  lemma WalkIsRight(tr: seq<Trap>, seg: seq<Segment>, c: Call, last: int, log: seq<Stop>, S: set<int>)
    requires LogOf(tr, seg, Given(c), last, log, S) && Came(tr, c) && (forall k :: k in S ==> k > 0)
    requires AllPlaced(tr, seg, S) && Mutual(tr, S)
    ensures forall i :: 0 <= i < |log| ==> RightAt(tr, seg, log[i])
    ensures forall i :: 0 <= i < |log| ==> log[i].call == c || EntersRight(tr, seg, log, i)
  {
    forall i | 0 <= i < |log| ensures RightAt(tr, seg, log[i]) {
      assert StopIn(log, i, S) && LedAt(tr, seg, log, Given(c), i);
      if log[i].call != c {
        var j :| 0 <= j < i && Calls(tr, seg, log[j], log[i].call);
        assert StopIn(log, j, S);
        CalledFromThere(tr, seg, log[j], log[i].call);
      }
      PlanIsRight(tr, seg, log[i].call.to, log[i].call.from, log[i].call.dir);
    }
    forall i | 0 <= i < |log| && log[i].call != c ensures EntersRight(tr, seg, log, i) {
      assert LedAt(tr, seg, log, Given(c), i);
      var j :| 0 <= j < i && Calls(tr, seg, log[j], log[i].call);
      assert StopIn(log, i, S) && StopIn(log, j, S) && RightAt(tr, seg, log[j]);
      CalledOnItsSide(tr, seg, log[j], log[i].call);
      assert EntersFrom(tr, seg, log, j, i);
    }
  }

  lemma CalledOnItsSide(tr: seq<Trap>, seg: seq<Segment>, s: Stop, c: Call)
    requires Calls(tr, seg, s, c) && c.to > 0 && RightAt(tr, seg, s)
    ensures c.from == s.call.to && c.to in Neighbours(tr, s.call.to)
    ensures c.mcur == Label(tr, seg, s, LiesLeft(seg, TrapAt(tr, s.call.to), c.to, c.dir))
  {
    var k :| 0 <= k < |PlanOf(tr, seg, s.call).visits| && CallAt(tr, seg, s, k) == c;
    VisitsFollowLinks(tr, seg, s.call.to, s.call.from, s.call.dir, k);
  }
}
