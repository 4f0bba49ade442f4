/** The random order in which segments are inserted. */
module Ordering {
  import opened Sequences

  /** s holds each of 1..n exactly once. */
  ghost predicate IsOrdering(s: seq<int>, n: nat) {
    && |s| == n && Distinct(s)
    && (forall i :: 0 <= i < n ==> 1 <= s[i] <= n)
    && (forall x :: 1 <= x <= n ==> x in s)
  }

  /** One draw: the m-th of the segments left is chosen, and the first of them fills its
      place. */
  lemma DrawKeepsOrdering(chosen: seq<int>, left: seq<int>, m: nat, n: nat)
    requires IsOrdering(chosen + left, n) && m < |left|
    ensures IsOrdering((chosen + [left[m]]) + left[m := left[0]][1..], n)
  {
    var before, after := chosen + left, (chosen + [left[m]]) + left[m := left[0]][1..];
    var c := |chosen|;
    assert forall i :: 0 <= i < n ==>
             after[i] == if i == c then before[c + m] else if i == c + m then before[c] else before[i];
    forall x | 1 <= x <= n ensures x in after {
      assert x in before;
      var i :| 0 <= i < n && before[i] == x;
      assert after[if i == c then c + m else if i == c + m then c else i] == x;
    }
  }

  lemma IdentityIsOrdering(s: seq<int>, n: nat)
    requires |s| == n && forall k :: 0 <= k < n ==> s[k] == k + 1
    ensures IsOrdering(s, n)
  {
    forall x | 1 <= x <= n ensures x in s { assert s[x - 1] == x; }
  }

  /** The order the numbers rand lead to, `chosen` being drawn and `left` not. */
  function Drawn(chosen: seq<int>, left: seq<int>, rand: seq<nat>): seq<int>
    decreases |rand|
  {
    if left == [] || rand == [] then chosen
    else var m := rand[0] % |left|; Drawn(chosen + [left[m]], left[m := left[0]][1..], rand[1..])
  }

  /** The order drawn for segments 1..n. */
  function OrderOf(n: nat, rand: seq<nat>): seq<int> { Drawn([], seq(n, k => k + 1), rand) }

  lemma DrawnOn(chosen: seq<int>, left: seq<int>, rand: seq<nat>, i: nat)
    requires left != [] && i < |rand|
    ensures var k := rand[i] % |left|;
            Drawn(chosen, left, rand[i..]) == Drawn(chosen + [left[k]], left[k := left[0]][1..], rand[i + 1..])
  {
    assert rand[i..][0] == rand[i] && rand[i..][1..] == rand[i + 1..];
  }

  lemma DrawnAtFirst(left: seq<int>, rand: seq<nat>, n: nat)
    requires |left| == n && forall k :: 0 <= k < n ==> left[k] == k + 1
    ensures Drawn([], left, rand[0..]) == OrderOf(n, rand)
  {
    assert rand[0..] == rand && left == seq(n, k => k + 1);
  }

  /** Draw segment number i of the ordering from those left at st[i..]; p is i - 1. */
  method Draw(n: nat, i: int, p: int, random: nat, st: array<int>, permute: array<int>)
    requires 1 <= i <= n && p == i - 1 && st.Length == n + 1 <= permute.Length && st != permute
    requires IsOrdering(permute[1..i] + st[i..], n)
    modifies st, permute
    ensures IsOrdering(permute[1..i + 1] + st[i + 1..], n)
    ensures var left := old(st[i..]); var k := random % |left|;
            permute[1..i + 1] == old(permute[1..i]) + [left[k]] && st[i + 1..] == left[k := left[0]][1..]
  {
    var m := random % (n + 1 - i) + 1;
    ghost var chosen, left := permute[1..i], st[i..];
    DrawKeepsOrdering(chosen, left, m - 1, n);
    permute[i] := st[p + m];
    assert permute[1..i + 1] == chosen + [left[m - 1]];
    if m != 1 { st[p + m] := st[p + 1]; }
    assert st[i + 1..] == left[m - 1 := left[0]][1..];
  }

  /** What the loop keeps: chosen and left make an ordering, and lead to the one wanted. */
  ghost predicate Drawing(chosen: seq<int>, left: seq<int>, n: nat, rand: seq<nat>, i: nat) {
    i <= |rand| && IsOrdering(chosen + left, n) && Drawn(chosen, left, rand[i..]) == OrderOf(n, rand)
  }

  lemma DrawingEnds(chosen: seq<int>, left: seq<int>, n: nat, rand: seq<nat>, i: nat)
    requires Drawing(chosen, left, n, rand, i) && left == []
    ensures chosen == OrderOf(n, rand) && IsOrdering(chosen, n)
  {
    assert chosen + left == chosen;
  }

  /** One round of the loop. */
  method DrawNext(n: nat, i: int, p: int, ghost rand: seq<nat>, random: nat, st: array<int>, permute: array<int>)
    requires 1 <= i <= n == |rand| && p == i - 1 && random == rand[i - 1]
    requires st.Length == n + 1 <= permute.Length && st != permute
    requires Drawing(permute[1..i], st[i..], n, rand, i - 1)
    modifies st, permute
    ensures Drawing(permute[1..i + 1], st[i + 1..], n, rand, i)
  {
    DrawnOn(permute[1..i], st[i..], rand, i - 1);
    Draw(n, i, p, random, st, permute);
  }

  /** Each segment is left at first. */
  method Fill(n: nat, st: array<int>, ghost rand: seq<nat>)
    requires st.Length == n + 1
    modifies st
    ensures Drawing([], st[1..], n, rand, 0)
  {
    var i := 0;
    while i <= n
      invariant 0 <= i <= n + 1 && forall k :: 0 <= k < i ==> st[k] == k
    {
      st[i] := i;
      i := i + 1;
    }
    IdentityIsOrdering(st[1..], n);
    assert [] + st[1..] == st[1..];
    DrawnAtFirst(st[1..], rand, n);
  }

  /** The order the numbers in `rand` lead to, drawn in place. */
  method GenerateRandomOrdering(n: nat, rand: seq<nat>, permute: array<int>)
    requires |rand| == n && n < permute.Length
    modifies permute
    ensures IsOrdering(permute[1..n + 1], n) && permute[1..n + 1] == OrderOf(n, rand)
  {
    var st := new int[n + 1];
    Fill(n, st, rand);
    assert permute[1..1] == [];
    var p := 0;
    var i := 1;
    while i <= n
      invariant 1 <= i <= n + 1 && p == i - 1
      invariant Drawing(permute[1..i], st[i..], n, rand, i - 1)
    {
      DrawNext(n, i, p, rand, rand[i - 1], st, permute);
      p, i := p + 1, i + 1;
    }
    DrawingEnds(permute[1..i], st[i..], n, rand, n);
  }
}
