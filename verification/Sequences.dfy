/** Sequences of table positions. */
module Sequences {

  /** No position occurs twice. */
  ghost predicate Distinct(c: seq<int>) {
    forall i, j :: 0 <= i < j < |c| ==> c[i] != c[j]
  }

  /** Where x stands first. */
  function Index(c: seq<int>, x: int): (k: nat)
    requires x in c
    ensures k < |c| && c[k] == x
  {
    if c[0] == x then 0 else 1 + Index(c[1..], x)
  }

  function Without(c: seq<int>, k: nat): seq<int>
    requires k < |c|
  {
    c[..k] + c[k + 1..]
  }
}
