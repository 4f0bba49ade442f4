/** The buckets of a hash table: singly linked chains of cells, and what appending a cell
    or taking one out does to them. */
module Chains {
  import opened Sequences

  /** A bucket; next is the following cell of the chain, or -1. */
  datatype Cell<T> = Cell(data: T, next: int)

  predicate CellAt<T>(cells: seq<Cell<T>>, c: seq<int>, k: nat)
    requires k < |c|
  {
    0 <= c[k] < |cells| && cells[c[k]].next == if k + 1 < |c| then c[k + 1] else -1
  }

  /** From `head` on, the cells of c follow each other. */
  ghost predicate ChainOk<T>(cells: seq<Cell<T>>, head: int, c: seq<int>) {
    && head == (if c == [] then -1 else c[0]) && Distinct(c)
    && forall k {:trigger CellAt(cells, c, k)} :: 0 <= k < |c| ==> CellAt(cells, c, k)
  }

  ghost predicate Apart(c: seq<int>, d: seq<int>) {
    forall i, j :: 0 <= i < |c| && 0 <= j < |d| ==> c[i] != d[j]
  }

  /** Every table entry heads its chain, and no two chains share a cell. */
  ghost predicate Layout<T>(table: seq<int>, cells: seq<Cell<T>>, chains: seq<seq<int>>) {
    && |chains| == |table|
    && (forall i {:trigger ChainOk(cells, table[i], chains[i])} ::
          0 <= i < |table| ==> ChainOk(cells, table[i], chains[i]))
    && (forall i, j {:trigger Apart(chains[i], chains[j])} ::
          0 <= i < |chains| && 0 <= j < |chains| && i != j ==> Apart(chains[i], chains[j]))
  }

  /** All cells, in the order an iteration meets them. */
  function All(chains: seq<seq<int>>): seq<int> {
    if chains == [] then [] else chains[0] + All(chains[1..])
  }

  lemma {:induction false} AllJoin(a: seq<seq<int>>, b: seq<seq<int>>)
    ensures All(a + b) == All(a) + All(b)
  {
    if a == [] {
      assert a + b == b;
    } else {
      assert (a + b)[1..] == a[1..] + b;
      AllJoin(a[1..], b);
    }
  }

  lemma {:induction false} AllAt(chains: seq<seq<int>>, i: nat)
    requires i < |chains|
    ensures All(chains) == All(chains[..i]) + chains[i] + All(chains[i + 1..])
  {
    if i == 0 {
      assert chains[..0] == [];
    } else {
      var rest, front := chains[1..], chains[..i];
      AllAt(rest, i - 1);
      assert front[1..] == rest[..i - 1] && rest[i..] == chains[i + 1..];
      assert All(front) == chains[0] + All(rest[..i - 1]);
    }
  }

  lemma AllSingle(c: seq<int>)
    ensures All([c]) == c
  {
    assert [c][1..] == [];
  }

  lemma AllUpdate(chains: seq<seq<int>>, i: nat, c: seq<int>)
    requires i < |chains|
    ensures All(chains[i := c]) == All(chains[..i]) + c + All(chains[i + 1..])
    ensures |All(chains[i := c])| == |All(chains)| - |chains[i]| + |c|
  {
    AllAt(chains, i);
    AllAt(chains[i := c], i);
    assert chains[i := c][..i] == chains[..i] && chains[i := c][i + 1..] == chains[i + 1..];
  }

  lemma {:induction false} AllMembers(chains: seq<seq<int>>, x: int)
    ensures x in All(chains) <==> exists i :: 0 <= i < |chains| && x in chains[i]
  {
    if chains != [] {
      AllMembers(chains[1..], x);
      assert forall i :: 1 <= i < |chains| ==> chains[i] == chains[1..][i - 1];
      if i :| 0 <= i < |chains[1..]| && x in chains[1..][i] { assert x in chains[i + 1]; }
    }
  }

  /** No cell is met twice. */
  lemma {:induction false} AllIsDistinct(chains: seq<seq<int>>)
    requires forall i :: 0 <= i < |chains| ==> Distinct(chains[i])
    requires forall i, j {:trigger Apart(chains[i], chains[j])} ::
               0 <= i < |chains| && 0 <= j < |chains| && i != j ==> Apart(chains[i], chains[j])
    ensures Distinct(All(chains))
  {
    if chains != [] {
      var rest := chains[1..];
      forall i, j | 0 <= i < |rest| && 0 <= j < |rest| && i != j ensures Apart(rest[i], rest[j]) {
        assert Apart(chains[i + 1], chains[j + 1]);
      }
      AllIsDistinct(rest);
      forall k, l | 0 <= k < |chains[0]| && 0 <= l < |All(rest)| ensures chains[0][k] != All(rest)[l] {
        AllMembers(rest, All(rest)[l]);
        assert All(rest)[l] in All(rest);
        var i :| 0 <= i < |rest| && All(rest)[l] in rest[i];
        assert Apart(chains[0], chains[i + 1]);
      }
    }
  }

  // ------------------------------------------------------------ appending

  /** The cells once a new one follows the chain's last. */
  function Appended<T>(cells: seq<Cell<T>>, c: seq<int>, data: T): seq<Cell<T>>
    requires c != [] ==> 0 <= c[|c| - 1] < |cells|
  {
    (if c == [] then cells
     else cells[c[|c| - 1] := cells[c[|c| - 1]].(next := |cells|)]) + [Cell(data, -1)]
  }

  lemma AppendKeepsChain<T>(cells: seq<Cell<T>>, head: int, c: seq<int>, data: T)
    requires ChainOk(cells, head, c)
    ensures c != [] ==> CellAt(cells, c, |c| - 1)
    ensures ChainOk(Appended(cells, c, data), if c == [] then |cells| else head, c + [|cells|])
  {
    assert c != [] ==> CellAt(cells, c, |c| - 1);
    var d, more := c + [|cells|], Appended(cells, c, data);
    forall k | 0 <= k < |c| ensures 0 <= c[k] < |cells| { assert CellAt(cells, c, k); }
    forall k | 0 <= k < |d| ensures CellAt(more, d, k) {
      if k < |c| { assert CellAt(cells, c, k); }
    }
  }

  lemma AppendKeepsOther<T>(cells: seq<Cell<T>>, c: seq<int>, data: T, head: int, d: seq<int>)
    requires ChainOk(cells, head, d) && Apart(c, d) && (c != [] ==> 0 <= c[|c| - 1] < |cells|)
    ensures ChainOk(Appended(cells, c, data), head, d)
    ensures forall k :: 0 <= k < |d| ==> d[k] != |cells|
  {
    forall k | 0 <= k < |d| ensures CellAt(Appended(cells, c, data), d, k) && d[k] != |cells| {
      assert CellAt(cells, d, k);
    }
  }

  lemma AppendKeepsLayout<T>(table: seq<int>, cells: seq<Cell<T>>, chains: seq<seq<int>>, i: nat, data: T)
    requires Layout(table, cells, chains) && i < |table|
    ensures chains[i] != [] ==> CellAt(cells, chains[i], |chains[i]| - 1)
    ensures Layout(table[i := if chains[i] == [] then |cells| else table[i]],
                   Appended(cells, chains[i], data), chains[i := chains[i] + [|cells|]])
  {
    var c := chains[i];
    assert ChainOk(cells, table[i], c);
    AppendKeepsChain(cells, table[i], c, data);
    var t, ds := table[i := if c == [] then |cells| else table[i]], chains[i := c + [|cells|]];
    forall j | 0 <= j < |t| ensures ChainOk(Appended(cells, c, data), t[j], ds[j]) {
      if j != i {
        assert ChainOk(cells, table[j], chains[j]) && Apart(c, chains[j]);
        AppendKeepsOther(cells, c, data, table[j], chains[j]);
      }
    }
    forall j, l | 0 <= j < |ds| && 0 <= l < |ds| && j != l ensures Apart(ds[j], ds[l]) {
      assert Apart(chains[j], chains[l]) && Apart(chains[l], chains[j]);
      assert ChainOk(cells, table[j], chains[j]) && ChainOk(cells, table[l], chains[l]);
      if j != i { assert Apart(c, chains[j]); AppendKeepsOther(cells, c, data, table[j], chains[j]); }
      if l != i { assert Apart(c, chains[l]); AppendKeepsOther(cells, c, data, table[l], chains[l]); }
    }
  }

  // ------------------------------------------------------------ taking a cell out

  /** The cell before position k of the chain skips it. */
  function Skipped<T>(cells: seq<Cell<T>>, c: seq<int>, k: nat): seq<Cell<T>>
    requires k < |c| && 0 <= c[k] < |cells| && (k > 0 ==> 0 <= c[k - 1] < |cells|)
  {
    if k > 0 then cells[c[k - 1] := cells[c[k - 1]].(next := cells[c[k]].next)] else cells
  }

  lemma SkipKeepsChain<T>(cells: seq<Cell<T>>, head: int, c: seq<int>, k: nat)
    requires ChainOk(cells, head, c) && k < |c|
    ensures CellAt(cells, c, k) && (k > 0 ==> CellAt(cells, c, k - 1))
    ensures ChainOk(Skipped(cells, c, k), if k > 0 then head else cells[c[k]].next, Without(c, k))
  {
    assert CellAt(cells, c, k) && (k > 0 ==> CellAt(cells, c, k - 1));
    var d, less := Without(c, k), Skipped(cells, c, k);
    assert forall l :: 0 <= l < |d| ==> d[l] == c[if l < k then l else l + 1];
    forall l | 0 <= l < |d| ensures CellAt(less, d, l) {
      assert CellAt(cells, c, if l < k then l else l + 1);
    }
  }

  lemma SkipKeepsLayout<T>(table: seq<int>, cells: seq<Cell<T>>, chains: seq<seq<int>>, i: nat, k: nat)
    requires Layout(table, cells, chains) && i < |table| && k < |chains[i]|
    ensures CellAt(cells, chains[i], k) && (k > 0 ==> CellAt(cells, chains[i], k - 1))
    ensures Layout(table[i := if k > 0 then table[i] else cells[chains[i][k]].next],
                   Skipped(cells, chains[i], k), chains[i := Without(chains[i], k)])
  {
    var c := chains[i];
    assert ChainOk(cells, table[i], c);
    SkipKeepsChain(cells, table[i], c, k);
    var t, ds := table[i := if k > 0 then table[i] else cells[c[k]].next], chains[i := Without(c, k)];
    assert forall l :: 0 <= l < |Without(c, k)| ==> Without(c, k)[l] == c[if l < k then l else l + 1];
    forall j | 0 <= j < |t| ensures ChainOk(Skipped(cells, c, k), t[j], ds[j]) {
      if j != i {
        assert ChainOk(cells, table[j], chains[j]) && Apart(c, chains[j]);
        forall l | 0 <= l < |ds[j]| ensures CellAt(Skipped(cells, c, k), ds[j], l) {
          assert CellAt(cells, ds[j], l);
        }
      }
    }
    forall j, l | 0 <= j < |ds| && 0 <= l < |ds| && j != l ensures Apart(ds[j], ds[l]) {
      assert Apart(chains[j], chains[l]);
    }
  }
}
