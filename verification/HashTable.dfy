/** The chained hash table as a finite map, and an iterator that tolerates the deletion of
    the element it stands on. */
module HashTable {
  import opened Sequences
  import opened Chains

  /** What the iterator remembers: the table entry, the bucket, the bucket before it, and
      whether the bucket is the entry's first. */
  datatype HashIt = HashIt(index: int, bucket: int, prevBucket: int, firstBucket: bool)

  const START := HashIt(-1, -1, -1, false)

  // ------------------------------------------------------------ what the buckets hold

  function KeyAt<T, K>(key: T -> K, cells: seq<Cell<T>>, x: int): K
    requires 0 <= x < |cells|
  {
    key(cells[x].data)
  }

  /** Cell x is filed under entry i, and is what the map holds for its key. */
  ghost predicate FiledAt<T, K>(key: T -> K, hash: (K, int) -> int, size: int, cells: seq<Cell<T>>,
                                content: map<K, T>, i: int, x: int) {
    && 0 <= x < |cells| && hash(KeyAt(key, cells, x), size) == i
    && KeyAt(key, cells, x) in content && content[KeyAt(key, cells, x)] == cells[x].data
  }

  /** Chain i files only what belongs there, and no key twice. */
  ghost predicate BucketOk<T, K>(key: T -> K, hash: (K, int) -> int, size: int, cells: seq<Cell<T>>,
                                 content: map<K, T>, i: int, c: seq<int>) {
    && (forall k :: 0 <= k < |c| ==> FiledAt(key, hash, size, cells, content, i, c[k]))
    && (forall k, l :: 0 <= k < l < |c| ==> KeyAt(key, cells, c[k]) != KeyAt(key, cells, c[l]))
  }

  ghost predicate HasKey<T, K>(key: T -> K, cells: seq<Cell<T>>, c: seq<int>, q: K) {
    exists k :: 0 <= k < |c| && 0 <= c[k] < |cells| && KeyAt(key, cells, c[k]) == q
  }

  /** The chains hold exactly the map. */
  ghost predicate Represents<T, K>(key: T -> K, hash: (K, int) -> int, cells: seq<Cell<T>>, chains: seq<seq<int>>,
                                   content: map<K, T>) {
    && (forall i {:trigger BucketOk(key, hash, |chains|, cells, content, i, chains[i])} :: 0 <= i < |chains| ==>
          BucketOk(key, hash, |chains|, cells, content, i, chains[i]))
    && (forall q {:trigger hash(q, |chains|)} :: q in content ==>
          0 <= hash(q, |chains|) < |chains| && HasKey(key, cells, chains[hash(q, |chains|)], q))
  }

  lemma AppendRepresents<T, K>(key: T -> K, hash: (K, int) -> int, cells: seq<Cell<T>>, chains: seq<seq<int>>,
                               content: map<K, T>, table: seq<int>, data: T)
    requires Layout(table, cells, chains) && Represents(key, hash, cells, chains, content)
    requires key(data) !in content && 0 <= hash(key(data), |chains|) < |chains|
    ensures var i := hash(key(data), |chains|); var c := chains[i];
            && (c != [] ==> 0 <= c[|c| - 1] < |cells|)
            && Represents(key, hash, Appended(cells, c, data), chains[i := c + [|cells|]], content[key(data) := data])
  {
    var i, size := hash(key(data), |chains|), |chains|;
    var c, more := chains[i], content[key(data) := data];
    assert ChainOk(cells, table[i], c) && BucketOk(key, hash, size, cells, content, i, c);
    assert c != [] ==> CellAt(cells, c, |c| - 1);
    var cs, ds := Appended(cells, c, data), chains[i := c + [|cells|]];
    assert forall x :: 0 <= x < |cells| ==> cs[x].data == cells[x].data;
    forall j | 0 <= j < |ds| ensures BucketOk(key, hash, size, cs, more, j, ds[j]) {
      assert BucketOk(key, hash, size, cells, content, j, chains[j]);
      forall k | 0 <= k < |ds[j]| ensures FiledAt(key, hash, size, cs, more, j, ds[j][k]) {
        if !(j == i && k == |c|) { assert FiledAt(key, hash, size, cells, content, j, chains[j][k]); }
      }
      forall k, l | 0 <= k < l < |ds[j]| ensures KeyAt(key, cs, ds[j][k]) != KeyAt(key, cs, ds[j][l]) {
        assert FiledAt(key, hash, size, cells, content, j, chains[j][k]);
        if !(j == i && l == |c|) { assert FiledAt(key, hash, size, cells, content, j, chains[j][l]); }
      }
    }
    forall q | q in more ensures 0 <= hash(q, size) < size && HasKey(key, cs, ds[hash(q, size)], q) {
      if q == key(data) {
        assert KeyAt(key, cs, ds[i][|c|]) == q;
      } else {
        assert HasKey(key, cells, chains[hash(q, size)], q);
        var k :| 0 <= k < |chains[hash(q, size)]| && 0 <= chains[hash(q, size)][k] < |cells|
                 && KeyAt(key, cells, chains[hash(q, size)][k]) == q;
        assert ds[hash(q, size)][k] == chains[hash(q, size)][k];
      }
    }
  }

  /** Data does not move, and position l of the shortened chain comes from one of the old. */
  lemma SkipKeepsData<T>(cells: seq<Cell<T>>, c: seq<int>, k: nat)
    requires k < |c| && 0 <= c[k] < |cells| && (k > 0 ==> 0 <= c[k - 1] < |cells|)
    ensures |Skipped(cells, c, k)| == |cells|
    ensures forall x :: 0 <= x < |cells| ==> Skipped(cells, c, k)[x].data == cells[x].data
    ensures forall l :: 0 <= l < |c| - 1 ==> Without(c, k)[l] == c[if l < k then l else l + 1]
  {
  }

  /** A chain of cells with unchanged data, some of the old chain's, files what is left. */
  lemma ShorterBucketOk<T, K>(key: T -> K, hash: (K, int) -> int, size: int, cells: seq<Cell<T>>,
                              content: map<K, T>, i: int, c: seq<int>, cs: seq<Cell<T>>, k: nat, gone: K)
    requires BucketOk(key, hash, size, cells, content, i, c) && k < |c| && 0 <= c[k] < |cells|
    requires |cs| == |cells| && forall x :: 0 <= x < |cells| ==> cs[x].data == cells[x].data
    requires forall l :: 0 <= l < |c| - 1 ==> Without(c, k)[l] == c[if l < k then l else l + 1]
    requires gone == KeyAt(key, cells, c[k])
    ensures BucketOk(key, hash, size, cs, content - {gone}, i, Without(c, k))
  {
    var d := Without(c, k);
    forall l | 0 <= l < |d| ensures FiledAt(key, hash, size, cs, content - {gone}, i, d[l]) {
      assert FiledAt(key, hash, size, cells, content, i, c[if l < k then l else l + 1]);
    }
    forall a, b | 0 <= a < b < |d| ensures KeyAt(key, cs, d[a]) != KeyAt(key, cs, d[b]) {
      assert FiledAt(key, hash, size, cs, content - {gone}, i, d[a]);
      assert FiledAt(key, hash, size, cs, content - {gone}, i, d[b]);
    }
  }

  lemma OtherBucketOk<T, K>(key: T -> K, hash: (K, int) -> int, size: int, cells: seq<Cell<T>>,
                            content: map<K, T>, j: int, c: seq<int>, cs: seq<Cell<T>>, gone: K)
    requires BucketOk(key, hash, size, cells, content, j, c) && hash(gone, size) != j
    requires |cs| == |cells| && forall x :: 0 <= x < |cells| ==> cs[x].data == cells[x].data
    ensures BucketOk(key, hash, size, cs, content - {gone}, j, c)
  {
    forall l | 0 <= l < |c| ensures FiledAt(key, hash, size, cs, content - {gone}, j, c[l]) {
      assert FiledAt(key, hash, size, cells, content, j, c[l]);
    }
  }

  lemma StillHasKey<T, K>(key: T -> K, cells: seq<Cell<T>>, c: seq<int>, cs: seq<Cell<T>>, k: nat, q: K)
    requires HasKey(key, cells, c, q) && k < |c| && 0 <= c[k] < |cells| && q != KeyAt(key, cells, c[k])
    requires |cs| == |cells| && forall x :: 0 <= x < |cells| ==> cs[x].data == cells[x].data
    requires forall l :: 0 <= l < |c| - 1 ==> Without(c, k)[l] == c[if l < k then l else l + 1]
    ensures HasKey(key, cs, Without(c, k), q)
  {
    var l :| 0 <= l < |c| && 0 <= c[l] < |cells| && KeyAt(key, cells, c[l]) == q;
    assert Without(c, k)[if l < k then l else l - 1] == c[l];
  }

  lemma SkipRepresents<T, K>(key: T -> K, hash: (K, int) -> int, cells: seq<Cell<T>>, chains: seq<seq<int>>,
                             content: map<K, T>, table: seq<int>, i: nat, k: nat)
    requires Layout(table, cells, chains) && Represents(key, hash, cells, chains, content)
    requires i < |chains| && k < |chains[i]|
    ensures var c := chains[i];
            && 0 <= c[k] < |cells| && (k > 0 ==> 0 <= c[k - 1] < |cells|)
            && KeyAt(key, cells, c[k]) in content
            && Represents(key, hash, Skipped(cells, c, k), chains[i := Without(c, k)],
                          content - {KeyAt(key, cells, c[k])})
  {
    var c, size := chains[i], |chains|;
    assert ChainOk(cells, table[i], c) && BucketOk(key, hash, size, cells, content, i, c);
    assert CellAt(cells, c, k) && (k > 0 ==> CellAt(cells, c, k - 1));
    assert FiledAt(key, hash, size, cells, content, i, c[k]);
    var gone := KeyAt(key, cells, c[k]);
    var less, cs, ds := content - {gone}, Skipped(cells, c, k), chains[i := Without(c, k)];
    SkipKeepsData(cells, c, k);
    forall j | 0 <= j < |ds| ensures BucketOk(key, hash, size, cs, less, j, ds[j]) {
      assert BucketOk(key, hash, size, cells, content, j, chains[j]);
      if j == i {
        ShorterBucketOk(key, hash, size, cells, content, i, c, cs, k, gone);
      } else {
        OtherBucketOk(key, hash, size, cells, content, j, chains[j], cs, gone);
      }
    }
    forall q | q in less ensures 0 <= hash(q, size) < size && HasKey(key, cs, ds[hash(q, size)], q) {
      var h := hash(q, size);
      assert HasKey(key, cells, chains[h], q);
      if h == i { StillHasKey(key, cells, c, cs, k, q); } else { SameDataSameKeys(key, cells, cs, chains[h], q); }
    }
  }

  lemma SameDataSameKeys<T, K>(key: T -> K, cells: seq<Cell<T>>, cs: seq<Cell<T>>, c: seq<int>, q: K)
    requires |cs| == |cells| && forall x :: 0 <= x < |cells| ==> cs[x].data == cells[x].data
    requires HasKey(key, cells, c, q)
    ensures HasKey(key, cs, c, q)
  {
  }

  // ------------------------------------------------------------ where an iterator stands

  /** The iterator stands at position k of its chain: on that cell, or, when its cell was
      deleted, just before it. */
  ghost predicate StandsAt(chains: seq<seq<int>>, it: HashIt, k: nat, deleted: bool) {
    && 0 <= it.index < |chains| && 0 <= it.bucket
    && var c := chains[it.index];
       && k <= |c| && it.firstBucket == (k == 0) && it.prevBucket == (if k > 0 then c[k - 1] else -1)
       && (if deleted then it.bucket !in c else k < |c| && c[k] == it.bucket)
  }

  /** What the iteration has come past and not deleted, and what is still to come. */
  function Behind(chains: seq<seq<int>>, it: HashIt, k: nat, deleted: bool): seq<int>
    requires 0 <= it.index < |chains| && k <= |chains[it.index]| && (!deleted ==> k < |chains[it.index]|)
  {
    All(chains[..it.index]) + chains[it.index][..if deleted then k else k + 1]
  }

  function Ahead(chains: seq<seq<int>>, it: HashIt, k: nat, deleted: bool): seq<int>
    requires 0 <= it.index < |chains| && k <= |chains[it.index]| && (!deleted ==> k < |chains[it.index]|)
  {
    chains[it.index][if deleted then k else k + 1..] + All(chains[it.index + 1..])
  }

  /** The iteration so far: not begun, or somewhere. */
  ghost predicate Progress(chains: seq<seq<int>>, it: HashIt, k: nat, deleted: bool, behind: seq<int>,
                           ahead: seq<int>) {
    if it.bucket == -1 then it == START && behind == [] && ahead == All(chains)
    else StandsAt(chains, it, k, deleted) && behind == Behind(chains, it, k, deleted)
         && ahead == Ahead(chains, it, k, deleted)
  }

  lemma ProgressCoversAll(chains: seq<seq<int>>, it: HashIt, k: nat, deleted: bool, behind: seq<int>,
                          ahead: seq<int>)
    requires Progress(chains, it, k, deleted, behind, ahead)
    ensures All(chains) == behind + ahead
  {
    if it.bucket != -1 {
      var c, n := chains[it.index], if deleted then k else k + 1;
      AllAt(chains, it.index);
      assert c == c[..n] + c[n..];
    }
  }

  /** Moving on within the chain. */
  lemma StepsAlong(chains: seq<seq<int>>, it: HashIt, k: nat, deleted: bool, next: HashIt)
    requires StandsAt(chains, it, k, deleted)
    requires var c, n := chains[it.index], if deleted then k else k + 1;
             n < |c| && c[n] >= 0 && next == HashIt(it.index, c[n], if n > 0 then c[n - 1] else -1, n == 0)
    ensures var n := if deleted then k else k + 1;
            && StandsAt(chains, next, n, false)
            && Behind(chains, next, n, false) == Behind(chains, it, k, deleted) + [next.bucket]
            && Ahead(chains, it, k, deleted) == [next.bucket] + Ahead(chains, next, n, false)
  {
  }

  /** Moving on to the first cell of the next entry that has any. */
  lemma StepsOver(chains: seq<seq<int>>, from: int, next: HashIt)
    requires -1 <= from < next.index < |chains|
    requires forall i :: from < i < next.index ==> chains[i] == []
    requires chains[next.index] != [] && chains[next.index][0] >= 0
    requires next == HashIt(next.index, chains[next.index][0], -1, true)
    ensures StandsAt(chains, next, 0, false)
    ensures Behind(chains, next, 0, false) == All(chains[..from + 1]) + [next.bucket]
    ensures All(chains[from + 1..]) == [next.bucket] + Ahead(chains, next, 0, false)
  {
    EmptyStretch(chains, from + 1, next.index);
    FromEntry(chains, next.index);
    var c := chains[next.index];
    assert c == [c[0]] + c[1..];
  }

  /** From an entry on: its own chain, then the later ones. */
  lemma FromEntry(chains: seq<seq<int>>, i: nat)
    requires i < |chains|
    ensures All(chains[i..]) == chains[i] + All(chains[i + 1..])
  {
    assert chains[i..] == [chains[i]] + chains[i + 1..];
  }

  lemma {:induction false} EmptyStretch(chains: seq<seq<int>>, a: nat, b: nat)
    requires a <= b <= |chains| && forall i :: a <= i < b ==> chains[i] == []
    ensures All(chains[..b]) == All(chains[..a]) && All(chains[b..]) == All(chains[a..])
    decreases b - a
  {
    if a < b {
      EmptyStretch(chains, a + 1, b);
      assert chains[..a + 1] == chains[..a] + [[]];
      AllJoin(chains[..a], [[]]);
      AllSingle([]);
      assert chains[a..][1..] == chains[a + 1..];
    }
  }

  /** Standing at the end of a chain. */
  lemma AtChainEnd(chains: seq<seq<int>>, it: HashIt, k: nat, deleted: bool)
    requires StandsAt(chains, it, k, deleted) && (if deleted then k else k + 1) == |chains[it.index]|
    ensures Behind(chains, it, k, deleted) == All(chains[..it.index + 1])
    ensures Ahead(chains, it, k, deleted) == All(chains[it.index + 1..])
  {
    var c := chains[it.index];
    assert c[..|c|] == c;
    assert chains[..it.index + 1] == chains[..it.index] + [c];
    AllJoin(chains[..it.index], [c]);
    AllSingle(c);
  }

  /** Deleting the cell the iterator stands on takes it from what is behind and leaves what
      is ahead. */
  lemma DeletesBehind(chains: seq<seq<int>>, it: HashIt, k: nat)
    requires StandsAt(chains, it, k, false) && Distinct(chains[it.index])
    ensures var less := chains[it.index := Without(chains[it.index], k)];
            && StandsAt(less, it, k, true)
            && Behind(chains, it, k, false) == Behind(less, it, k, true) + [it.bucket]
            && Ahead(less, it, k, true) == Ahead(chains, it, k, false)
  {
    var c := chains[it.index];
    var less := chains[it.index := Without(c, k)];
    assert less[..it.index] == chains[..it.index] && less[it.index + 1..] == chains[it.index + 1..];
    assert Without(c, k)[..k] == c[..k] && Without(c, k)[k..] == c[k + 1..];
    assert c[..k + 1] == c[..k] + [c[k]];
    assert forall l :: 0 <= l < |c| - 1 ==> Without(c, k)[l] == c[if l < k then l else l + 1];
  }
}
