/** The hash table's operations. Two elements are the same to the compare callback when
    their keys are equal; the choose callback depends on the key. */
module Hash {
  import opened Options
  import opened Sequences
  import opened Chains
  import opened HashTable

  class Table<T, K(==,!new)> {
    const table: array<int>         // first bucket of every entry, or -1
    const key: T -> K
    const hash: (K, int) -> int     // the choose callback
    var cells: seq<Cell<T>>         // the buckets ever allocated
    var elements: int
    ghost var chains: seq<seq<int>>
    ghost var content: map<K, T>

    ghost predicate Valid()
      reads this, table
    {
      && table.Length > 0 && (forall q :: 0 <= hash(q, table.Length) < table.Length)
      && Layout(table[..], cells, chains) && Represents(key, hash, cells, chains, content)
      && elements == |All(chains)|
    }

    constructor (size: int, key: T -> K, hash: (K, int) -> int)
      requires size > 0 && forall q :: 0 <= hash(q, size) < size
      ensures Valid() && fresh(table) && content == map[] && elements == 0
      ensures table.Length == size && this.key == key && this.hash == hash
    {
      table := new int[size](_ => -1);
      this.key, this.hash := key, hash;
      cells, elements := [], 0;
      chains, content := seq(size, _ => []), map[];
      new;
      NothingThere(chains);
      assert table[..] == seq(size, _ => -1);
    }

    /** How far a search of a chain for key q has come. */
    ghost predicate Searched(q: K, i: int, k: nat, bucket: int, prevBucket: int)
      requires Valid()
      reads this, table
    {
      && 0 <= i < |chains| && ChainOk(cells, table[i], chains[i]) && i == hash(q, table.Length)
      && var c := chains[i];
         && k <= |c| && bucket == (if k < |c| then c[k] else -1) && prevBucket == (if k > 0 then c[k - 1] else -1)
         && (forall l :: 0 <= l < |c| ==> 0 <= c[l] < |cells|)
         && (forall l :: 0 <= l < k ==> KeyAt(key, cells, c[l]) != q)
    }

    lemma SearchBegins(q: K)
      requires Valid()
      ensures var i := hash(q, table.Length); Searched(q, i, 0, table[i], -1)
    {
      var i := hash(q, table.Length);
      var c := chains[i];
      assert ChainOk(cells, table[i], c);
      forall l | 0 <= l < |c| ensures 0 <= c[l] < |cells| { assert CellAt(cells, c, l); }
    }

    lemma SearchGoesOn(q: K, i: int, k: nat, bucket: int, prevBucket: int)
      requires Valid() && Searched(q, i, k, bucket, prevBucket) && bucket != -1
      ensures 0 <= bucket < |cells| && k < |chains[i]|
      ensures KeyAt(key, cells, bucket) != q ==> Searched(q, i, k + 1, cells[bucket].next, bucket)
    {
      assert CellAt(cells, chains[i], k);
      if k + 1 < |chains[i]| { assert CellAt(cells, chains[i], k + 1); }
    }

    /** A search that meets the key meets the map's element; one that ends has no key. */
    lemma SearchTellsAll(q: K, i: int, k: nat, bucket: int, prevBucket: int)
      requires Valid() && Searched(q, i, k, bucket, prevBucket)
      ensures bucket == -1 ==> k == |chains[i]| && q !in content
      ensures bucket != -1 && 0 <= bucket < |cells| && KeyAt(key, cells, bucket) == q ==>
                q in content && content[q] == cells[bucket].data
    {
      var c := chains[i];
      assert BucketOk(key, hash, |chains|, cells, content, i, c);
      if bucket == -1 {
        assert k == |c|;
        assert !HasKey(key, cells, c, q);
      } else {
        assert FiledAt(key, hash, |chains|, cells, content, i, c[k]);
      }
    }

    /** Adds data to the table, unless an equal element is there. */
    method Add(data: T) returns (r: int)
      requires Valid()
      modifies this, table
      ensures Valid()
      ensures r == (if key(data) in old(content) then -1 else 0)
      ensures content == if key(data) in old(content) then old(content) else old(content)[key(data) := data]
      ensures elements == old(elements) + r + 1
    {
      var index := hash(key(data), table.Length);
      var bucket, prevBucket := table[index], -1;
      ghost var k: nat := 0;
      SearchBegins(key(data));
      while bucket != -1
        invariant unchanged(this) && unchanged(table)
        invariant Searched(key(data), index, k, bucket, prevBucket)
        decreases |chains[index]| - k
      {
        SearchGoesOn(key(data), index, k, bucket, prevBucket);
        SearchTellsAll(key(data), index, k, bucket, prevBucket);
        if key(cells[bucket].data) == key(data) { return -1; }
        prevBucket := bucket;
        bucket := cells[bucket].next;
        k := k + 1;
      }
      SearchTellsAll(key(data), index, k, bucket, prevBucket);
      AddAtEnd(index, prevBucket, data);
      return 0;
    }

    /** The new cell goes behind the last one of its entry. */
    method AddAtEnd(index: int, prevBucket: int, data: T)
      requires Valid() && index == hash(key(data), table.Length) && key(data) !in content
      requires var c := chains[index]; prevBucket == if c == [] then -1 else c[|c| - 1]
      modifies this, table
      ensures Valid() && content == old(content)[key(data) := data] && elements == old(elements) + 1
    {
      ghost var c := chains[index];
      AppendKeepsLayout(table[..], cells, chains, index, data);
      AppendRepresents(key, hash, cells, chains, content, table[..], data);
      AllUpdate(chains, index, c + [|cells|]);
      var bucket := |cells|;
      ghost var was, heads := cells, table[..];
      cells := cells + [Cell(data, -1)];
      if prevBucket == -1 {
        table[index] := bucket;
      } else {
        cells := cells[prevBucket := cells[prevBucket].(next := bucket)];
      }
      assert cells == Appended(was, c, data);
      assert table[..] == heads[index := if c == [] then |was| else heads[index]];
      chains, content := chains[index := c + [bucket]], content[key(data) := data];
      elements := elements + 1;
    }

    /** Looks a key up. */
    method Find(q: K) returns (r: Option<T>)
      requires Valid()
      ensures r == if q in content then Some(content[q]) else None
    {
      var index := hash(q, table.Length);
      var bucket := table[index];
      ghost var k: nat, prev := 0, -1;
      SearchBegins(q);
      while bucket != -1
        invariant Searched(q, index, k, bucket, prev)
        decreases |chains[index]| - k
      {
        SearchGoesOn(q, index, k, bucket, prev);
        SearchTellsAll(q, index, k, bucket, prev);
        if key(cells[bucket].data) == q { return Some(cells[bucket].data); }
        prev := bucket;
        bucket := cells[bucket].next;
        k := k + 1;
      }
      SearchTellsAll(q, index, k, bucket, prev);
      return None;
    }

    /** Remove the bucket the iterator stands on; what lies ahead of it stays. */
    method RemoveBucket(it: HashIt, ghost k: nat) returns (data: T)
      requires Valid() && StandsAt(chains, it, k, false)
      modifies this, table
      ensures Valid() && 0 <= it.bucket < |old(cells)| && data == old(cells)[it.bucket].data
      ensures key(data) in old(content) && content == old(content) - {key(data)} && elements == old(elements) - 1
      ensures chains == old(chains)[it.index := Without(old(chains)[it.index], k)]
      ensures StandsAt(chains, it, k, true) && KeptCells(old(cells), cells) && |cells| == |old(cells)|
    {
      ghost var c, was, heads := chains[it.index], cells, table[..];
      assert ChainOk(cells, table[it.index], c);
      DeletesBehind(chains, it, k);
      SkipKeepsLayout(heads, cells, chains, it.index, k);
      SkipRepresents(key, hash, cells, chains, content, heads, it.index, k);
      AllUpdate(chains, it.index, Without(c, k));
      data := cells[it.bucket].data;
      if it.prevBucket != -1 {
        cells := cells[it.prevBucket := cells[it.prevBucket].(next := cells[it.bucket].next)];
      } else if it.firstBucket {
        table[it.index] := cells[it.bucket].next;
      }
      assert cells == Skipped(was, c, k);
      assert table[..] == heads[it.index := if k > 0 then heads[it.index] else was[c[k]].next];
      chains, content := chains[it.index := Without(c, k)], content - {key(data)};
      elements := elements - 1;
    }

    /** Removes data from the table, if found. */
    method Remove(q: K) returns (r: Option<T>)
      requires Valid()
      modifies this, table
      ensures Valid() && r == (if q in old(content) then Some(old(content)[q]) else None)
      ensures content == old(content) - {q}
      ensures elements == old(elements) - if q in old(content) then 1 else 0
    {
      var index := hash(q, table.Length);
      var bucket, prevBucket := table[index], -1;
      ghost var k: nat := 0;
      SearchBegins(q);
      while bucket != -1
        invariant unchanged(this) && unchanged(table)
        invariant Searched(q, index, k, bucket, prevBucket)
        decreases |chains[index]| - k
      {
        SearchGoesOn(q, index, k, bucket, prevBucket);
        SearchTellsAll(q, index, k, bucket, prevBucket);
        if key(cells[bucket].data) == q {
          FirstIsFirst(cells, table[index], chains[index], k);
          var it := HashIt(index, bucket, prevBucket, bucket == table[index]);
          var data := RemoveBucket(it, k);
          return Some(data);
        }
        prevBucket := bucket;
        bucket := cells[bucket].next;
        k := k + 1;
      }
      SearchTellsAll(q, index, k, bucket, prevBucket);
      return None;
    }

    // ---------------------------------------------------------- resizing

    /** Which keys have been copied when the copying has come to position k of entry i. */
    ghost predicate Copied(q: K, i: int, k: nat)
      requires Valid()
      reads this, table
    {
      && q in content && 0 <= i
      && (hash(q, table.Length) < i || (hash(q, table.Length) == i && i < table.Length && Seen(q, i, k)))
    }

    ghost predicate Seen(q: K, i: int, k: nat)
      requires 0 <= i < |chains|
      reads this
    {
      exists l :: 0 <= l < k && l < |chains[i]| && 0 <= chains[i][l] < |cells| && KeyAt(key, cells, chains[i][l]) == q
    }

    lemma CopiesOne(i: int, k: nat)
      requires Valid() && 0 <= i < |chains| && k < |chains[i]|
      ensures var x := chains[i][k];
              && 0 <= x < |cells| && KeyAt(key, cells, x) in content && content[KeyAt(key, cells, x)] == cells[x].data
              && cells[x].next == if k + 1 < |chains[i]| then chains[i][k + 1] else -1
      ensures forall q :: Copied(q, i, k + 1) <==> Copied(q, i, k) || q == KeyAt(key, cells, chains[i][k])
    {
      assert ChainOk(cells, table[i], chains[i]) && CellAt(cells, chains[i], k);
      assert BucketOk(key, hash, |chains|, cells, content, i, chains[i]);
      assert FiledAt(key, hash, |chains|, cells, content, i, chains[i][k]);
      ghost var k1 := k + 1;
      forall q ensures Copied(q, i, k1) <==> Copied(q, i, k) || q == KeyAt(key, cells, chains[i][k]) {
        SeenStep(q, i, k);
      }
    }

    lemma SeenStep(q: K, i: int, k: nat)
      requires 0 <= i < |chains| && k < |chains[i]| && 0 <= chains[i][k] < |cells|
      ensures Seen(q, i, k + 1) <==> Seen(q, i, k) || KeyAt(key, cells, chains[i][k]) == q
    {
      if l :| 0 <= l < k && 0 <= chains[i][l] < |cells| && KeyAt(key, cells, chains[i][l]) == q {
        assert 0 <= l < k + 1;
      }
      if KeyAt(key, cells, chains[i][k]) == q { assert 0 <= k < k + 1; }
    }

    /** A chain that was copied to its end is copied. */
    lemma CopiesEntry(i: int, k: nat)
      requires Valid() && 0 <= i < |chains| && k == |chains[i]|
      ensures forall q :: Copied(q, i + 1, 0) <==> Copied(q, i, k)
    {
      forall q | q in content && hash(q, table.Length) == i ensures Seen(q, i, k) {
        assert HasKey(key, cells, chains[i], q);
      }
    }

    /** Resize the table: the new one holds the same elements. */
    method Resize(size: int) returns (newHash: Table<T, K>)
      requires Valid() && size > 0 && forall q :: 0 <= hash(q, size) < size
      ensures newHash.Valid() && fresh(newHash) && fresh(newHash.table)
      ensures newHash.content == content && newHash.table.Length == size
      ensures newHash.key == key && newHash.hash == hash
    {
      newHash := new Table(size, key, hash);
      var i := 0;
      while i < table.Length
        modifies newHash, newHash.table
        invariant 0 <= i <= table.Length && newHash.Valid()
        invariant forall q :: q in newHash.content <==> Copied(q, i, 0)
        invariant forall q :: q in newHash.content ==> q in content && newHash.content[q] == content[q]
      {
        CopyEntry(newHash, i);
        i := i + 1;
      }
      assert newHash.content == content;
    }

    method CopyEntry(newHash: Table<T, K>, i: int)
      requires Valid() && newHash.Valid() && newHash != this && newHash.table != table && 0 <= i < table.Length
      requires newHash.key == key
      requires forall q :: q in newHash.content <==> Copied(q, i, 0)
      requires forall q :: q in newHash.content ==> q in content && newHash.content[q] == content[q]
      modifies newHash, newHash.table
      ensures newHash.Valid()
      ensures forall q :: q in newHash.content <==> Copied(q, i + 1, 0)
      ensures forall q :: q in newHash.content ==> q in content && newHash.content[q] == content[q]
    {
      var bucket := table[i];
      ghost var k: nat := 0;
      assert ChainOk(cells, table[i], chains[i]);
      while bucket != -1
        invariant newHash.Valid() && k <= |chains[i]| && bucket == if k < |chains[i]| then chains[i][k] else -1
        invariant forall q :: q in newHash.content <==> Copied(q, i, k)
        invariant forall q :: q in newHash.content ==> q in content && newHash.content[q] == content[q]
        decreases |chains[i]| - k
      {
        CopiesOne(i, k);
        var r := newHash.Add(cells[bucket].data);
        bucket := cells[bucket].next;
        k := k + 1;
      }
      if k < |chains[i]| { CopiesOne(i, k); }
      CopiesEntry(i, k);
    }

    // ---------------------------------------------------------- iterating

    /** Go on within the chain the iterator stands in, if anything is left of it. The three
        ways the current bucket can have been removed are told apart by what it was reached
        from. */
    method IterateChain(it: HashIt, ghost k: nat, ghost deleted: bool) returns (next: HashIt, more: bool)
      requires Valid() && StandsAt(chains, it, k, deleted)
      ensures var c, n := chains[it.index], if deleted then k else k + 1;
              && more == (n < |c|)
              && (more ==> c[n] >= 0 && next == HashIt(it.index, c[n], if n > 0 then c[n - 1] else -1, n == 0))
    {
      assert ChainOk(cells, table[it.index], chains[it.index]);
      ghost var c, n := chains[it.index], if deleted then k else k + 1;
      if n < |c| { assert CellAt(cells, c, n); }
      if k > 0 { assert CellAt(cells, c, k - 1); }
      if !deleted { assert CellAt(cells, c, k); }
      next := it;
      if next.firstBucket {
        if table[next.index] != next.bucket {           // the first element got removed
          if table[next.index] != -1 {
            next := HashIt(next.index, table[next.index], -1, true);
            return next, true;
          } else {
            next := next.(bucket := -1);
          }
        }
      } else if next.prevBucket != -1 {
        if cells[next.prevBucket].next != next.bucket {   // a later one got removed
          next := next.(bucket := next.prevBucket);
        }
      }
      if next.bucket != -1 {
        if cells[next.bucket].next != -1 {
          next := HashIt(next.index, cells[next.bucket].next, next.bucket, false);
          return next, true;
        }
      }
      more := false;
    }

    /** Iterate through the table, also after the bucket last returned was removed: whatever
        is ahead comes next, and nothing else. */
    method Iterate(it: HashIt, ghost k: nat, ghost deleted: bool, ghost behind: seq<int>, ghost ahead: seq<int>)
      returns (next: HashIt, more: bool, ghost k': nat)
      requires Valid() && Progress(chains, it, k, deleted, behind, ahead)
      ensures more == (ahead != [])
      ensures more ==> next.bucket == ahead[0] && StandsAt(chains, next, k', false)
                       && Progress(chains, next, k', false, behind + [ahead[0]], ahead[1..])
    {
      if it.bucket != -1 {
        next, more := IterateChain(it, k, deleted);
        k' := if deleted then k else k + 1;
        if more {
          StepsAlong(chains, it, k, deleted, next);
          return;
        }
        AtChainEnd(chains, it, k, deleted);
      }
      next, more := NextEntry(it.index);
      k' := 0;
    }

    /** Search forward for the next entry that is not empty. */
    method NextEntry(from: int) returns (next: HashIt, more: bool)
      requires Valid() && -1 <= from < table.Length
      ensures more == (All(chains[from + 1..]) != [])
      ensures more ==> StandsAt(chains, next, 0, false)
                       && Behind(chains, next, 0, false) == All(chains[..from + 1]) + [next.bucket]
                       && All(chains[from + 1..]) == [next.bucket] + Ahead(chains, next, 0, false)
    {
      next := HashIt(from + 1, -1, -1, false);
      while next.index < table.Length
        invariant from < next.index <= table.Length
        invariant forall i :: from < i < next.index ==> chains[i] == []
        decreases table.Length - next.index
      {
        assert ChainOk(cells, table[next.index], chains[next.index]);
        if chains[next.index] != [] { assert CellAt(cells, chains[next.index], 0); }
        if table[next.index] != -1 {
          next := next.(prevBucket := -1, bucket := table[next.index], firstBucket := true);
          StepsOver(chains, from, next);
          return next, true;
        } else {
          next := next.(index := next.index + 1);
        }
      }
      NothingThere(chains[from + 1..]);
      return START, false;
    }

    /** Every cell of the table files its own key: what is met is what the map holds, and no
        key is met twice. */
    lemma MetKeys()
      requires Valid()
      ensures forall x :: x in All(chains) ==>
                0 <= x < |cells| && KeyAt(key, cells, x) in content && content[KeyAt(key, cells, x)] == cells[x].data
      ensures forall q :: q in content ==> exists x :: x in All(chains) && 0 <= x < |cells| && KeyAt(key, cells, x) == q
      ensures Distinct(All(chains))
      ensures forall x, y :: x in All(chains) && y in All(chains) && x != y ==>
                0 <= x < |cells| && 0 <= y < |cells| && KeyAt(key, cells, x) != KeyAt(key, cells, y)
    {
      forall i | 0 <= i < |chains| ensures Distinct(chains[i]) { assert ChainOk(cells, table[..][i], chains[i]); }
      AllIsDistinct(chains);
      forall x | x in All(chains) ensures exists i :: 0 <= i < |chains| && MetAt(i, x) {
        AllMembers(chains, x);
        var i :| 0 <= i < |chains| && x in chains[i];
        assert BucketOk(key, hash, |chains|, cells, content, i, chains[i]);
        assert MetAt(i, x);
      }
      forall q | q in content ensures exists x :: x in All(chains) && 0 <= x < |cells| && KeyAt(key, cells, x) == q {
        var i := hash(q, |chains|);
        assert HasKey(key, cells, chains[i], q);
        var k :| 0 <= k < |chains[i]| && 0 <= chains[i][k] < |cells| && KeyAt(key, cells, chains[i][k]) == q;
        AllMembers(chains, chains[i][k]);
      }
      forall x, y | x in All(chains) && y in All(chains) && x != y
        ensures KeyAt(key, cells, x) != KeyAt(key, cells, y)
      {
        var i :| 0 <= i < |chains| && MetAt(i, x);
        var j :| 0 <= j < |chains| && MetAt(j, y);
        assert BucketOk(key, hash, |chains|, cells, content, i, chains[i]);
      }
    }

    ghost predicate MetAt(i: int, x: int)
      requires 0 <= i < |chains|
      reads this
    {
      x in chains[i] && FiledAt(key, hash, |chains|, cells, content, i, x)
    }

    /** Delete the element the iteration stands on. */
    method DeleteHere(it: HashIt, ghost k: nat, ghost behind: seq<int>, ghost ahead: seq<int>)
      requires Valid() && StandsAt(chains, it, k, false)
      requires Progress(chains, it, k, false, behind + [it.bucket], ahead)
      modifies this, table
      ensures Valid() && Progress(chains, it, k, true, behind, ahead)
      ensures KeptCells(old(cells), cells) && |cells| == |old(cells)|
      ensures 0 <= it.bucket < |cells| && content == old(content) - {KeyAt(key, cells, it.bucket)}
    {
      assert ChainOk(cells, table[it.index], chains[it.index]);
      DeletesBehind(chains, it, k);
      ghost var less := chains[it.index := Without(chains[it.index], k)];
      assert behind == (behind + [it.bucket])[..|behind|] == Behind(less, it, k, true);
      var data := RemoveBucket(it, k);
    }

    /** Where a sweep that began with cells `was` and map `held` stands. */
    ghost predicate SweptTo(was: seq<Cell<T>>, held: map<K, T>, met: seq<int>, drop: (nat, T) -> bool)
      reads this
    {
      && KeptCells(was, cells) && |cells| == |was|
      && (forall i :: 0 <= i < |met| ==> DecidedAt(key, was, content, met, drop, i))
      && (forall q :: q in content ==> q in held && content[q] == held[q])
    }

    /** One element's turn: it may be deleted, and the iteration moves on. */
    method SweepOne(remove: bool, ghost drop: (nat, T) -> bool, ghost i: nat, ghost was: seq<Cell<T>>, ghost held: map<K, T>,
                    ghost all: seq<int>, ghost met: seq<int>, ghost behind: seq<int>, ghost ahead: seq<int>,
                    it: HashIt, ghost k: nat)
      returns (ghost behind': seq<int>, next: HashIt, ghost k': nat, more: bool)
      requires Valid() && i == |met| && SweptTo(was, held, met, drop) && StandsAt(chains, it, k, false)
      requires behind == Survivors(met, was, drop) && 0 <= it.bucket < |was|
      requires remove == drop(i, was[it.bucket].data)
      requires Progress(chains, it, k, false, behind + [it.bucket], ahead)
      requires forall j :: 0 <= j < i && 0 <= met[j] < |was| ==> KeyAt(key, was, met[j]) != KeyAt(key, was, it.bucket)
      modifies this, table
      ensures Valid() && SweptTo(was, held, met + [it.bucket], drop)
      ensures behind' == Survivors(met + [it.bucket], was, drop)
      ensures more == (ahead != [])
      ensures more ==> next.bucket == ahead[0] && StandsAt(chains, next, k', false)
                       && Progress(chains, next, k', false, behind' + [next.bucket], ahead[1..])
      ensures !more ==> behind' == All(chains)
    {
      assert (met + [it.bucket])[..i] == met;
      assert BucketOk(key, hash, |chains|, cells, content, it.index, chains[it.index]);
      assert FiledAt(key, hash, |chains|, cells, content, it.index, chains[it.index][k]);
      ghost var deleted, before := false, content;
      behind' := behind + [it.bucket];
      if remove {
        behind', deleted := behind, true;
        DeleteHere(it, k, behind, ahead);
      }
      DecidedOneMore(key, was, before, content, met, it.bucket, drop);
      ProgressCoversAll(chains, it, k, deleted, behind', ahead);
      next, more, k' := Iterate(it, k, deleted, behind', ahead);
    }

    /** A sweep of the cells `all` has met i of them and stands on the next, if there is one. */
    ghost predicate Sweeping(all: seq<int>, was: seq<Cell<T>>, held: map<K, T>, drop: (nat, T) -> bool, i: nat,
                             behind: seq<int>, it: HashIt, k: nat, more: bool)
      reads this
    {
      && KeysDiffer(key, was, all) && i <= |all| && SweptTo(was, held, all[..i], drop)
      && behind == Survivors(all[..i], was, drop) && more == (i < |all|)
      && (more ==> all[i] == it.bucket && StandsAt(chains, it, k, false)
                   && Progress(chains, it, k, false, behind + [it.bucket], all[i + 1..]))
      && (!more ==> behind == All(chains))
    }

    /** One step of a sweep: delete the current element or not, and move on. */
    method SweepNext(remove: bool, ghost all: seq<int>, ghost was: seq<Cell<T>>, ghost held: map<K, T>,
                     ghost drop: (nat, T) -> bool, ghost i: nat, ghost behind: seq<int>, it: HashIt, ghost k: nat)
      returns (ghost behind': seq<int>, next: HashIt, ghost k': nat, more: bool)
      requires Valid() && Sweeping(all, was, held, drop, i, behind, it, k, true)
      requires 0 <= it.bucket < |cells| && remove == drop(i, cells[it.bucket].data)
      modifies this, table
      ensures Valid() && Sweeping(all, was, held, drop, i + 1, behind', next, k', more)
    {
      KeysDifferBefore(key, was, all, i);
      behind', next, k', more := SweepOne(remove, drop, i, was, held, all, all[..i], behind, all[i + 1..], it, k);
    }

    /** Iterate through the whole table, deleting the current element whenever `drop` says
        so: every element there was at the start is met exactly once, and just the others
        are left. */
    method Sweep(drop: (nat, T) -> bool) returns (ghost met: seq<int>)
      requires Valid()
      modifies this, table
      ensures Valid() && KeptCells(old(cells), cells)
      ensures met == old(All(chains)) && Distinct(met)
      ensures All(chains) == Survivors(met, old(cells), drop) && elements == |Survivors(met, old(cells), drop)|
      ensures forall i :: 0 <= i < |met| ==> DecidedAt(key, old(cells), content, met, drop, i)
      ensures forall q :: q in content ==> q in old(content) && content[q] == old(content)[q]
    {
      met := All(chains);
      ghost var was, held := cells, content;
      MetKeysDiffer();
      var it, more, i := START, true, 0;
      ghost var k: nat, behind: seq<int> := 0, [];
      it, more, k := Iterate(it, 0, false, [], met);
      assert met[..0] == [];
      while more
        invariant Valid() && Sweeping(met, was, held, drop, i, behind, it, k, more)
        decreases |met| - i
      {
        Current(it, k);
        behind, it, k, more := SweepNext(drop(i, cells[it.bucket].data), met, was, held, drop, i, behind, it, k);
        i := i + 1;
      }
      assert met[..i] == met;
    }

    lemma Current(it: HashIt, k: nat)
      requires Valid() && StandsAt(chains, it, k, false)
      ensures 0 <= it.bucket < |cells|
      ensures KeyAt(key, cells, it.bucket) in content
      ensures content[KeyAt(key, cells, it.bucket)] == cells[it.bucket].data
    {
      assert BucketOk(key, hash, |chains|, cells, content, it.index, chains[it.index]);
      assert FiledAt(key, hash, |chains|, cells, content, it.index, chains[it.index][k]);
    }

    lemma MetKeysDiffer()
      requires Valid()
      ensures KeysDiffer(key, cells, All(chains)) && Distinct(All(chains))
    {
      MetKeys();
      var all := All(chains);
      forall i, j | 0 <= i < j < |all|
        ensures 0 <= all[i] < |cells| && 0 <= all[j] < |cells| && KeyAt(key, cells, all[i]) != KeyAt(key, cells, all[j])
      {
        assert all[i] in all && all[j] in all;
      }
      assert |all| > 0 ==> all[0] in all;
    }
  }

  ghost predicate KeysDiffer<T, K>(key: T -> K, cells: seq<Cell<T>>, all: seq<int>) {
    && (forall i :: 0 <= i < |all| ==> 0 <= all[i] < |cells|)
    && (forall i, j :: 0 <= i < j < |all| ==> KeyAt(key, cells, all[i]) != KeyAt(key, cells, all[j]))
  }

  lemma KeysDifferBefore<T, K>(key: T -> K, cells: seq<Cell<T>>, all: seq<int>, i: nat)
    requires KeysDiffer(key, cells, all) && i < |all|
    ensures 0 <= all[i] < |cells| && all[..i + 1] == all[..i] + [all[i]]
    ensures forall j :: 0 <= j < i && 0 <= all[..i][j] < |cells| ==>
              KeyAt(key, cells, all[..i][j]) != KeyAt(key, cells, all[i])
  {
  }

  /** Cells keep their data. */
  ghost predicate KeptCells<T>(was: seq<Cell<T>>, now: seq<Cell<T>>) {
    |was| <= |now| && forall x :: 0 <= x < |was| ==> now[x].data == was[x].data
  }

  lemma FirstIsFirst<T>(cells: seq<Cell<T>>, head: int, c: seq<int>, k: nat)
    requires ChainOk(cells, head, c) && k < |c|
    ensures c[k] == head <==> k == 0
  {
  }

  lemma {:induction false} NothingThere(chains: seq<seq<int>>)
    requires forall i :: 0 <= i < |chains| ==> chains[i] == []
    ensures All(chains) == []
  {
    if chains != [] { NothingThere(chains[1..]); }
  }

  /** The cells met so far that were not deleted. */
  function Survivors<T>(met: seq<int>, cells: seq<Cell<T>>, drop: (nat, T) -> bool): seq<int>
  {
    if met == [] then []
    else
      var n := |met| - 1;
      Survivors(met[..n], cells, drop)
      + if 0 <= met[n] < |cells| && drop(n, cells[met[n]].data) then [] else [met[n]]
  }

  /** Element i of those met is still in the map exactly if it was not to be deleted. */
  ghost predicate DecidedAt<T, K>(key: T -> K, was: seq<Cell<T>>, content: map<K, T>, met: seq<int>,
                                  drop: (nat, T) -> bool, i: nat)
    requires i < |met|
  {
    0 <= met[i] < |was| && (drop(i, was[met[i]].data) <==> KeyAt(key, was, met[i]) !in content)
  }

  lemma DecidedOneMore<T, K>(key: T -> K, was: seq<Cell<T>>, before: map<K, T>, after: map<K, T>, met: seq<int>,
                             x: int, drop: (nat, T) -> bool)
    requires 0 <= x < |was| && KeyAt(key, was, x) in before
    requires forall i :: 0 <= i < |met| ==>
               DecidedAt(key, was, before, met, drop, i) && KeyAt(key, was, met[i]) != KeyAt(key, was, x)
    requires after == if drop(|met|, was[x].data) then before - {KeyAt(key, was, x)} else before
    ensures forall i :: 0 <= i <= |met| ==> DecidedAt(key, was, after, met + [x], drop, i)
  {
    forall i | 0 <= i <= |met| ensures DecidedAt(key, was, after, met + [x], drop, i) {
      if i < |met| { assert DecidedAt(key, was, before, met, drop, i); }
    }
  }
}
