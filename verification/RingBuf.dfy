/** The ring buffer in shared memory, one writer and one reader: as long as their calls do
    not overlap it is a bounded queue of bytes, and a write is all or nothing. */
module RingBuf {
  import opened Bytes

  /** Bytes between the indices, going round. */
  function Used(start: int, end: int, size: int): int {
    if end < start then end + size - start else end - start
  }

  /** Index k places after i. */
  function Along(i: int, k: int, size: int): int {
    if i + k < size then i + k else i + k - size
  }

  predicate Indices(start: int, end: int, size: int, data: seq<byte>) {
    0 < size == |data| && 0 <= start < size && 0 <= end < size
  }

  /** The bytes written and not read yet, oldest first. */
  function Unread(start: int, end: int, size: int, data: seq<byte>): (c: seq<byte>)
    requires Indices(start, end, size, data)
    ensures |c| == Used(start, end, size) < size
  {
    seq(Used(start, end, size), k requires 0 <= k < Used(start, end, size) => data[Along(start, k, size)])
  }

  /** n more bytes stored behind the unread ones, and the end moved behind them. */
  lemma WriteAppends(start: int, end: int, size: int, before: seq<byte>, after: seq<byte>, buf: seq<byte>)
    requires Indices(start, end, size, before) && |after| == size
    requires Used(start, end, size) + |buf| + 1 <= size
    requires forall x {:trigger after[x]} :: 0 <= x < size ==>
               after[x] == if end <= x < end + |buf| then buf[x - end]
                           else if x < end + |buf| - size then buf[x + size - end] else before[x]
    ensures Unread(start, Along(end, |buf|, size), size, after) == Unread(start, end, size, before) + buf
  {
    var c, d := Unread(start, end, size, before), Unread(start, Along(end, |buf|, size), size, after);
    forall k | 0 <= k < |d| ensures d[k] == (c + buf)[k] {
      assert d[k] == after[Along(start, k, size)];
      if k < |c| {
        assert c[k] == before[Along(start, k, size)];
      } else {
        assert Along(start, k, size) == Along(end, k - |c|, size);
      }
    }
  }

  /** The start moved over the n oldest bytes. */
  lemma ReadTakes(start: int, end: int, size: int, data: seq<byte>, n: nat, buf: seq<byte>)
    requires Indices(start, end, size, data) && n <= Used(start, end, size) && |buf| == n
    requires forall k :: 0 <= k < n ==> buf[k] == data[Along(start, k, size)]
    ensures buf + Unread(Along(start, n, size), end, size, data) == Unread(start, end, size, data)
  {
  }

  class RingBuf {
    var start: int
    var end: int
    const bufsize: int
    const data: array<byte>

    ghost predicate Valid()
      reads this
    {
      0 < bufsize == data.Length && 0 <= start < bufsize && 0 <= end < bufsize
    }

    /** What has been written and not read yet, oldest first. */
    ghost function Contents(): (c: seq<byte>)
      requires Valid()
      reads this, data
      ensures |c| == Used(start, end, bufsize) < bufsize
    {
      Unread(start, end, bufsize, data[..])
    }

    constructor (initSize: int, overhead: int)
      requires 0 <= overhead < initSize
      ensures Valid() && fresh(data) && bufsize == initSize - overhead && Contents() == []
    {
      start, end, bufsize := 0, 0, initSize - overhead;
      data := new byte[initSize - overhead];
    }

    /** Copy n bytes of buf, from position `from` on, to index i of the data. */
    method CopyIn(i: int, buf: seq<byte>, from: int, n: int)
      requires Valid() && 0 <= i && 0 <= n && i + n <= bufsize && 0 <= from && from + n <= |buf|
      modifies data
      ensures forall x :: 0 <= x < bufsize ==>
                data[x] == if i <= x < i + n then buf[from + (x - i)] else old(data[x])
    {
      var k := 0;
      while k < n
        invariant 0 <= k <= n
        invariant forall x :: 0 <= x < bufsize ==>
                    data[x] == if i <= x < i + k then buf[from + (x - i)] else old(data[x])
      {
        data[i + k] := buf[from + k];
        k := k + 1;
      }
    }

    /** Write all of buf, or, when not even one byte would stay free, nothing. */
    method ShmWrite(buf: seq<byte>) returns (n: nat)
      requires Valid()
      modifies this, data
      ensures Valid()
      ensures n == if |old(Contents())| + |buf| + 1 <= bufsize then |buf| else 0
      ensures Contents() == if n == |buf| then old(Contents()) + buf else old(Contents())
    {
      var wrap := 0;
      var e, s, size := end, start, bufsize;
      if e < s { wrap := 1; }
      if s + size * (1 - wrap) - e < |buf| + 1 { return 0; }    // checking free space
      ghost var before := data[..];
      if e + |buf| > size {
        var rs := size - e;
        CopyIn(e, buf, 0, rs);                   // copy the first part ...
        CopyIn(0, buf, rs, |buf| - rs);          // .. and the rest
      } else {
        CopyIn(e, buf, 0, |buf|);                // plain copy
      }
      end := if e + |buf| >= bufsize then e + |buf| - bufsize else e + |buf|;
      n := |buf|;
      WriteAppends(s, e, size, before, data[..], buf);
    }

    /** Take up to n bytes, as many as are there. */
    method ShmRead(n: nat) returns (buf: seq<byte>)
      requires Valid()
      modifies this
      ensures Valid()
      ensures buf + Contents() == old(Contents())
      ensures |buf| == if n < |old(Contents())| then n else |old(Contents())|
    {
      var wrap := 0;
      var e, s, size := end, start, bufsize;
      if e < s { wrap := 1; }
      var rs := e + wrap * size - s;
      var mn := if n > rs then rs else n;
      if wrap == 1 && mn > size - s {
        rs := size - s;                          // what lies before the wrap
        buf := data[s..s + rs] + data[0..mn - rs];
      } else {
        buf := data[s..s + mn];
      }
      start := if s + mn >= bufsize then s + mn - bufsize else s + mn;
      ReadTakes(s, e, size, data[..], mn, buf);
    }

    /** Write, waiting for space for a while. */
    method ShmWriten(buf: seq<byte>) returns (n: int)
      requires Valid()
      modifies this, data
      ensures Valid() && (n == |buf| || n == -1)
      ensures n == |buf| <==> buf == [] || |old(Contents())| + |buf| + 1 <= bufsize
      ensures Contents() == if n == |buf| then old(Contents()) + buf else old(Contents())
    {
      var noLeft, wait := |buf|, 0;
      while noLeft > 0
        invariant Valid() && 0 <= wait <= MAXLOOP + 1
        invariant (noLeft == |buf| && Contents() == old(Contents()))
               || (noLeft == 0 && Contents() == old(Contents()) + buf && |old(Contents())| + |buf| + 1 <= bufsize)
        invariant wait > 0 && noLeft > 0 ==> |old(Contents())| + |buf| + 1 > bufsize
        decreases MAXLOOP + 1 - wait, noLeft
      {
        var noWritten := ShmWrite(buf[|buf| - noLeft..]);
        noLeft := noLeft - noWritten;
        if wait > MAXLOOP { return -1; }
        wait := wait + 1;
      }
      return |buf| - noLeft;
    }

    /** Read n bytes, or as many as there are when it is called. */
    method ShmReadn(n: nat) returns (buf: seq<byte>)
      requires Valid()
      modifies this
      ensures Valid()
      ensures buf + Contents() == old(Contents())
      ensures |buf| == if n < |old(Contents())| then n else |old(Contents())|
    {
      buf := [];
      ghost var was := Contents();
      while |buf| < n
        invariant Valid() && |buf| <= n && buf + Contents() == was
        decreases n - |buf|
      {
        ghost var rest, sofar := Contents(), buf;
        var more := ShmRead(n - |buf|);
        if more == [] { break; }
        buf := buf + more;
        assert sofar + (more + Contents()) == buf + Contents();
      }
    }
  }

  const MAXLOOP := 100
}
