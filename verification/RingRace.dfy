/** The ring buffer with writer and reader running at the same time. Each call is a
    snapshot of the two indices, a copy byte by byte, and the publication of its own index;
    the steps of the two calls interleave in any way. */
module RingRace {
  import opened Bytes
  import opened RingBuf

  /** A write under way, from its snapshot to its publication: k bytes of buf are copied. */
  datatype Writer = WIdle | Writing(e: int, buf: seq<byte>, k: nat)

  /** A read under way: got is what has been copied of the n bytes it will take. */
  datatype Reader = RIdle | Reading(s: int, n: nat, got: seq<byte>)

  /** The shared memory and both calls; and what was ever accepted and read. */
  datatype Race = Race(
    data: seq<byte>, start: int, end: int, writer: Writer, reader: Reader,
    accepted: seq<byte>,     // of all published writes
    received: seq<byte>)     // of all published reads

  datatype Step =
    | WBegin(buf: seq<byte>)
    | WCopy
    | WPublish
    | RBegin(n: nat)
    | RCopy
    | RPublish

  /** The free-space check of a write, on the indices it sees. */
  predicate Fits(start: int, end: int, size: int, n: nat) {
    size - Used(start, end, size) >= n + 1
  }

  predicate Enabled(c: Race, step: Step) {
    match step
    case WBegin(buf) => c.writer.WIdle?
    case WCopy => c.writer.Writing? && c.writer.k < |c.writer.buf|
    case WPublish => c.writer.Writing? && c.writer.k == |c.writer.buf|
    case RBegin(n) => c.reader.RIdle?
    case RCopy => c.reader.Reading? && |c.reader.got| < c.reader.n
    case RPublish => c.reader.Reading? && |c.reader.got| == c.reader.n
  }

  /** Where the next copy of either side goes to or comes from. */
  function WriteAt(c: Race): int { if c.writer.Writing? then Along(c.writer.e, c.writer.k, |c.data|) else 0 }

  function ReadAt(c: Race): int { if c.reader.Reading? then Along(c.reader.s, |c.reader.got|, |c.data|) else 0 }

  /** Access to the data, which nothing here keeps inside; CopiesStayInside tells. */
  function Put(data: seq<byte>, i: int, b: byte): seq<byte> { if 0 <= i < |data| then data[i := b] else data }

  function Get(data: seq<byte>, i: int): byte { if 0 <= i < |data| then data[i] else 0 }

  function Next(c: Race, step: Step): Race
    requires Enabled(c, step)
  {
    var size := |c.data|;
    match step
    case WBegin(buf) =>
      // a write that does not fit returns 0 at once
      if Fits(c.start, c.end, size, |buf|) then c.(writer := Writing(c.end, buf, 0)) else c
    case WCopy =>
      var w := c.writer;
      c.(data := Put(c.data, WriteAt(c), w.buf[w.k]), writer := w.(k := w.k + 1))
    case WPublish =>
      var w := c.writer;
      c.(end := Along(w.e, |w.buf|, size), writer := WIdle, accepted := c.accepted + w.buf)
    case RBegin(n) =>
      var there := Used(c.start, c.end, size);
      c.(reader := Reading(c.start, if n > there then (if there < 0 then 0 else there) else n, []))
    case RCopy =>
      var r := c.reader;
      c.(reader := r.(got := r.got + [Get(c.data, ReadAt(c))]))
    case RPublish =>
      var r := c.reader;
      c.(start := Along(r.s, r.n, size), reader := RIdle, received := c.received + r.got)
  }

  function Initial(size: nat): Race {
    Race(seq(size, _ => 0), 0, 0, WIdle, RIdle, [], [])
  }

  // ------------------------------------------------------------ the invariant

  /** The slot of byte number i of the stream. */
  function Slot(i: nat, size: nat): nat
    requires size > 0
  {
    i % size
  }

  /** Byte i of the stream is in its slot. */
  predicate Stored(c: Race, i: nat)
    requires |c.data| > 0
  {
    i < |c.accepted| && c.data[Slot(i, |c.data|)] == c.accepted[i]
  }

  /** Counting all bytes ever written and read: the reader is never ahead of the writer nor
      a full round behind, every unread byte is in its slot, and what was read is a prefix
      of what was written. */
  ghost predicate Inv(c: Race) {
    var R, W, size := |c.received|, |c.accepted|, |c.data|;
    && size > 0 && R <= W < R + size && c.start == Slot(R, size) && c.end == Slot(W, size)
    && c.received == c.accepted[..R]
    && (forall i: nat {:trigger Stored(c, i)} :: R <= i < W ==> Stored(c, i))
    && WriterOk(c) && ReaderOk(c)
  }

  ghost predicate WriterOk(c: Race)
    requires |c.data| > 0
  {
    var R, W, size := |c.received|, |c.accepted|, |c.data|;
    c.writer.Writing? ==>
      && c.writer.e == c.end && c.writer.k <= |c.writer.buf| && W + |c.writer.buf| < R + size
      && forall j: nat :: j < c.writer.k ==> c.data[Slot(W + j, size)] == c.writer.buf[j]
  }

  ghost predicate ReaderOk(c: Race)
    requires |c.data| > 0
  {
    var R, W := |c.received|, |c.accepted|;
    c.reader.Reading? ==>
      && c.reader.s == c.start && |c.reader.got| <= c.reader.n && R + c.reader.n <= W
      && c.reader.got == c.accepted[R..R + |c.reader.got|]
  }

  lemma {:induction false} SlotSteps(i: nat, k: nat, size: nat)
    requires size > 0 && k <= size
    ensures Along(Slot(i, size), k, size) == Slot(i + k, size) || k == size
    ensures k < size ==> 0 <= Along(Slot(i, size), k, size) < size
  {
    if k < size { ModAdd(i, k, size); }
  }

  lemma ModAdd(i: nat, k: nat, size: nat)
    requires size > 0 && k < size
    ensures (i + k) % size == if i % size + k < size then i % size + k else i % size + k - size
  {
    var q, r := i / size, i % size;
    assert i == q * size + r;
    if r + k < size { ModUnique(i + k, q, r + k, size); } else { ModUnique(i + k, q + 1, r + k - size, size); }
  }

  lemma ModUnique(x: nat, q: nat, r: nat, size: nat)
    requires size > 0 && x == q * size + r && r < size
    ensures x % size == r
  {
    var q', r' := x / size, x % size;
    assert x == q' * size + r';
    if q' != q {
      if q' < q { assert (q - q') * size >= size by { MulAtLeast(q - q', size); } }
      else { assert (q' - q) * size >= size by { MulAtLeast(q' - q, size); } }
    }
  }

  lemma MulAtLeast(a: nat, b: nat)
    requires a >= 1
    ensures a * b >= b
  {
  }

  /** Different bytes less than a round apart have different slots. */
  lemma SlotsDiffer(i: nat, j: nat, size: nat)
    requires size > 0 && i < j < i + size
    ensures Slot(i, size) != Slot(j, size)
  {
    ModAdd(i, j - i, size);
  }

  /** The index arithmetic measures the unread bytes. */
  lemma UsedIsUnread(R: nat, W: nat, size: nat)
    requires size > 0 && R <= W < R + size
    ensures Used(Slot(R, size), Slot(W, size), size) == W - R
  {
    ModAdd(R, W - R, size);
  }

  // ------------------------------------------------------------ every step keeps it

  lemma WBeginKeeps(c: Race, buf: seq<byte>)
    requires Inv(c) && Enabled(c, WBegin(buf))
    ensures Inv(Next(c, WBegin(buf)))
  {
    UsedIsUnread(|c.received|, |c.accepted|, |c.data|);
    var d := Next(c, WBegin(buf));
    forall i: nat | |d.received| <= i < |d.accepted| ensures Stored(d, i) { assert Stored(c, i); }
  }

  /** The slot the next byte goes to. */
  lemma WCopyPlace(c: Race)
    requires Inv(c) && Enabled(c, WCopy)
    ensures var size := |c.data|;
            && WriteAt(c) == Slot(|c.accepted| + c.writer.k, size) && c.writer.k < size
            && Next(c, WCopy).data == c.data[WriteAt(c) := c.writer.buf[c.writer.k]]
  {
    SlotSteps(|c.accepted|, c.writer.k, |c.data|);
  }

  /** The bytes within a round before it keep their slots. */
  lemma WCopyMisses(c: Race, i: nat)
    requires Inv(c) && Enabled(c, WCopy) && |c.received| <= i < |c.accepted| + c.writer.k
    ensures Next(c, WCopy).data[Slot(i, |c.data|)] == c.data[Slot(i, |c.data|)]
  {
    WCopyPlace(c);
    SlotsDiffer(i, |c.accepted| + c.writer.k, |c.data|);
  }

  /** A byte is copied to a slot no unread byte is in. */
  lemma WCopyKeeps(c: Race)
    requires Inv(c) && Enabled(c, WCopy)
    ensures Inv(Next(c, WCopy))
  {
    var d, w := Next(c, WCopy), c.writer;
    var R, W, size := |c.received|, |c.accepted|, |c.data|;
    WCopyPlace(c);
    forall i: nat | R <= i < W ensures Stored(d, i) {
      assert Stored(c, i);
      WCopyMisses(c, i);
    }
    forall j: nat | j < d.writer.k ensures d.data[Slot(W + j, size)] == d.writer.buf[j] {
      if j < w.k { WCopyMisses(c, W + j); }
    }
  }

  lemma WPublishKeeps(c: Race)
    requires Inv(c) && Enabled(c, WPublish)
    ensures Inv(Next(c, WPublish))
  {
    var d, w := Next(c, WPublish), c.writer;
    var R, W, size := |c.received|, |c.accepted|, |c.data|;
    SlotSteps(W, |w.buf|, size);
    assert d.accepted[..R] == c.accepted[..R];
    forall i: nat | R <= i < |d.accepted| ensures Stored(d, i) {
      if i < W { assert Stored(c, i); } else { assert c.data[Slot(W + (i - W), size)] == w.buf[i - W]; }
    }
    if d.reader.Reading? {
      assert d.accepted[R..R + |d.reader.got|] == c.accepted[R..R + |c.reader.got|];
    }
  }

  lemma RBeginKeeps(c: Race, n: nat)
    requires Inv(c) && Enabled(c, RBegin(n))
    ensures Inv(Next(c, RBegin(n)))
  {
    UsedIsUnread(|c.received|, |c.accepted|, |c.data|);
    var d := Next(c, RBegin(n));
    forall i: nat | |d.received| <= i < |d.accepted| ensures Stored(d, i) { assert Stored(c, i); }
  }

  lemma RCopyKeeps(c: Race)
    requires Inv(c) && Enabled(c, RCopy)
    ensures Inv(Next(c, RCopy))
  {
    var d, r := Next(c, RCopy), c.reader;
    var R, k := |c.received|, |c.reader.got|;
    SlotSteps(R, k, |c.data|);
    assert Stored(c, R + k);
    assert c.accepted[R..R + k + 1] == c.accepted[R..R + k] + [c.accepted[R + k]];
    forall i: nat | R <= i < |d.accepted| ensures Stored(d, i) { assert Stored(c, i); }
  }

  lemma RPublishKeeps(c: Race)
    requires Inv(c) && Enabled(c, RPublish)
    ensures Inv(Next(c, RPublish))
  {
    var d, r := Next(c, RPublish), c.reader;
    var R := |c.received|;
    SlotSteps(R, r.n, |c.data|);
    assert c.accepted[..R + r.n] == c.accepted[..R] + c.accepted[R..R + r.n];
    forall i: nat | |d.received| <= i < |d.accepted| ensures Stored(d, i) { assert Stored(c, i); }
  }

  lemma StepKeeps(c: Race, step: Step)
    requires Inv(c) && Enabled(c, step)
    ensures Inv(Next(c, step))
  {
    match step
    case WBegin(buf) => WBeginKeeps(c, buf);
    case WCopy => WCopyKeeps(c);
    case WPublish => WPublishKeeps(c);
    case RBegin(n) => RBeginKeeps(c, n);
    case RCopy => RCopyKeeps(c);
    case RPublish => RPublishKeeps(c);
  }

  /** A write starts exactly when it leaves one byte free, counting the unread ones; a read
      gets what there is, up to n. */
  lemma CallsBegin(c: Race, buf: seq<byte>, n: nat)
    requires Inv(c)
    ensures Enabled(c, WBegin(buf)) ==>
              (Next(c, WBegin(buf)).writer.Writing? <==> |c.accepted| - |c.received| + |buf| + 1 <= |c.data|)
    ensures Enabled(c, RBegin(n)) ==>
              var there, r := |c.accepted| - |c.received|, Next(c, RBegin(n)).reader;
              r.Reading? && r.n == if n > there then there else n
  {
    UsedIsUnread(|c.received|, |c.accepted|, |c.data|);
  }

  /** No copy leaves the buffer. */
  lemma CopiesStayInside(c: Race)
    requires Inv(c)
    ensures Enabled(c, WCopy) ==> 0 <= WriteAt(c) < |c.data|
    ensures Enabled(c, RCopy) ==> 0 <= ReadAt(c) < |c.data|
  {
    var R, W, size := |c.received|, |c.accepted|, |c.data|;
    if Enabled(c, WCopy) { SlotSteps(W, c.writer.k, size); }
    if Enabled(c, RCopy) { SlotSteps(R, |c.reader.got|, size); }
  }

  /** The states a run goes through. */
  ghost predicate Runs(c: Race, steps: seq<Step>, d: Race)
    decreases |steps|
  {
    if steps == [] then d == c
    else Enabled(c, steps[0]) && Runs(Next(c, steps[0]), steps[1..], d)
  }

  lemma {:induction false} RunKeeps(c: Race, steps: seq<Step>, d: Race)
    requires Inv(c) && Runs(c, steps, d)
    ensures Inv(d)
    decreases |steps|
  {
    if steps != [] {
      StepKeeps(c, steps[0]);
      RunKeeps(Next(c, steps[0]), steps[1..], d);
    }
  }

  /** However the calls interleave: both indices and every copy stay inside, the bytes read are a prefix of
      the bytes accepted, the ring holds exactly the rest, in order, and it looks empty only
      when it is. */
  lemma AnyInterleaving(size: nat, steps: seq<Step>, c: Race)
    requires size > 0 && Runs(Initial(size), steps, c)
    ensures 0 <= c.start < |c.data| == size && 0 <= c.end < size
    ensures c.received <= c.accepted
    ensures Unread(c.start, c.end, size, c.data) == c.accepted[|c.received|..]
    ensures c.start == c.end <==> |c.received| == |c.accepted|
    ensures Enabled(c, WCopy) ==> 0 <= WriteAt(c) < size
    ensures Enabled(c, RCopy) ==> 0 <= ReadAt(c) < size
    ensures c.writer.WIdle? && c.reader.RIdle? ==> |c.accepted| - |c.received| <= size - 1
  {
    RunKeeps(Initial(size), steps, c);
    SizeStays(Initial(size), steps, c);
    CopiesStayInside(c);
    var R, W := |c.received|, |c.accepted|;
    UsedIsUnread(R, W, size);
    forall k | 0 <= k < W - R ensures Unread(c.start, c.end, size, c.data)[k] == c.accepted[R + k] {
      SlotSteps(R, k, size);
      assert Stored(c, R + k);
    }
  }

  lemma {:induction false} SizeStays(c: Race, steps: seq<Step>, d: Race)
    requires Runs(c, steps, d)
    ensures |d.data| == |c.data|
    decreases |steps|
  {
    if steps != [] { SizeStays(Next(c, steps[0]), steps[1..], d); }
  }
}
