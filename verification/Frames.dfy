/** Framed messages over the ring: the client writes a frame whole or not at all, so what
    the server reads are the accepted messages, in order. */
module Frames {
  import opened Bytes
  import opened RingBuf
  import opened RingRace

  datatype Message = Message(opcode: byte, payload: seq<byte>)

  const HEADER := 3

  /** The length field is 16 bits wide. */
  predicate Sendable(m: Message) { |m.payload| < 0x1_0000 }

  /** Opcode, length in network byte order, payload. */
  function Frame(m: Message): (f: seq<byte>)
    requires Sendable(m)
    ensures |f| == HEADER + |m.payload|
  {
    [m.opcode, (|m.payload| / 256) as byte, (|m.payload| % 256) as byte] + m.payload
  }

  function LengthOf(header: seq<byte>): nat
    requires |header| == HEADER
  {
    256 * (header[1] as nat) + header[2] as nat
  }

  function Frames(ms: seq<Message>): seq<byte>
    requires forall m :: m in ms ==> Sendable(m)
  {
    if ms == [] then [] else Frame(ms[0]) + Frames(ms[1..])
  }

  lemma {:induction false} FramesJoin(a: seq<Message>, b: seq<Message>)
    requires forall m :: m in a ==> Sendable(m)
    requires forall m :: m in b ==> Sendable(m)
    ensures Frames(a + b) == Frames(a) + Frames(b)
  {
    if a == [] {
      assert a + b == b;
    } else {
      assert (a + b)[1..] == a[1..] + b;
      FramesJoin(a[1..], b);
    }
  }

  /** A stream of frames tells its messages: the header says how long the first is. */
  lemma FrameIsRecovered(m: Message, rest: seq<byte>)
    requires Sendable(m)
    ensures var f := Frame(m) + rest;
            && f[0] == m.opcode && LengthOf(f[..HEADER]) == |m.payload|
            && f[HEADER..HEADER + |m.payload|] == m.payload && f[HEADER + |m.payload|..] == rest
  {
    assert 256 * (|m.payload| / 256) + |m.payload| % 256 == |m.payload|;
  }

  /** Equal streams of frames come from equal messages. */
  lemma {:induction false} FramesAreUnambiguous(a: seq<Message>, b: seq<Message>)
    requires forall m :: m in a ==> Sendable(m)
    requires forall m :: m in b ==> Sendable(m)
    requires Frames(a) == Frames(b)
    ensures a == b
  {
    if a != [] && b != [] {
      FrameIsRecovered(a[0], Frames(a[1..]));
      FrameIsRecovered(b[0], Frames(b[1..]));
      assert Frames(a)[..HEADER] == Frames(b)[..HEADER];
      FramesAreUnambiguous(a[1..], b[1..]);
      assert a == [a[0]] + a[1..] && b == [b[0]] + b[1..];
    }
  }

  /** Both ends of a client's connection, sharing one ring. */
  class Connection {
    const ring: RingBuf
    ghost var accepted: seq<Message>    // whose frames went into the ring
    ghost var decoded: seq<Message>     // what the server made of them

    /** The ring holds whole frames: those of the accepted messages not decoded yet. */
    ghost predicate Valid()
      reads this, ring, ring.data
    {
      && ring.Valid() && decoded <= accepted && (forall m :: m in accepted ==> Sendable(m))
      && ring.Contents() == Frames(accepted[|decoded|..])
    }

    constructor (size: int, overhead: int)
      requires 0 <= overhead < size
      ensures Valid() && fresh(ring) && fresh(ring.data) && accepted == decoded == []
    {
      ring := new RingBuf(size, overhead);
      accepted, decoded := [], [];
    }

    /** The client sends a message: its frame goes in whole, or not at all. */
    method NetSend(opcode: byte, buf: seq<byte>)
      requires Valid() && |buf| < 0x1_0000
      modifies this, ring, ring.data
      ensures Valid() && decoded == old(decoded)
      ensures accepted == (if |old(ring.Contents())| + HEADER + |buf| + 1 <= ring.bufsize
                           then old(accepted) + [Message(opcode, buf)] else old(accepted))
    {
      ghost var m := Message(opcode, buf);
      var buff := [opcode, (|buf| / 256) as byte, (|buf| % 256) as byte] + buf;
      var n := ring.ShmWriten(buff);
      if n == |buff| {
        ghost var pending := accepted[|decoded|..];
        FramesJoin(pending, [m]);
        assert Frames([m]) == Frame(m);
        accepted := accepted + [m];
        assert accepted[|decoded|..] == pending + [m];
      }
    }

    /** The server reads one message, when there is anything to read. */
    method ShmProtComIn() returns (m: Message)
      requires Valid() && ring.start != ring.end
      modifies this, ring
      ensures Valid() && accepted == old(accepted)
      ensures |old(decoded)| < |accepted| && m == accepted[|old(decoded)|] && decoded == old(decoded) + [m]
    {
      ghost var pending := accepted[|decoded|..];
      ghost var was := ring.Contents();
      assert was != [] && pending != [];
      ghost var rest := Frames(pending[1..]);
      assert was == Frame(pending[0]) + rest && pending[0] in accepted;
      FrameIsRecovered(pending[0], rest);
      var header := ring.ShmReadn(HEADER);
      assert header == was[..HEADER] && ring.Contents() == was[HEADER..];
      var length := LengthOf(header);
      var payload := [];
      if length > 0 {
        payload := ring.ShmReadn(length);
      }
      assert payload == was[HEADER..][..length] && ring.Contents() == was[HEADER..][length..];
      m := Message(header[0], payload);
      assert header[0] == was[0] && payload == was[HEADER..HEADER + length];
      NextDecoded(decoded, accepted);
      decoded := decoded + [m];
      assert accepted[|decoded|..] == pending[1..];
    }
  }

  // ------------------------------------------------------------ whole runs

  /** What may happen at the ring: a client's frame arrives or finds no room, the server
      reads a header, or the payload that goes with it. */
  datatype Event = Send(m: Message) | ReadHeader | ReadPayload

  /** The queue, the header the server has in hand, and the history. */
  datatype Transport = Transport(queue: seq<byte>, size: nat, header: seq<byte>, accepted: seq<Message>,
                                 decoded: seq<Message>)

  predicate May(t: Transport, e: Event) {
    match e
    case Send(m) => Sendable(m)
    case ReadHeader => t.header == [] && t.queue != []
    case ReadPayload => |t.header| == HEADER
  }

  /** Up to n bytes from the front. */
  function Take(q: seq<byte>, n: nat): seq<byte> { if n < |q| then q[..n] else q }

  function Happens(t: Transport, e: Event): Transport
    requires May(t, e)
  {
    match e
    case Send(m) =>
      if |t.queue| + |Frame(m)| + 1 <= t.size then t.(queue := t.queue + Frame(m), accepted := t.accepted + [m]) else t
    case ReadHeader =>
      t.(header := Take(t.queue, HEADER), queue := t.queue[|Take(t.queue, HEADER)|..])
    case ReadPayload =>
      var p := Take(t.queue, LengthOf(t.header));
      t.(header := [], queue := t.queue[|p|..], decoded := t.decoded + [Message(t.header[0], p)])
  }

  /** The header in hand and the queue are the frames of what was accepted and not decoded. */
  ghost predicate WholeFrames(t: Transport) {
    && t.decoded <= t.accepted && (forall m :: m in t.accepted ==> Sendable(m))
    && t.header + t.queue == Frames(t.accepted[|t.decoded|..]) && (t.header == [] || |t.header| == HEADER)
  }

  lemma SendKeepsFrames(t: Transport, m: Message)
    requires WholeFrames(t) && Sendable(m)
    ensures WholeFrames(Happens(t, Send(m)))
  {
    var u, pending := Happens(t, Send(m)), t.accepted[|t.decoded|..];
    if u != t {
      FramesJoin(pending, [m]);
      assert Frames([m]) == Frame(m);
      assert u.accepted[|u.decoded|..] == pending + [m];
      assert t.header + (t.queue + Frame(m)) == (t.header + t.queue) + Frame(m);
    }
  }

  lemma ReadKeepsFrames(t: Transport, e: Event)
    requires WholeFrames(t) && May(t, e) && !e.Send?
    ensures WholeFrames(Happens(t, e))
  {
    var u, pending := Happens(t, e), t.accepted[|t.decoded|..];
    assert pending != [] && pending[0] in t.accepted;
    var m, rest := pending[0], Frames(pending[1..]);
    FrameIsRecovered(m, rest);
    var f := Frame(m) + rest;
    assert t.header + t.queue == f;
    if e.ReadPayload? {
      assert t.header == f[..HEADER] && t.queue == f[HEADER..];
      NextDecoded(t.decoded, t.accepted);
      assert Take(t.queue, |m.payload|) == f[HEADER..HEADER + |m.payload|];
      assert t.header[0] == f[0];
      assert u.decoded == t.decoded + [m];
      assert u.accepted[|u.decoded|..] == pending[1..];
    }
  }

  lemma EventKeepsFrames(t: Transport, e: Event)
    requires WholeFrames(t) && May(t, e)
    ensures WholeFrames(Happens(t, e))
  {
    if e.Send? { SendKeepsFrames(t, e.m); } else { ReadKeepsFrames(t, e); }
  }

  lemma NextDecoded(d: seq<Message>, a: seq<Message>)
    requires d <= a && |d| < |a|
    ensures d + [a[|d|]] <= a
  {
  }

  lemma PendingShows(ms: seq<Message>)
    requires forall m :: m in ms ==> Sendable(m)
    ensures ms != [] ==> |Frames(ms)| >= HEADER
  {
  }

  ghost predicate Run(t: Transport, es: seq<Event>, u: Transport)
    decreases |es|
  {
    if es == [] then u == t else May(t, es[0]) && Run(Happens(t, es[0]), es[1..], u)
  }

  /** Whatever is sent and read, in whatever order: the server decodes exactly the accepted
      messages, in order, and has decoded all of them when nothing is left to read. */
  lemma {:induction false} DecodedAreAccepted(t: Transport, es: seq<Event>, u: Transport)
    requires WholeFrames(t) && Run(t, es, u)
    ensures WholeFrames(u) && u.decoded <= u.accepted
    ensures u.queue == [] && u.header == [] ==> u.decoded == u.accepted
    decreases |es|
  {
    if es == [] {
      PendingShows(u.accepted[|u.decoded|..]);
    } else {
      EventKeepsFrames(t, es[0]);
      DecodedAreAccepted(Happens(t, es[0]), es[1..], u);
    }
  }

  // ------------------------------------------------------------ with overlapping calls

  ghost predicate IsFrame(buf: seq<byte>) { exists m :: Sendable(m) && buf == Frame(m) }

  /** Every write is one frame, as net_send's are. */
  ghost predicate FramesOnly(steps: seq<Step>) {
    forall k :: 0 <= k < |steps| && steps[k].WBegin? ==> IsFrame(steps[k].buf)
  }

  /** Also when reads and writes overlap, whatever the reader does, what gets accepted is a
      sequence of whole frames. */
  lemma {:induction false} AcceptedAreFrames(c: Race, steps: seq<Step>, d: Race, ms: seq<Message>)
    returns (ns: seq<Message>)
    requires Runs(c, steps, d) && FramesOnly(steps) && (c.writer.Writing? ==> IsFrame(c.writer.buf))
    requires (forall m :: m in ms ==> Sendable(m)) && c.accepted == Frames(ms)
    ensures (forall m :: m in ns ==> Sendable(m)) && d.accepted == Frames(ns) && ms <= ns
    decreases |steps|
  {
    if steps == [] {
      ns := ms;
    } else {
      var next, more := RingRace.Next(c, steps[0]), ms;
      if steps[0].WPublish? {
        var m :| Sendable(m) && c.writer.buf == Frame(m);
        FramesJoin(ms, [m]);
        assert Frames([m]) == Frame(m);
        more := ms + [m];
      }
      assert FramesOnly(steps[1..]);
      ns := AcceptedAreFrames(next, steps[1..], d, more);
    }
  }
}
