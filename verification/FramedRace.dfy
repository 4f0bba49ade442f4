/** Messages over the ring while both sides run at the same time: the client publishes whole
    frames, the server takes a header and then as much as the header says, and the steps of
    both interleave in any way. */
module FramedRace {
  import opened Bytes
  import opened RingBuf
  import opened RingRace
  import opened Frames

  /** The ring with both calls, the message being written, the header the server has in
      hand, and the messages published and decoded. */
  datatype Framed = Framed(c: Race, writing: Message, header: seq<byte>, sent: seq<Message>, decoded: seq<Message>)

  datatype Act =
    | Offer(m: Message)         // net_send starts to write a frame
    | Look                      // the server starts to read a header or a payload
    | Go(step: Step)            // either side goes on

  /** The server reads a header when the ring does not look empty, and then the payload. */
  predicate CanDo(f: Framed, a: Act) {
    match a
    case Offer(m) => Sendable(m) && f.c.writer.WIdle?
    case Look => f.c.reader.RIdle? && (|f.header| == HEADER || (f.header == [] && f.c.start != f.c.end))
    case Go(step) => !step.WBegin? && !step.RBegin? && Enabled(f.c, step)
  }

  function Wanted(header: seq<byte>): nat { if |header| == HEADER then LengthOf(header) else HEADER }

  function Done(f: Framed, a: Act): Framed
    requires CanDo(f, a)
  {
    match a
    case Offer(m) => f.(c := Next(f.c, WBegin(Frame(m))), writing := m)
    case Look => f.(c := Next(f.c, RBegin(Wanted(f.header))))
    case Go(step) =>
      var d := f.(c := Next(f.c, step));
      if step == WPublish then d.(sent := f.sent + [f.writing])
      else if step == RPublish then
        if f.header == [] then d.(header := f.c.reader.got)
        else d.(header := [], decoded := f.decoded + [Message(f.header[0], f.c.reader.got)])
      else d
  }

  function Start(size: nat): Framed { Framed(RingRace.Initial(size), Message(0, []), [], [], []) }

  ghost predicate Acts(f: Framed, acts: seq<Act>, g: Framed)
    decreases |acts|
  {
    if acts == [] then g == f else CanDo(f, acts[0]) && Acts(Done(f, acts[0]), acts[1..], g)
  }

  /** What is published are the frames of the messages sent; what was read are those of the
      messages decoded and the header in hand; and a read under way takes all it wants. */
  ghost predicate Whole(f: Framed) {
    && Inv(f.c) && (forall m :: m in f.sent ==> Sendable(m)) && f.decoded <= f.sent
    && f.c.accepted == Frames.Frames(f.sent) && f.c.received == Frames.Frames(f.decoded) + f.header
    && (f.c.writer.Writing? ==> Sendable(f.writing) && f.c.writer.buf == Frame(f.writing))
    && (f.header == [] || |f.header| == HEADER)
    && (f.c.reader.Reading? ==> f.c.reader.n == Wanted(f.header) && |f.c.received| < |f.c.accepted| + |f.header|)
  }

  /** The first message not decoded yet: its frame, then the later ones. */
  lemma NextFrame(f: Framed) returns (m: Message, rest: seq<byte>)
    requires Whole(f) && |f.decoded| < |f.sent|
    ensures m == f.sent[|f.decoded|] && Sendable(m)
    ensures f.c.accepted == Frames.Frames(f.decoded) + (Frame(m) + rest)
    ensures f.header == [] || f.header == Frame(m)[..HEADER]
  {
    var k := |f.decoded|;
    m, rest := f.sent[k], Frames.Frames(f.sent[k + 1..]);
    assert m in f.sent;
    assert f.sent == f.sent[..k] + f.sent[k..] && f.sent[..k] == f.decoded && f.sent[k..][1..] == f.sent[k + 1..];
    FramesJoin(f.decoded, f.sent[k..]);
    var n, a, frames := |f.c.received|, f.c.accepted, Frames.Frames(f.decoded);
    assert a == frames + (Frame(m) + rest);
    if f.header != [] {
      assert f.header == f.c.received[|frames|..] == a[..n][|frames|..];
      assert a[..n][|frames|..] == (Frame(m) + rest)[..HEADER] == Frame(m)[..HEADER];
    }
  }

  /** Something is decoded in part or not at all while not everything was read. */
  lemma SomeLeft(f: Framed)
    requires Whole(f) && |f.c.received| < |f.c.accepted| + |f.header|
    ensures |f.decoded| < |f.sent|
  {
    assert |f.decoded| == |f.sent| ==> f.decoded == f.sent;
  }

  lemma OfferKeeps(f: Framed, m: Message)
    requires Whole(f) && CanDo(f, Offer(m))
    ensures Whole(Done(f, Offer(m)))
  {
    StepKeeps(f.c, WBegin(Frame(m)));
  }

  /** A whole frame is there, so the read gets all it wants. */
  lemma LookKeeps(f: Framed)
    requires Whole(f) && CanDo(f, Look)
    ensures Whole(Done(f, Look))
  {
    StepKeeps(f.c, RBegin(Wanted(f.header)));
    var R, W := |f.c.received|, |f.c.accepted|;
    UsedIsUnread(R, W, |f.c.data|);
    SomeLeft(f);
    var m, rest := NextFrame(f);
    FrameIsRecovered(m, rest);
    assert (Frame(m) + rest)[..HEADER] == Frame(m)[..HEADER];
    assert W - R >= Wanted(f.header);
  }

  lemma PublishedKeeps(f: Framed)
    requires Whole(f) && CanDo(f, Go(WPublish))
    ensures Whole(Done(f, Go(WPublish)))
  {
    StepKeeps(f.c, WPublish);
    FramesJoin(f.sent, [f.writing]);
    assert Frames.Frames([f.writing]) == Frame(f.writing);
  }

  /** A payload that was taken completes the first message not decoded yet. */
  lemma PayloadCompletes(f: Framed) returns (m: Message)
    requires Whole(f) && CanDo(f, Go(RPublish)) && |f.header| == HEADER && |f.decoded| < |f.sent|
    ensures m == f.sent[|f.decoded|] == Message(f.header[0], f.c.reader.got)
    ensures Sendable(m) && Frame(m) == f.header + f.c.reader.got
  {
    var rest;
    m, rest := NextFrame(f);
    FrameIsRecovered(m, rest);
    var got, frames, stream := f.c.reader.got, Frames.Frames(f.decoded), Frame(m) + rest;
    var R := |f.c.received|;
    assert got == f.c.accepted[R..R + |got|] && f.c.accepted == frames + stream;
    assert stream[..HEADER] == Frame(m)[..HEADER] == f.header && |got| == |m.payload|;
    assert got == stream[HEADER..HEADER + |m.payload|] == m.payload;
    assert f.header[0] == stream[0] == m.opcode;
  }

  lemma TakenKeeps(f: Framed)
    requires Whole(f) && CanDo(f, Go(RPublish))
    ensures Whole(Done(f, Go(RPublish)))
  {
    StepKeeps(f.c, RPublish);
    SomeLeft(f);
    if f.header != [] {
      var m := PayloadCompletes(f);
      var frames, got := Frames.Frames(f.decoded), f.c.reader.got;
      FramesJoin(f.decoded, [m]);
      assert Frames.Frames([m]) == Frame(m);
      assert frames + f.header + got == frames + (f.header + got);
      NextDecoded(f.decoded, f.sent);
    }
  }

  lemma ActKeeps(f: Framed, a: Act)
    requires Whole(f) && CanDo(f, a)
    ensures Whole(Done(f, a))
  {
    match a
    case Offer(m) => OfferKeeps(f, m);
    case Look => LookKeeps(f);
    case Go(step) =>
      if step == WPublish { PublishedKeeps(f); }
      else if step == RPublish { TakenKeeps(f); }
      else { StepKeeps(f.c, step); }
  }

  lemma {:induction false} ActsKeep(f: Framed, acts: seq<Act>, g: Framed)
    requires Whole(f) && Acts(f, acts, g)
    ensures Whole(g)
    decreases |acts|
  {
    if acts != [] {
      ActKeeps(f, acts[0]);
      ActsKeep(Done(f, acts[0]), acts[1..], g);
    }
  }

  /** However both sides interleave, the server decodes the messages sent, in order, each of
      them whole; and when it is at rest and sees an empty ring, it has decoded all. */
  lemma DecodedAreSent(size: nat, acts: seq<Act>, g: Framed)
    requires size > 0 && Acts(Start(size), acts, g)
    ensures g.decoded <= g.sent && (forall m :: m in g.sent ==> Sendable(m)) && g.c.accepted == Frames.Frames(g.sent)
    ensures g.c.reader.RIdle? && g.header == [] && g.c.start == g.c.end ==> g.decoded == g.sent
  {
    ActsKeep(Start(size), acts, g);
    UsedIsUnread(|g.c.received|, |g.c.accepted|, |g.c.data|);
    if g.header == [] && g.c.start == g.c.end && g.decoded != g.sent {
      var m, rest := NextFrame(g);
      assert false;
    }
  }
}
