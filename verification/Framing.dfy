/** `InnerProtocol`: packets as frames on a byte stream, and the packets found in such a stream. */
module Framing {
  import opened Types
  import opened Words
  import Codec

  const HEADER_CALL: UInt8 := 0x81
  const HEADER_CALLBACK: UInt8 := 0x82
  const HEADER_MESSAGE: UInt8 := 0x83
  const HEART: UInt32 := 1

  /** A message as the wire carries it: its identity and its serialized fields. */
  datatype Body = Body(id: int, bytes: Bytes)

  datatype IOPacket = IOPacket(command: UInt32, callback: UInt32, error: UInt32, message: Option<Body>)

  /** Identities are int32, and a frame's size fits the header's uint32. */
  predicate Sendable(p: IOPacket) {
    p.message.Some? ==> Signed(p.message.value.id, 4) && 17 + |p.message.value.bytes| < WORD
  }

  // ---- writing ----------------------------------------------------------------------------

  function Payload(p: IOPacket): Bytes
    requires Sendable(p)
  {
    if p.message.None? then [] else Network(ToUnsigned(p.message.value.id, 4), 4) + p.message.value.bytes
  }

  /** The packed header: type, size of the whole frame, and one or two more words. */
  function Header(typ: UInt8, size: nat, first: UInt32): Bytes {
    [typ] + Network(size, 4) + Network(first, 4)
  }

  /** `onSerialize`; a packet with neither a command nor a callback writes nothing. */
  function Frame(p: IOPacket): Bytes
    requires Sendable(p)
  {
    var data := Payload(p);
    if p.command != 0 then
      if p.callback != 0 then Header(HEADER_CALL, 13 + |data|, p.command) + Network(p.callback, 4) + data
      else Header(HEADER_MESSAGE, 9 + |data|, p.command) + data
    else if p.callback != 0 then Header(HEADER_CALLBACK, 13 + |data|, p.callback) + Network(p.error, 4) + data
    else []
  }

  /** The bytes of the identity and the fields behind it. */
  function MessageBytes(p: IOPacket): Bytes
    requires Sendable(p)
  {
    match p.message
    case None => []
    case Some(m) => Network(if m.id < 0 then WORD + m.id else m.id, 4) + m.bytes
  }

  /**
   The layout of the three kinds of frames, byte by byte: a call has its command before the callback
   id, an answer the callback id before the error, and each says how long the whole frame is.
   */
  lemma FrameBytes(p: IOPacket)
    requires Sendable(p)
    ensures var f, m := Frame(p), MessageBytes(p);
            f == if p.command != 0 && p.callback != 0 then
                   [0x81] + Network(|f|, 4) + Network(p.command, 4) + Network(p.callback, 4) + m
                 else if p.command != 0 then
                   [0x83] + Network(|f|, 4) + Network(p.command, 4) + m
                 else if p.callback != 0 then
                   [0x82] + Network(|f|, 4) + Network(p.callback, 4) + Network(p.error, 4) + m
                 else []
  {
    Codec.RadixFour();
    assert MessageBytes(p) == Payload(p);
  }

  /** What a receiver is given for `p`: heartbeats are handled aside, and only callbacks carry an error. */
  function Delivered(p: IOPacket): Option<IOPacket> {
    var m := if p.message.Some? && p.message.value.bytes == [] then None else p.message;
    if p.command != 0 then
      if p.callback == 0 && p.command == HEART then None else Some(IOPacket(p.command, p.callback, 0, m))
    else if p.callback != 0 then Some(IOPacket(0, p.callback, p.error, m))
    else None
  }

  /** A packet arrives as it was sent exactly under these conditions. */
  lemma ArrivesUnchanged(p: IOPacket)
    ensures Delivered(p) == Some(p) <==>
            && (p.command != 0 || p.callback != 0)
            && !(p.command == HEART && p.callback == 0)
            && (p.command != 0 ==> p.error == 0)
            && !(p.message.Some? && p.message.value.bytes == [])
  {
  }

  // ---- reading ----------------------------------------------------------------------------

  function WordAt(b: Bytes, at: nat): UInt32
    requires at + 4 <= |b|
  {
    Codec.RadixFour();
    Load(Reverse(b[at..at + 4]))
  }

  /** The message behind a header of `at` bytes; one without any fields' bytes is not made. */
  function MessageAt(f: Bytes, at: nat): Option<Body>
    requires |f| == at || |f| >= at + 4
  {
    if |f| <= at + 4 then None else Some(Body(ToSigned(WordAt(f, at), 4), f[at + 4..]))
  }

  /** The sizes the header types allow; on any other the source reads past the frame's end. */
  predicate SizeFits(typ: UInt8, size: nat) {
    if typ == HEADER_MESSAGE then size == 9 || size >= 13 else size == 13 || size >= 17
  }

  function Unframe(f: Bytes): Option<IOPacket>
    requires |f| >= 5 && f[0] in {HEADER_CALL, HEADER_CALLBACK, HEADER_MESSAGE} && SizeFits(f[0], |f|)
  {
    if f[0] == HEADER_CALL then Some(IOPacket(WordAt(f, 5), WordAt(f, 9), 0, MessageAt(f, 13)))
    else if f[0] == HEADER_CALLBACK then Some(IOPacket(0, WordAt(f, 5), WordAt(f, 9), MessageAt(f, 13)))
    else if WordAt(f, 5) == HEART then None
    else Some(IOPacket(WordAt(f, 5), 0, 0, MessageAt(f, 9)))
  }

  /** The start of a stream: not yet a whole frame, no frame at all, or a frame and what is behind it. */
  datatype Parsed = Wait | Bad | Got(packet: Option<IOPacket>, rest: Bytes)

  function Parse(b: Bytes): (r: Parsed)
    ensures r.Got? ==> |r.rest| < |b|
  {
    if |b| < 5 then Wait else
    var size := WordAt(b, 1);
    if size > |b| then Wait
    else if b[0] !in {HEADER_CALL, HEADER_CALLBACK, HEADER_MESSAGE} || !SizeFits(b[0], size) then Bad
    else Got(Unframe(b[..size]), b[size..])
  }

  /** The packets dispatched so far, the bytes that wait for more, and whether the stream is sound. */
  datatype Received = Received(packets: seq<IOPacket>, rest: Bytes, ok: bool)

  function AsSeq(p: Option<IOPacket>): seq<IOPacket> { if p.Some? then [p.value] else [] }

  /** What `p` in front makes of `r`. */
  function After(p: Option<IOPacket>, r: Received): Received { r.(packets := AsSeq(p) + r.packets) }

  /** `onUnserialize`: all whole frames at the start of `b`. */
  function ParseAll(b: Bytes): Received
    decreases |b|
  {
    var p := Parse(b);
    if p.Wait? then Received([], b, true)
    else if p.Bad? then Received([], [], false)
    else After(p.packet, ParseAll(p.rest))
  }

  /** How many heartbeats are among the whole frames at the start of `b`. */
  function Hearts(b: Bytes): nat
    decreases |b|
  {
    var p := Parse(b);
    if !p.Got? then 0 else Hearts(p.rest) + if p.packet.None? then 1 else 0
  }

  // ---- one frame --------------------------------------------------------------------------

  lemma WordIn(b: Bytes, at: nat, n: UInt32)
    requires at + 4 <= |b| && b[at..at + 4] == Network(n, 4)
    ensures WordAt(b, at) == n
  {
    Codec.RadixFour();
    NetworkRoundTrip(n, 4);
  }

  lemma MessageIn(f: Bytes, at: nat, p: IOPacket)
    requires Sendable(p) && at <= |f| && f[at..] == Payload(p)
    ensures |f| == at || |f| >= at + 4
    ensures MessageAt(f, at) == if p.message.Some? && p.message.value.bytes == [] then None else p.message
  {
    if p.message.Some? {
      var m := p.message.value;
      Codec.RadixFour();
      TwosComplement(4);
      assert f[at..at + 4] == Payload(p)[..4] == Network(ToUnsigned(m.id, 4), 4);
      WordIn(f, at, ToUnsigned(m.id, 4));
      assert f[at + 4..] == Payload(p)[4..] == m.bytes;
    }
  }

  lemma HeaderParts(typ: UInt8, size: nat, first: UInt32, tail: Bytes)
    ensures var f := Header(typ, size, first) + tail;
            |f| == 9 + |tail| && f[0] == typ && f[1..5] == Network(size, 4) && f[5..9] == Network(first, 4) && f[9..] == tail
  {
  }

  lemma UnframeLong(p: IOPacket, typ: UInt8, first: UInt32, second: UInt32)
    requires Sendable(p) && typ in {HEADER_CALL, HEADER_CALLBACK}
    ensures var f := Header(typ, 13 + |Payload(p)|, first) + Network(second, 4) + Payload(p);
            && |f| == 13 + |Payload(p)| && f[0] == typ && WordAt(f, 1) == |f| && SizeFits(typ, |f|)
            && WordAt(f, 5) == first && WordAt(f, 9) == second
            && MessageAt(f, 13) == if p.message.Some? && p.message.value.bytes == [] then None else p.message
  {
    var tail := Network(second, 4) + Payload(p);
    var f := Header(typ, 13 + |Payload(p)|, first) + Network(second, 4) + Payload(p);
    assert f == Header(typ, 13 + |Payload(p)|, first) + tail;
    HeaderParts(typ, 13 + |Payload(p)|, first, tail);
    WordIn(f, 1, |f|);
    WordIn(f, 5, first);
    assert f[9..13] == tail[..4] && f[13..] == tail[4..];
    WordIn(f, 9, second);
    MessageIn(f, 13, p);
  }

  lemma UnframeShort(p: IOPacket, first: UInt32)
    requires Sendable(p)
    ensures var f := Header(HEADER_MESSAGE, 9 + |Payload(p)|, first) + Payload(p);
            && |f| == 9 + |Payload(p)| && f[0] == HEADER_MESSAGE && WordAt(f, 1) == |f| && SizeFits(HEADER_MESSAGE, |f|)
            && WordAt(f, 5) == first
            && MessageAt(f, 9) == if p.message.Some? && p.message.value.bytes == [] then None else p.message
  {
    var f := Header(HEADER_MESSAGE, 9 + |Payload(p)|, first) + Payload(p);
    HeaderParts(HEADER_MESSAGE, 9 + |Payload(p)|, first, Payload(p));
    WordIn(f, 1, |f|);
    WordIn(f, 5, first);
    MessageIn(f, 9, p);
  }

  /** A frame is a block of the size its header says, and holds the packet it was made of. */
  lemma UnframeFrame(p: IOPacket)
    requires Sendable(p) && (p.command != 0 || p.callback != 0)
    ensures var f := Frame(p);
            |f| >= 9 && f[0] in {HEADER_CALL, HEADER_CALLBACK, HEADER_MESSAGE} && WordAt(f, 1) == |f| && SizeFits(f[0], |f|) &&
            Unframe(f) == Delivered(p)
  {
    if p.command == 0 {
      UnframeLong(p, HEADER_CALLBACK, p.callback, p.error);
    } else if p.callback != 0 {
      UnframeLong(p, HEADER_CALL, p.command, p.callback);
    } else {
      UnframeShort(p, p.command);
    }
  }

  /** Bytes that arrive later do not change the frames already complete. */
  lemma ParseMore(b: Bytes, c: Bytes)
    ensures Parse(b).Got? ==> Parse(b + c) == Got(Parse(b).packet, Parse(b).rest + c)
    ensures Parse(b).Bad? ==> Parse(b + c).Bad?
  {
    if |b| >= 5 {
      assert (b + c)[1..5] == b[1..5];
      var size := WordAt(b, 1);
      if size <= |b| {
        assert (b + c)[..size] == b[..size];
        assert (b + c)[size..] == b[size..] + c;
      }
    }
  }

  lemma ParseFrame(p: IOPacket, rest: Bytes)
    requires Sendable(p) && (p.command != 0 || p.callback != 0)
    ensures Parse(Frame(p) + rest) == Got(Delivered(p), rest)
  {
    UnframeFrame(p);
    var f := Frame(p);
    assert f[..|f|] == f;
    ParseMore(f, rest);
  }

  // ---- whole streams ----------------------------------------------------------------------

  function Stream(ps: seq<IOPacket>): Bytes
    requires forall p | p in ps :: Sendable(p)
  {
    if ps == [] then [] else Frame(ps[0]) + Stream(ps[1..])
  }

  function DeliveredAll(ps: seq<IOPacket>): seq<IOPacket> {
    if ps == [] then [] else AsSeq(Delivered(ps[0])) + DeliveredAll(ps[1..])
  }

  /** A stream of frames is taken apart into the packets it was put together from. */
  lemma {:induction false} ParseStream(ps: seq<IOPacket>)
    requires forall p | p in ps :: Sendable(p)
    ensures ParseAll(Stream(ps)) == Received(DeliveredAll(ps), [], true)
  {
    if ps != [] {
      var p := ps[0];
      ParseStream(ps[1..]);
      if p.command != 0 || p.callback != 0 {
        ParseFrame(p, Stream(ps[1..]));
      } else {
        assert Stream(ps) == Stream(ps[1..]);
      }
    }
  }

  /** Whatever is behind the frames of a stream is handled as if it had come alone. */
  lemma ParseStreamThen(ps: seq<IOPacket>, b: Bytes)
    requires forall p | p in ps :: Sendable(p)
    ensures ParseAll(Stream(ps) + b) == Then(Received(DeliveredAll(ps), [], true), b)
  {
    ParseStream(ps);
    ParseInTwo(Stream(ps), b);
  }

  /** A frame that has not arrived completely waits, untouched. */
  lemma PartialFrameWaits(ps: seq<IOPacket>, p: IOPacket, k: nat)
    requires (forall q | q in ps :: Sendable(q)) && Sendable(p) && k < |Frame(p)|
    ensures ParseAll(Stream(ps) + Frame(p)[..k]) == Received(DeliveredAll(ps), Frame(p)[..k], true)
  {
    hide Stream, DeliveredAll, Unframe, Delivered;
    ParseStreamThen(ps, Frame(p)[..k]);
    UnframeFrame(p);
    assert k >= 5 ==> Frame(p)[..k][1..5] == Frame(p)[1..5];
    assert Parse(Frame(p)[..k]).Wait?;
    assert [] + Frame(p)[..k] == Frame(p)[..k];
  }

  /** A complete block of an unknown type ends the stream: nothing behind it is looked at. */
  lemma UnknownTypeEnds(ps: seq<IOPacket>, b: Bytes)
    requires forall q | q in ps :: Sendable(q)
    requires |b| >= 5 && b[0] !in {0x81, 0x82, 0x83} && Load(Reverse(b[1..5])) <= |b|
    ensures ParseAll(Stream(ps) + b) == Received(DeliveredAll(ps), [], false)
  {
    ParseStreamThen(ps, b);
    assert [] + b == b;
    assert Parse(b).Bad?;
  }

  function HeartsSent(ps: seq<IOPacket>): nat {
    if ps == [] then 0 else
    HeartsSent(ps[1..]) + if ps[0].command == 1 && ps[0].callback == 0 then 1 else 0
  }

  /** The heartbeats of a stream are those that were sent; they are not dispatched. */
  lemma {:induction false} HeartsArrive(ps: seq<IOPacket>)
    requires forall p | p in ps :: Sendable(p)
    ensures Hearts(Stream(ps)) == HeartsSent(ps)
  {
    if ps != [] {
      var p := ps[0];
      HeartsArrive(ps[1..]);
      if p.command != 0 || p.callback != 0 {
        ParseFrame(p, Stream(ps[1..]));
      } else {
        assert Stream(ps) == Stream(ps[1..]);
      }
    }
  }

  /** What becomes of `r` when `c` arrives. */
  function Then(r: Received, c: Bytes): Received {
    if !r.ok then r else
    var s := ParseAll(r.rest + c);
    Received(r.packets + s.packets, s.rest, s.ok)
  }

  /** Parsing what has arrived so far, and then its rest with what arrives next, is parsing it all at once. */
  lemma {:induction false} ParseInTwo(b: Bytes, c: Bytes)
    ensures ParseAll(b + c) == Then(ParseAll(b), c)
    decreases |b|
  {
    ParseMore(b, c);
    if Parse(b).Got? {
      ParseInTwo(Parse(b).rest, c);
      ParseGot(b);
      ParseGot(b + c);
      ThenAfter(Parse(b).packet, ParseAll(Parse(b).rest), c);
    }
  }

  lemma ParseGot(b: Bytes)
    requires Parse(b).Got?
    ensures ParseAll(b) == After(Parse(b).packet, ParseAll(Parse(b).rest))
  {
  }

  lemma ThenAfter(p: Option<IOPacket>, r: Received, c: Bytes)
    ensures Then(After(p, r), c) == After(p, Then(r, c))
  {
    var s := ParseAll(r.rest + c);
    assert (AsSeq(p) + r.packets) + s.packets == AsSeq(p) + (r.packets + s.packets);
  }

  // ---- the receiving side -----------------------------------------------------------------

  /** What the network thread has made of the chunks `cs`, each handed to `onUnserialize` as it arrives. */
  function Receive(cs: seq<Bytes>): Received {
    if cs == [] then Received([], [], true) else Then(Receive(cs[..|cs| - 1]), cs[|cs| - 1])
  }

  lemma ReceiveNext(cs: seq<Bytes>, c: Bytes)
    ensures Receive(cs + [c]) == Then(Receive(cs), c)
  {
    assert (cs + [c])[..|cs|] == cs;
  }

  function Concat(cs: seq<Bytes>): Bytes {
    if cs == [] then [] else Concat(cs[..|cs| - 1]) + cs[|cs| - 1]
  }

  /** However the network cuts a stream up, the receiver ends where it would with all of it at once. */
  lemma {:induction false} ReceiveIsParseAll(cs: seq<Bytes>)
    ensures Receive(cs) == ParseAll(Concat(cs))
  {
    if cs != [] {
      ReceiveIsParseAll(cs[..|cs| - 1]);
      ParseInTwo(Concat(cs[..|cs| - 1]), cs[|cs| - 1]);
    }
  }

  /**
   Reassembly: for every sequence of packets and every way to cut their frames into chunks, exactly
   the deliverable packets are dispatched, in order, and nothing is left over.
   */
  lemma Reassembly(ps: seq<IOPacket>, cs: seq<Bytes>)
    requires forall p | p in ps :: Sendable(p)
    requires Concat(cs) == Stream(ps)
    ensures Receive(cs) == Received(DeliveredAll(ps), [], true)
  {
    ReceiveIsParseAll(cs);
    ParseStream(ps);
  }
}
