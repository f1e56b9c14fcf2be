/** `InnerProtocol` at work: frames written into a buffer, and taken off a connection's ring buffer. */
module InnerProtocols {
  import opened Types
  import opened Words
  import opened Framing
  import opened Buffers
  import opened RingBuffers
  import Codec
  import Streams

  const INIT_BUFFER_SIZE := 2 * 1024

  // ---- sending ----------------------------------------------------------------------------

  /** Stores `d` behind the bytes of the frame that are already there. */
  method Extend(buffer: StackBuffer, ghost done: Bytes, at: nat, d: Bytes)
    requires buffer.Valid() && at == |done| && at + |d| <= buffer.size && buffer.Contents()[..at] == done
    modifies buffer.ptr
    ensures buffer.Valid() && buffer.Contents()[..at + |d|] == done + d
  {
    buffer.Store(at, d);
  }

  /** `head->field = hostToNetwork32(n)`. */
  method ExtendWord(buffer: StackBuffer, ghost done: Bytes, at: nat, n: UInt32)
    requires buffer.Valid() && at == |done| && at + 4 <= buffer.size && buffer.Contents()[..at] == done
    modifies buffer.ptr
    ensures buffer.Valid() && buffer.Contents()[..at + 4] == done + Network(n, 4)
  {
    Codec.RadixFour();
    SwapStoresNetworkOrder(n, 4);
    Extend(buffer, done, at, Image(Swap(n, 4), 4));
  }

  /** The message's identity and fields, written to a buffer of their own first. */
  method WriteMessage(p: IOPacket) returns (data: Bytes)
    requires Sendable(p)
    ensures data == Payload(p)
  {
    if p.message.None? {
      return [];
    }
    var inner := new StackBuffer(INIT_BUFFER_SIZE);
    var writer := new Streams.BufferWriter(Streams.Stack(inner));
    writer.WriteSigned(p.message.value.id, 4);
    writer.WriteBytes(p.message.value.bytes);
    var d := inner.Read(0, writer.pos);
    data := d.value;
  }

  method WriteHeader(buffer: StackBuffer, typ: UInt8, total: UInt32, first: UInt32)
    requires buffer.Valid() && 9 <= total == buffer.size
    modifies buffer.ptr
    ensures buffer.Valid() && buffer.Contents()[..9] == Header(typ, total, first)
  {
    Extend(buffer, [], 0, [typ]);
    ExtendWord(buffer, [typ], 1, total);
    ExtendWord(buffer, [typ] + Network(total, 4), 5, first);
  }

  /** Writes a frame with one word in its header besides the size, or with two. */
  method WriteFrame(buffer: StackBuffer, typ: UInt8, first: UInt32, second: Option<UInt32>, data: Bytes)
    requires buffer.Valid() && buffer.Contents() == [] && 13 + |data| < WORD
    modifies buffer, buffer.ptr
    ensures buffer.Valid()
    ensures second.None? ==> buffer.Contents() == Header(typ, 9 + |data|, first) + data
    ensures second.Some? ==> buffer.Contents() == Header(typ, 13 + |data|, first) + Network(second.value, 4) + data
  {
    var head := if second.Some? then 13 else 9;
    var ok := buffer.Reserve(0, head + |data|);
    WriteHeader(buffer, typ, head + |data|, first);
    ghost var done := Header(typ, head + |data|, first);
    if second.Some? {
      ExtendWord(buffer, done, 9, second.value);
      done := done + Network(second.value, 4);
    }
    Extend(buffer, done, head, data);
    assert buffer.Contents()[..head + |data|] == buffer.Contents();
  }

  method OnSerialize(p: IOPacket, buffer: StackBuffer)
    requires Sendable(p) && buffer.Valid() && buffer.Contents() == []
    modifies buffer, buffer.ptr
    ensures buffer.Valid() && buffer.Contents() == Frame(p)
  {
    var data := WriteMessage(p);
    if p.command != 0 {
      if p.callback != 0 {
        WriteFrame(buffer, HEADER_CALL, p.command, Some(p.callback), data);
      } else {
        WriteFrame(buffer, HEADER_MESSAGE, p.command, None, data);
      }
    } else if p.callback != 0 {
      WriteFrame(buffer, HEADER_CALLBACK, p.callback, Some(p.error), data);
    }
  }

  // ---- receiving --------------------------------------------------------------------------

  class InnerProtocol {
    /** The message queue that packets are dispatched to. */
    var dispatched: seq<IOPacket>
    /** Timer rounds since the last heartbeat. */
    var heartCount: int

    constructor ()
      ensures dispatched == [] && heartCount == 0
    {
      dispatched, heartCount := [], 0;
    }

    /** Dispatches every whole frame in the queue; a heartbeat only restarts the count. */
    method OnUnserialize(buffer: RingBuffer) returns (ok: bool)
      requires buffer.Valid()
      modifies this, buffer
      ensures buffer.Valid() && (buffer.buff == old(buffer.buff) || fresh(buffer.buff))
      ensures var r := ParseAll(old(buffer.Contents()));
              dispatched == old(dispatched) + r.packets && ok == r.ok && (ok ==> buffer.Contents() == r.rest)
      ensures heartCount == if Hearts(old(buffer.Contents())) > 0 then 0 else old(heartCount)
    {
      ghost var all := Prepend(dispatched, ParseAll(buffer.Contents()));
      while buffer.size >= 5
        invariant buffer.Valid() && (buffer.buff == old(buffer.buff) || fresh(buffer.buff))
        invariant all == Prepend(dispatched, ParseAll(buffer.Contents()))
        invariant (if Hearts(buffer.Contents()) > 0 then 0 else heartCount) ==
                  if Hearts(old(buffer.Contents())) > 0 then 0 else old(heartCount)
        decreases buffer.size
      {
        PrependStep(dispatched, buffer.Contents());
        var parsed := UnserializeOne(buffer);
        if !parsed.Got? {
          return parsed.Wait?;
        }
      }
      PrependStep(dispatched, buffer.Contents());
      return true;
    }

    /**
     One round of the loop. A header whose size cannot be right ends it like an unknown type does;
     the source reads past the end of such a frame.
     */
    method UnserializeOne(buffer: RingBuffer) returns (parsed: Parsed)
      requires buffer.Valid() && buffer.size >= 5
      modifies this, buffer
      ensures buffer.Valid() && (buffer.buff == old(buffer.buff) || fresh(buffer.buff))
      ensures parsed.Wait? <==> Parse(old(buffer.Contents())).Wait?
      ensures parsed.Bad? <==> Parse(old(buffer.Contents())).Bad?
      ensures parsed.Got? ==> parsed.packet == Parse(old(buffer.Contents())).packet
      ensures parsed.Got? ==> buffer.Contents() == Parse(old(buffer.Contents())).rest
      ensures parsed.Wait? ==> buffer.Contents() == old(buffer.Contents())
      ensures dispatched == old(dispatched) + if parsed.Got? then AsSeq(parsed.packet) else []
      ensures heartCount == if parsed.Got? && parsed.packet.None? then 0 else old(heartCount)
    {
      var block := buffer.Look(5);
      var size := SizeOf(block);
      LookedAgree(buffer.Contents());
      if size > buffer.size {
        return Wait;
      }
      if !SizeFits(block[0], size) {
        return Bad;
      }
      var f := TakeBlock(buffer, size);
      if block[0] !in {HEADER_CALL, HEADER_CALLBACK, HEADER_MESSAGE} {
        return Bad;
      }
      var packet := Unframe(f);
      if packet.Some? {
        dispatched := dispatched + [packet.value];
      } else {
        heartCount := 0;
      }
      return Got(packet, []);
    }
  }

  ghost function Prepend(ps: seq<IOPacket>, r: Received): Received { r.(packets := ps + r.packets) }

  lemma PrependAfter(ps: seq<IOPacket>, p: Option<IOPacket>, r: Received)
    ensures Prepend(ps, After(p, r)) == Prepend(ps + AsSeq(p), r)
  {
    assert ps + (AsSeq(p) + r.packets) == (ps + AsSeq(p)) + r.packets;
  }

  lemma ParseEnds(b: Bytes)
    requires !Parse(b).Got?
    ensures ParseAll(b) == Received([], if Parse(b).Wait? then b else [], Parse(b).Wait?)
  {
  }

  lemma PrependStep(ps: seq<IOPacket>, b: Bytes)
    ensures Parse(b).Got? ==>
              Prepend(ps, ParseAll(b)) == Prepend(ps + AsSeq(Parse(b).packet), ParseAll(Parse(b).rest))
    ensures !Parse(b).Got? ==> Prepend(ps, ParseAll(b)).packets == ps && ParseAll(b).ok == Parse(b).Wait?
    ensures Parse(b).Wait? ==> ParseAll(b).rest == b
    ensures |b| < 5 ==> Parse(b).Wait?
  {
    if Parse(b).Got? {
      ParseGot(b);
      PrependAfter(ps, Parse(b).packet, ParseAll(Parse(b).rest));
    } else {
      ParseEnds(b);
      assert ps + [] == ps;
    }
  }

  /** The block's type and size are those that parsing the stream finds. */
  lemma LookedAgree(b: Bytes)
    requires |b| >= 5
    ensures b[..5][0] == b[0] && WordAt(b[..5], 1) == WordAt(b, 1)
  {
    assert b[..5][1..5] == b[1..5];
  }

  /** `networkToHost32(block.size)`. */
  method SizeOf(block: Bytes) returns (size: UInt32)
    requires |block| == 5
    ensures size == WordAt(block, 1)
  {
    Streams.Swapped(block[1..5], 4);
    size := Swap(Load(block[1..5]), 4);
  }

  /** Moves one block from the queue to a buffer of its own. */
  method TakeBlock(buffer: RingBuffer, size: UInt32) returns (f: Bytes)
    requires buffer.Valid() && 0 < size <= buffer.size
    modifies buffer
    ensures buffer.Valid() && (buffer.buff == old(buffer.buff) || fresh(buffer.buff))
    ensures f == old(buffer.Contents())[..size] && buffer.Contents() == old(buffer.Contents())[size..]
  {
    var inner := new StackBuffer(INIT_BUFFER_SIZE);
    inner.Ensure(size);
    var data := buffer.Read(size);
    var ok := inner.Reserve(0, size);
    inner.Store(0, data);
    var r := inner.Read(0, size);
    f := r.value;
  }

  // ---- a connection's input -----------------------------------------------------------------------

  /** The input side of a connection: what its protocol has made of the chunks that have arrived. */
  class InputSide {
    const input: RingBuffer
    const protocol: InnerProtocol
    /** Everything received, chunk by chunk, and whether the connection is still open. */
    ghost var chunks: seq<Bytes>
    var open: bool

    ghost predicate Valid()
      reads this, input, input.buff, protocol
    {
      && input.Valid()
      && Receive(chunks).packets == protocol.dispatched && Receive(chunks).ok == open
      && (open ==> Receive(chunks).rest == input.Contents())
    }

    constructor ()
      ensures Valid() && chunks == [] && open && fresh(input) && fresh(input.buff) && fresh(protocol)
    {
      input := new RingBuffer(1024);
      protocol := new InnerProtocol();
      open, chunks := true, [];
    }

    /** `handleTcpConRead`, for the bytes that `readv` delivers. */
    method HandleTcpConRead(data: Bytes)
      requires Valid() && open && 0 < |data| && input.size + |data| < WORD
      modifies this, input, input.buff, protocol
      ensures Valid() && chunks == old(chunks) + [data]
    {
      ReceiveNext(chunks, data);
      chunks := chunks + [data];
      input.Receive(data);
      open := protocol.OnUnserialize(input);
    }

    /** However the chunks were cut: when they are the frames of `ps`, exactly these have been dispatched. */
    lemma Dispatches(ps: seq<IOPacket>)
      requires Valid() && (forall p | p in ps :: Sendable(p)) && Concat(chunks) == Stream(ps)
      ensures protocol.dispatched == DeliveredAll(ps) && open && input.Contents() == []
    {
      Reassembly(ps, chunks);
    }
  }
}
