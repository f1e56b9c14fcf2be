/** Ping and Pong as bytes: packed into real buffers, framed, cut up by the network, and unpacked. */
module HandshakeWire {
  import opened Types
  import opened Words
  import opened Handshake
  import opened Streams
  import Engine
  import Framing
  import Messages
  import Serializes
  import Codec

  /** The payload: the sender's code, type and info, and then the code and type of the node it is for. */
  function HelloBytes(h: Hello): (b: Bytes)
    ensures |b| == 20 + |h.info|
  {
    Network(h.fromCode, 4) + Network(h.fromType, 4) + Network(|h.info|, 4) + h.info +
    Network(h.toCode, 4) + Network(h.toType, 4)
  }

  lemma PackBytes(h: Hello)
    ensures Pack(h) == HelloBytes(h)
  {
    hide Serializes.FieldsLeft, Codec.EncodeFields, Codec.EncodeItems;
    var t, v := HELLO_TYPE.fields, AsValue(h).items;
    Serializes.FieldsEnds(t, v);
    Serializes.FieldsStep(t, v, 0);
    Serializes.FieldsStep(t, v, 1);
    Serializes.FieldsStep(t, v, 2);
    Serializes.FieldsStep(t, v, 3);
    Serializes.FieldsStep(t, v, 4);
  }

  lemma PackLength(h: Hello)
    ensures |Pack(h)| == 20 + |h.info|
  {
    PackBytes(h);
  }

  /** The packet that `send` is given: a command, and a serialized message with identity 0. */
  function Wire(p: Engine.Packet): Framing.IOPacket {
    Framing.IOPacket(p.cmd, 0, 0, if p.message.None? then None else Some(Framing.Body(0, p.message.value)))
  }

  /** `engine::pack` into a new serialized message. */
  method PackHello(h: Hello) returns (m: Messages.SerializeMessage)
    ensures fresh(m) && m.id == 0 && m.Holds(Pack(h)) && m.Holds(HelloBytes(h))
  {
    PackBytes(h);
    m := new Messages.SerializeMessage.Of(Messages.Message(0, HELLO_TYPE, AsValue(h)));
  }

  /** `engine::unpack` from a serialized message; the source asserts that the fields are all there. */
  method UnpackHello(m: Messages.SerializeMessage) returns (h: Hello)
    requires m.buffer.Valid() && Unpack(m.buffer.Contents()).Some?
    ensures Some(h) == Unpack(m.buffer.Contents()) && HelloBytes(h) <= m.buffer.Contents()
  {
    hide HelloBytes, Pack, Network, Codec.Encode;
    var reader := new BufferReader(Heap(m.buffer));
    Codec.DecodedHasType(HELLO_TYPE, m.buffer.Contents());
    var v := Serializes.Deserialize(reader, HELLO_TYPE);
    h := FromValue(v);
    UnpackIff(m.buffer.Contents(), h);
    PackBytes(h);
  }

  /** A Ping, or a Pong, with the given Hello. */
  function Shake(ping: bool, h: Hello): (p: Engine.Packet)
    ensures Framing.Sendable(Wire(p)) && Framing.Delivered(Wire(p)) == Some(Wire(p))
    ensures Engine.ReadHello(p) == Some(h)
  {
    PackLength(h);
    UnpackPack(h);
    if ping then Engine.PingPacket(h) else Engine.PongPacket(h)
  }

  /** Every byte of a Ping or a Pong on the wire: type, size, command, message id 0, and the payload. */
  lemma ShakeBytes(ping: bool, h: Hello)
    ensures Framing.Frame(Wire(Shake(ping, h))) ==
            [0x83] + Network(33 + |h.info|, 4) + Network(if ping then 2 else 3, 4) + Network(0, 4) + HelloBytes(h)
  {
    hide HelloBytes, Pack, Unpack, Network, Framing.Frame, Framing.Delivered;
    PackBytes(h);
    Framing.FrameBytes(Wire(Shake(ping, h)));
  }

  function Wires(pings: seq<bool>, hs: seq<Hello>): (r: seq<Framing.IOPacket>)
    requires |pings| == |hs|
    ensures |r| == |hs| && forall i | 0 <= i < |hs| :: r[i] == Wire(Shake(pings[i], hs[i]))
    ensures forall p | p in r :: Framing.Sendable(p)
  {
    if hs == [] then [] else [Wire(Shake(pings[0], hs[0]))] + Wires(pings[1..], hs[1..])
  }

  lemma {:induction false} AllDelivered(pings: seq<bool>, hs: seq<Hello>)
    requires |pings| == |hs|
    ensures Framing.DeliveredAll(Wires(pings, hs)) == Wires(pings, hs)
  {
    if hs != [] {
      AllDelivered(pings[1..], hs[1..]);
      assert Wires(pings, hs)[1..] == Wires(pings[1..], hs[1..]);
    }
  }

  /**
   However the network cuts up the frames of a sequence of Pings and Pongs, exactly these packets
   are dispatched at the other side, in order, and each reads as the Hello that was packed.
   */
  lemma HellosArrive(pings: seq<bool>, hs: seq<Hello>, cs: seq<Bytes>)
    requires |pings| == |hs| && Framing.Concat(cs) == Framing.Stream(Wires(pings, hs))
    ensures Framing.Receive(cs) == Framing.Received(Wires(pings, hs), [], true)
    ensures forall i | 0 <= i < |hs| ::
              var m := Framing.Receive(cs).packets[i].message;
              m.Some? && Unpack(m.value.bytes) == Some(hs[i])
  {
    Framing.Reassembly(Wires(pings, hs), cs);
    AllDelivered(pings, hs);
  }
}
