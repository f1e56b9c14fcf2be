/** The payload of Ping and Pong, packed field by field with the codec. */
module Handshake {
  import opened Types
  import Values
  import Codec

  /** Who is speaking, and the node it takes the other side for. */
  datatype Hello = Hello(fromCode: UInt32, fromType: UInt32, info: Text, toCode: UInt32, toType: UInt32)

  const HELLO_TYPE := Values.Struct([Values.UInt(4), Values.UInt(4), Values.Str, Values.UInt(4), Values.UInt(4)])

  function AsValue(h: Hello): (v: Values.Val)
    ensures Values.WellFormed(HELLO_TYPE) && Values.HasType(HELLO_TYPE, v)
  {
    Codec.RadixFour();
    Values.List([Values.Num(h.fromCode), Values.Num(h.fromType), Values.Text(h.info), Values.Num(h.toCode), Values.Num(h.toType)])
  }

  function FromValue(v: Values.Val): (h: Hello)
    requires Values.HasType(HELLO_TYPE, v)
  {
    Codec.RadixFour();
    assert forall i | 0 <= i < 5 :: Values.HasType(HELLO_TYPE.fields[i], v.items[i]);
    Hello(v.items[0].n, v.items[1].n, v.items[2].s, v.items[3].n, v.items[4].n)
  }

  function Pack(h: Hello): Bytes {
    Codec.Encode(HELLO_TYPE, AsValue(h))
  }

  /** `None` when the reader runs out of bytes. */
  function Unpack(b: Bytes): Option<Hello> {
    assert Values.WellFormed(HELLO_TYPE);
    var d := Codec.Decode(HELLO_TYPE, b);
    if d.None? then None else
    Codec.DecodedHasType(HELLO_TYPE, b);
    Some(FromValue(d.value.value))
  }

  /** What one engine packs the other unpacks. */
  lemma UnpackPack(h: Hello)
    ensures Unpack(Pack(h)) == Some(h)
  {
    Codec.RoundTrip(HELLO_TYPE, AsValue(h), []);
    assert Pack(h) + [] == Pack(h);
  }

  lemma AsValueFromValue(v: Values.Val)
    requires Values.HasType(HELLO_TYPE, v)
    ensures AsValue(FromValue(v)) == v
  {
    assert forall i | 0 <= i < 5 :: Values.HasType(HELLO_TYPE.fields[i], v.items[i]);
    assert v.items == [v.items[0], v.items[1], v.items[2], v.items[3], v.items[4]];
  }

  /** A payload is read as `h` exactly when it starts with what `h` is packed as; what follows is ignored. */
  lemma UnpackIff(b: Bytes, h: Hello)
    ensures Unpack(b) == Some(h) <==> Pack(h) <= b
  {
    if Unpack(b) == Some(h) {
      Codec.DecodedIsEncoded(HELLO_TYPE, b);
      AsValueFromValue(Codec.Decode(HELLO_TYPE, b).value.value);
    }
    if Pack(h) <= b {
      Codec.RoundTrip(HELLO_TYPE, AsValue(h), b[|Pack(h)|..]);
      assert b == Pack(h) + b[|Pack(h)|..];
    }
  }
}
