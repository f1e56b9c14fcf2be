/** Messages: the factory that creates them by id, and the packed form in which they travel. */
module Messages {
  import opened Types
  import opened Values
  import opened Codec
  import opened Buffers
  import opened Streams
  import Serializes

  /** A message object: its identity, and its fields as the value of a struct. */
  datatype Message = Message(id: int, ty: Ty, value: Val)
  {
    /** The fields hold what their types say, and their encoding fits a buffer. */
    ghost predicate Typed() {
      WellFormed(ty) && HasType(ty, value) && |Encode(ty, value)| < WORD
    }
  }

  /** `IMessagePtr`: null, a message of its own class, or a `SerializeMessage`. */
  datatype MessagePtr = Null | Plain(message: Message) | Packed(packed: SerializeMessage)

  class MessageFactory {
    /** What each registered creator returns: a new message, or null. */
    var creators: map<int, Option<Message>>

    ghost predicate Valid()
      reads this
    {
      forall id | id in creators && creators[id].Some? :: WellFormed(creators[id].value.ty)
    }

    constructor ()
      ensures Valid() && creators == map[]
    {
      creators := map[];
    }

    /** The source asserts that the id is new. */
    method RegisterMessage(id: int, creator: Option<Message>)
      requires Valid() && id !in creators && (creator.Some? ==> WellFormed(creator.value.ty))
      modifies this
      ensures Valid() && creators == old(creators)[id := creator]
    {
      creators := creators[id := creator];
    }

    method Create(id: int) returns (r: Option<Message>)
      ensures r == if id in creators then creators[id] else None
    {
      if id !in creators {
        return None;
      }
      return creators[id];
    }
  }

  class SerializeMessage {
    const id: int
    const buffer: Buffer

    ghost predicate Holds(bytes: Bytes)
      reads buffer, buffer.buff
    {
      buffer.Valid() && buffer.Contents() == bytes
    }

    /** `SerializeMessage(const IMessagePtr&)`. */
    constructor Of(m: Message)
      requires m.Typed()
      ensures id == m.id && fresh(buffer) && fresh(buffer.buff)
      ensures Holds(Encode(m.ty, m.value))
    {
      id := m.id;
      buffer := new Buffer(128);
      new;
      var writer := new BufferWriter(Heap(buffer));
      Serializes.Serialize(writer, m.ty, m.value);
    }

    /** `SerializeMessage(id, ptr, len)`. */
    constructor (id: int, bytes: Bytes)
      requires |bytes| < WORD
      ensures this.id == id && fresh(buffer) && fresh(buffer.buff) && Holds(bytes)
    {
      this.id := id;
      buffer := new Buffer(|bytes|);
      new;
      buffer.WriteBytes(0, bytes);
    }

    /** Sends the packed bytes on as they are. */
    method Write(w: BufferWriter)
      requires buffer.Valid() && w.AtEnd() && w.pos + |buffer.Contents()| < WORD
      requires buffer != w.buf.Object()
      modifies w, w.buf.Object(), w.buf.Memory()
      ensures w.AtEnd() && (w.buf.Memory() == old(w.buf.Memory()) || fresh(w.buf.Memory()))
      ensures w.buf.Contents() == old(w.buf.Contents()) + old(buffer.Contents())
    {
      var bytes := buffer.Read(0, buffer.size);
      w.WriteBytes(bytes.value);
    }

    /** Takes as many bytes from the reader as the reader has read already. */
    method Read(r: BufferReader)
      requires buffer.Valid() && r.Valid() && buffer != r.buf.Object() && buffer.buff != r.buf.Memory()
      requires r.pos <= |r.Rest()|
      modifies r, buffer, buffer.buff
      ensures Holds(old(r.Rest())[..old(r.pos)])
    {
      var n := r.BytesLeft();
      var bytes := r.ReadBytes(n);
      Fill(bytes.value);
    }

    /** The buffer cleared, and the bytes stored through the pointer that `write(0, n)` gives. */
    method Fill(bytes: Bytes)
      requires buffer.Valid() && |bytes| < WORD
      modifies buffer, buffer.buff
      ensures Holds(bytes)
    {
      buffer.Clear();
      var ok := buffer.Reserve(0, |bytes|);
      buffer.Store(0, bytes);
    }
  }

  /** Reading takes all that is left exactly when the reader is half-way through its buffer. */
  lemma ReadsRestHalfway(all: Bytes, pos: nat)
    requires 2 * pos <= |all|
    ensures all[pos..][..pos] == all[pos..] <==> 2 * pos == |all|
  {
    if all[pos..][..pos] == all[pos..] {
      assert |all[pos..][..pos]| == pos;
    }
  }

  // ---- conversion -------------------------------------------------------------------------

  /** The message the payload `bytes` under `id` stands for. */
  function Converted(creators: map<int, Option<Message>>, id: int, bytes: Bytes): Option<Message>
    requires forall i | i in creators && creators[i].Some? :: WellFormed(creators[i].value.ty)
  {
    if id !in creators || creators[id].None? then None else
    var d := Decode(creators[id].value.ty, bytes);
    if d.None? then None else Some(creators[id].value.(value := d.value.value))
  }

  /** `onMessageConvert`; the source asserts that the payload holds all the fields. */
  method OnMessageConvert(factory: MessageFactory, m: MessagePtr) returns (r: MessagePtr)
    requires factory.Valid() && (m.Packed? ==> m.packed.buffer.Valid())
    requires m.Packed? && m.packed.id in factory.creators && factory.creators[m.packed.id].Some? ==>
               Decode(factory.creators[m.packed.id].value.ty, m.packed.buffer.Contents()).Some?
    ensures !m.Packed? ==> r == m
    ensures m.Packed? ==>
              (r == Null <==> m.packed.id !in factory.creators || factory.creators[m.packed.id].None?)
    ensures m.Packed? ==>
              var c := Converted(factory.creators, m.packed.id, m.packed.buffer.Contents());
              r == if c.Some? then Plain(c.value) else Null
  {
    if !m.Packed? {
      return m;
    }
    var created := factory.Create(m.packed.id);
    if created.None? {
      return Null;
    }
    var reader := new BufferReader(Heap(m.packed.buffer));
    var v := Serializes.Deserialize(reader, created.value.ty);
    r := Plain(created.value.(value := v));
  }

  /**
   A packed message is converted back to itself exactly when the creator registered under its id
   makes messages of its class.
   */
  lemma ConversionIdentity(creators: map<int, Option<Message>>, m: Message)
    requires forall i | i in creators && creators[i].Some? :: WellFormed(creators[i].value.ty)
    requires m.Typed()
    ensures Converted(creators, m.id, Encode(m.ty, m.value)) == Some(m) <==>
            m.id in creators && creators[m.id].Some? &&
            creators[m.id].value.id == m.id && creators[m.id].value.ty == m.ty
  {
    RoundTrip(m.ty, m.value, []);
    assert Encode(m.ty, m.value) + [] == Encode(m.ty, m.value);
  }

  /** The packed bytes written through a sender's writer, and copied at the far end. */
  method Transfer(p: SerializeMessage) returns (q: SerializeMessage)
    requires p.buffer.Valid() && |p.buffer.Contents()| < WORD
    ensures q.id == p.id && q.Holds(p.buffer.Contents())
  {
    var b := new StackBuffer(2048);
    var w := new BufferWriter(Stack(b));
    p.Write(w);
    var sent := b.Read(0, b.size);
    q := new SerializeMessage(p.id, sent.value);
  }

  /** Packing a message, sending the packed bytes and unpacking them at the far end. */
  method SendAndConvert(factory: MessageFactory, m: Message) returns (r: Message)
    requires factory.Valid() && m.Typed()
    requires m.id in factory.creators && factory.creators[m.id].Some?
    requires factory.creators[m.id].value.id == m.id && factory.creators[m.id].value.ty == m.ty
    ensures r == m
  {
    var packed := new SerializeMessage.Of(m);
    var received := Transfer(packed);
    ConversionIdentity(factory.creators, m);
    var converted := OnMessageConvert(factory, Packed(received));
    r := converted.message;
  }
}
