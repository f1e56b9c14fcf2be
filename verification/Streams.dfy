/** `BufferWriter` and `BufferReader`: positional access to a buffer, in network byte order. */
module Streams {
  import opened Types
  import opened Words
  import opened Buffers

  /** `IBuffer`: one of the two classes behind it. */
  datatype IBuffer = Heap(heap: Buffer) | Stack(stack: StackBuffer)
  {
    ghost predicate Valid()
      reads Object()
    {
      match this case Heap(b) => b.Valid() case Stack(s) => s.Valid()
    }

    /** The buffer object itself. */
    ghost function Object(): object {
      match this case Heap(b) => b case Stack(s) => s
    }

    /** The memory it currently uses. */
    ghost function Memory(): array<UInt8>
      reads Object()
    {
      match this case Heap(b) => b.buff case Stack(s) => s.ptr
    }

    ghost function Contents(): Bytes
      requires Valid()
      reads Object(), Memory()
    {
      match this case Heap(b) => b.Contents() case Stack(s) => s.Contents()
    }

    /** `*(T*)write(pos, sizeof(T)) = word`, for a word with the given memory image. */
    method Put(pos: UInt32, image: Bytes)
      requires Valid() && pos <= |Contents()| && pos + |image| < WORD
      modifies Object(), Memory()
      ensures Valid() && Contents() == Overlay(old(Contents()), pos, image)
      ensures Memory() == old(Memory()) || fresh(Memory())
    {
      match this
      case Heap(b) => b.Put(pos, image);
      case Stack(s) => s.Put(pos, image);
    }

    method WriteBytes(pos: UInt32, data: Bytes)
      requires Valid() && pos <= |Contents()| && pos + |data| < WORD
      modifies Object(), Memory()
      ensures Valid()
      ensures Contents() == if Heap? then old(Contents())[..pos] + data else Overlay(old(Contents()), pos, data)
      ensures Memory() == old(Memory()) || fresh(Memory())
    {
      match this
      case Heap(b) => b.WriteBytes(pos, data);
      case Stack(s) => s.WriteBytes(pos, data);
    }

    method Read(pos: UInt32, n: UInt32) returns (r: Option<Bytes>)
      requires Valid() && pos + n < WORD
      ensures r == if pos + n > |Contents()| then None else Some(Contents()[pos..pos + n])
    {
      match this
      case Heap(b) => r := b.Read(pos, n);
      case Stack(s) => r := s.Read(pos, n);
    }
  }

  /** `hostToNetwork`: the swapped word, as the host stores it. */
  method HostToNetwork(n: nat, k: nat) returns (image: Bytes)
    requires WordSize(k) && Unsigned(n, k)
    ensures image == Network(n, k)
  {
    SwapStoresNetworkOrder(n, k);
    image := Image(Swap(n, k), k);
  }

  /** Loading bytes as the host does and swapping reads them in network order. */
  lemma Swapped(b: Bytes, k: nat)
    requires WordSize(k) && |b| == k
    ensures Swap(Load(b), k) == Load(Reverse(b)) && Network(Load(Reverse(b)), k) == b
  {
    SwapLoads(Load(b), k);
    ImageLoad(b);
    ImageLoad(Reverse(b));
    ReverseTwice(b);
  }

  /** `networkToHost`: the word the host loads, swapped. */
  method NetworkToHost(image: Bytes, k: nat) returns (n: nat)
    requires WordSize(k) && |image| == k
    ensures n == Load(Reverse(image)) && Unsigned(n, k) && Network(n, k) == image
  {
    Swapped(image, k);
    n := Swap(Load(image), k);
  }

  lemma AppendTwice(a: Bytes, b: Bytes, c: Bytes)
    ensures (a + b) + c == a + (b + c)
  {
  }

  class BufferWriter {
    const buf: IBuffer
    var pos: UInt32

    ghost predicate Valid()
      reads this, buf.Object(), buf.Memory()
    {
      buf.Valid() && pos <= |buf.Contents()|
    }

    /** The writer stands at the end: so it does from a fresh buffer on, unless `Shrink` moves it. */
    ghost predicate AtEnd()
      reads this, buf.Object(), buf.Memory()
    {
      buf.Valid() && pos == |buf.Contents()|
    }

    constructor (buf: IBuffer)
      requires buf.Valid()
      ensures this.buf == buf && pos == 0 && Valid()
      ensures |buf.Contents()| == 0 ==> AtEnd()
    {
      this.buf, pos := buf, 0;
    }

    /** Moves the position back; the buffer keeps its size and its bytes. */
    method Shrink(n: UInt32)
      requires Valid() && n <= pos
      modifies this
      ensures Valid() && pos == old(pos) - n && buf.Contents() == old(buf.Contents())
      ensures old(AtEnd()) ==> (AtEnd() <==> n == 0)
    {
      pos := pos - n;
    }

    /** The unsigned `k`-byte overloads: the word is swapped, then stored as the host stores words. */
    method WriteUnsigned(n: nat, k: nat)
      requires Valid() && WordSize(k) && Unsigned(n, k) && pos + k < WORD
      modifies this, buf.Object(), buf.Memory()
      ensures Valid() && pos == old(pos) + k && (buf.Memory() == old(buf.Memory()) || fresh(buf.Memory()))
      ensures buf.Contents() == Overlay(old(buf.Contents()), old(pos), Network(n, k))
      ensures old(AtEnd()) ==> AtEnd() && buf.Contents() == old(buf.Contents()) + Network(n, k)
    {
      var image := HostToNetwork(n, k);
      OverlayAtEnd(buf.Contents(), image);
      buf.Put(pos, image);
      pos := pos + k;
    }

    /** The signed overloads convert to the unsigned word of the same size. */
    method WriteSigned(n: int, k: nat)
      requires Valid() && WordSize(k) && Signed(n, k) && pos + k < WORD
      modifies this, buf.Object(), buf.Memory()
      ensures Valid() && pos == old(pos) + k && (buf.Memory() == old(buf.Memory()) || fresh(buf.Memory()))
      ensures buf.Contents() == Overlay(old(buf.Contents()), old(pos), Network(ToUnsigned(n, k), k))
      ensures old(AtEnd()) ==> AtEnd() && buf.Contents() == old(buf.Contents()) + Network(ToUnsigned(n, k), k)
    {
      TwosComplement(k);
      WriteUnsigned(ToUnsigned(n, k), k);
    }

    method WriteBytes(data: Bytes)
      requires Valid() && pos + |data| < WORD
      modifies this, buf.Object(), buf.Memory()
      ensures Valid() && pos == old(pos) + |data| && (buf.Memory() == old(buf.Memory()) || fresh(buf.Memory()))
      ensures buf.Contents() ==
              if buf.Heap? then old(buf.Contents())[..old(pos)] + data else Overlay(old(buf.Contents()), old(pos), data)
      ensures old(AtEnd()) ==> AtEnd() && buf.Contents() == old(buf.Contents()) + data
    {
      OverlayAtEnd(buf.Contents(), data);
      buf.WriteBytes(pos, data);
      pos := pos + |data|;
    }

    /** A uint32 length and the bytes. */
    method WriteString(s: Bytes)
      requires AtEnd() && |s| < WORD && pos + 4 + |s| < WORD
      modifies this, buf.Object(), buf.Memory()
      ensures AtEnd() && pos == old(pos) + 4 + |s| && (buf.Memory() == old(buf.Memory()) || fresh(buf.Memory()))
      ensures buf.Contents() == old(buf.Contents()) + (Network(|s|, 4) + s)
    {
      assert Radix(4) == WORD by { assert Radix(2) == 0x1_0000; }
      AppendTwice(buf.Contents(), Network(|s|, 4), s);
      WriteUnsigned(|s|, 4);
      WriteBytes(s);
    }
  }

  // ---- any sequence of writes -------------------------------------------------------------

  /** A call of the writer; `Unsigned` and `Signed` stand for the overloads of the `k`-byte words. */
  datatype AnyCall =
    | PutUnsigned(n: nat, k: nat)
    | PutSigned(m: int, k: nat)
    | PutBytes(data: Bytes)
    | PutString(s: Bytes)

  predicate Legal(c: AnyCall) {
    match c
    case PutUnsigned(n, k) => WordSize(k) && Unsigned(n, k)
    case PutSigned(m, k) => WordSize(k) && Signed(m, k)
    case PutBytes(_) => true
    case PutString(s) => |s| < WORD
  }

  type WriterCall = c: AnyCall | Legal(c) witness PutBytes([])

  function Written(c: WriterCall): Bytes {
    match c
    case PutUnsigned(n, k) => Network(n, k)
    case PutSigned(m, k) => Network(ToUnsigned(m, k), k)
    case PutBytes(data) => data
    case PutString(s) => Network(|s|, 4) + s
  }

  /** The bytes of each call, one after the other. */
  function WrittenAll(cs: seq<WriterCall>): Bytes {
    if cs == [] then [] else WrittenAll(cs[..|cs| - 1]) + Written(cs[|cs| - 1])
  }

  method WriteOne(w: BufferWriter, c: WriterCall)
    requires w.AtEnd() && w.pos + |Written(c)| < WORD
    modifies w, w.buf.Object(), w.buf.Memory()
    ensures w.AtEnd() && (w.buf.Memory() == old(w.buf.Memory()) || fresh(w.buf.Memory()))
    ensures w.buf.Contents() == old(w.buf.Contents()) + Written(c)
  {
    match c
    case PutUnsigned(n, k) => w.WriteUnsigned(n, k);
    case PutSigned(m, k) => w.WriteSigned(m, k);
    case PutBytes(data) => w.WriteBytes(data);
    case PutString(s) => w.WriteString(s);
  }

  /** After any sequence of calls the buffer has grown by the bytes of each, in order. */
  method WriteAll(w: BufferWriter, cs: seq<WriterCall>)
    requires w.AtEnd() && w.pos + |WrittenAll(cs)| < WORD
    modifies w, w.buf.Object(), w.buf.Memory()
    ensures w.AtEnd() && (w.buf.Memory() == old(w.buf.Memory()) || fresh(w.buf.Memory()))
    ensures w.buf.Contents() == old(w.buf.Contents()) + WrittenAll(cs)
  {
    hide Written;
    if cs != [] {
      AppendTwice(w.buf.Contents(), WrittenAll(cs[..|cs| - 1]), Written(cs[|cs| - 1]));
      WriteAll(w, cs[..|cs| - 1]);
      WriteOne(w, cs[|cs| - 1]);
    }
  }

  method WriteToHeap(cs: seq<WriterCall>, capacity: UInt32) returns (bytes: Bytes)
    requires |WrittenAll(cs)| < WORD
    ensures bytes == WrittenAll(cs)
  {
    var b := new Buffer(capacity);
    var w := new BufferWriter(Heap(b));
    WriteAll(w, cs);
    var r := b.Read(0, w.pos);
    bytes := r.value;
  }

  method WriteToStack(cs: seq<WriterCall>, fixed: nat) returns (bytes: Bytes)
    requires |WrittenAll(cs)| < WORD && fixed < 0x1_0000
    ensures bytes == WrittenAll(cs)
  {
    var b := new StackBuffer(fixed);
    var w := new BufferWriter(Stack(b));
    WriteAll(w, cs);
    var r := b.Read(0, w.pos);
    bytes := r.value;
  }

  /** So what is stored depends neither on the kind of buffer nor on the sizes at which it grew. */
  method SameOnAnyBuffer(cs: seq<WriterCall>, capacity: UInt32, fixed: nat) returns (heap: Bytes, stack: Bytes)
    requires |WrittenAll(cs)| < WORD && fixed < 0x1_0000
    ensures heap == stack == WrittenAll(cs)
  {
    heap := WriteToHeap(cs, capacity);
    stack := WriteToStack(cs, fixed);
  }

  lemma StartOfRest(b: Bytes, pos: nat, k: nat)
    requires pos + k <= |b|
    ensures b[pos..pos + k] == b[pos..][..k] && b[pos..][k..] == b[pos + k..]
  {
  }

  class BufferReader {
    const buf: IBuffer
    var pos: UInt32

    ghost predicate Valid()
      reads this, buf.Object(), buf.Memory()
    {
      buf.Valid() && pos <= |buf.Contents()|
    }

    /** The bytes the reader has not read yet. */
    ghost function Rest(): Bytes
      requires Valid()
      reads this, buf.Object(), buf.Memory()
    {
      buf.Contents()[pos..]
    }

    constructor (buf: IBuffer)
      requires buf.Valid()
      ensures this.buf == buf && Valid() && Rest() == buf.Contents()
    {
      this.buf, pos := buf, 0;
    }

    /** Despite its name, the number of bytes read so far; as an int32 it is that number below 2^31. */
    method BytesLeft() returns (n: UInt32)
      ensures n == pos
      ensures Valid() ==> (n == |Rest()| <==> 2 * pos == |buf.Contents()|)
    {
      n := pos;
    }

    /** The unsigned `k`-byte overloads. The source asserts that the bytes are there. */
    method ReadUnsigned(k: nat) returns (n: nat)
      requires Valid() && WordSize(k) && k <= |Rest()|
      modifies this
      ensures Valid() && Unsigned(n, k) && Network(n, k) == old(Rest())[..k]
      ensures n == Load(Reverse(old(Rest())[..k])) && Rest() == old(Rest())[k..]
    {
      var image := buf.Read(pos, k);
      StartOfRest(buf.Contents(), pos, k);
      pos := pos + k;
      n := NetworkToHost(image.value, k);
    }

    method ReadSigned(k: nat) returns (n: int)
      requires Valid() && WordSize(k) && k <= |Rest()|
      modifies this
      ensures Valid() && Signed(n, k) && n == ToSigned(Load(Reverse(old(Rest())[..k])), k)
      ensures Rest() == old(Rest())[k..]
    {
      var u := ReadUnsigned(k);
      TwosComplement(k);
      n := ToSigned(u, k);
    }

    /** `read(len)`: `None` stands for null. The position advances either way. */
    method ReadBytes(n: UInt32) returns (r: Option<Bytes>)
      requires Valid() && pos + n < WORD
      modifies this
      ensures pos == old(pos) + n
      ensures r == if n <= |old(Rest())| then Some(old(Rest())[..n]) else None
      ensures n <= |old(Rest())| ==> Valid() && Rest() == old(Rest())[n..]
    {
      r := buf.Read(pos, n);
      if n <= |Rest()| {
        StartOfRest(buf.Contents(), pos, n);
      }
      pos := pos + n;
    }
  }
}
