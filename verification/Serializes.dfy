/** The `Serialize` overloads as the source runs them: loops over a writer, and over a reader. */
module Serializes {
  import opened Types
  import opened Words
  import opened Values
  import opened Codec
  import opened Streams

  lemma LengthIsSigned(n: nat)
    requires n < 0x8000_0000
    ensures Signed(n, 4) && Network(ToUnsigned(n, 4), 4) == EncodeLength(n)
  {
    RadixFour();
  }

  /** What remains to be written after the first `i` fields of a struct. */
  ghost function FieldsLeft(fs: seq<Ty>, vs: seq<Val>, i: nat): Bytes
    requires WellFormed(Struct(fs)) && HasType(Struct(fs), List(vs)) && i <= |fs|
  {
    EncodeFields(fs[i..], vs[i..])
  }

  lemma FieldsStep(fs: seq<Ty>, vs: seq<Val>, i: nat)
    requires WellFormed(Struct(fs)) && HasType(Struct(fs), List(vs)) && i < |fs|
    ensures HasType(fs[i], vs[i]) && WellFormed(fs[i])
    ensures FieldsLeft(fs, vs, i) == Encode(fs[i], vs[i]) + FieldsLeft(fs, vs, i + 1)
  {
    assert fs[i..][1..] == fs[i + 1..] && vs[i..][1..] == vs[i + 1..];
  }

  lemma FieldsEnds(fs: seq<Ty>, vs: seq<Val>)
    requires WellFormed(Struct(fs)) && HasType(Struct(fs), List(vs))
    ensures FieldsLeft(fs, vs, 0) == Encode(Struct(fs), List(vs)) && FieldsLeft(fs, vs, |fs|) == []
  {
    assert fs[0..] == fs && vs[0..] == vs;
  }

  /** What remains to be written after the first `i` elements of a container. */
  ghost function ItemsLeft(kind: Kind, item: Ty, vs: seq<Val>, i: nat): Bytes
    requires WellFormed(Container(kind, item)) && HasType(Container(kind, item), List(vs)) && i <= |vs|
  {
    EncodeItems(item, vs[i..])
  }

  lemma ItemsStep(kind: Kind, item: Ty, vs: seq<Val>, i: nat)
    requires WellFormed(Container(kind, item)) && HasType(Container(kind, item), List(vs)) && i < |vs|
    ensures HasType(item, vs[i]) && WellFormed(item)
    ensures ItemsLeft(kind, item, vs, i) == Encode(item, vs[i]) + ItemsLeft(kind, item, vs, i + 1)
  {
    assert vs[i..][1..] == vs[i + 1..];
  }

  lemma ItemsEnds(kind: Kind, item: Ty, vs: seq<Val>)
    requires WellFormed(Container(kind, item)) && HasType(Container(kind, item), List(vs))
    ensures Encode(Container(kind, item), List(vs)) == EncodeLength(|vs|) + ItemsLeft(kind, item, vs, 0)
    ensures ItemsLeft(kind, item, vs, |vs|) == []
    ensures |vs| < 0x8000_0000
  {
    assert vs[0..] == vs;
  }

  /** Appends exactly the encoding of the value, whenever and wherever the buffer has to grow. */
  method Serialize(w: BufferWriter, t: Ty, v: Val)
    requires WellFormed(t) && HasType(t, v)
    requires w.AtEnd() && w.pos + |Encode(t, v)| < WORD
    modifies w, w.buf.Object(), w.buf.Memory()
    ensures w.AtEnd() && (w.buf.Memory() == old(w.buf.Memory()) || fresh(w.buf.Memory()))
    ensures w.buf.Contents() == old(w.buf.Contents()) + Encode(t, v)
    decreases v, 2
  {
    match t
    case UInt(k) => w.WriteUnsigned(v.n, k);
    case SInt(k) => w.WriteSigned(v.n, k);
    case Str => SerializeString(w, v.s);
    case Struct(fs) => SerializeFields(w, fs, v.items);
    case Container(kind, item) => SerializeContainer(w, kind, item, v.items);
  }

  method SerializeString(w: BufferWriter, s: Bytes)
    requires |s| < 0x8000_0000
    requires w.AtEnd() && w.pos + 4 + |s| < WORD
    modifies w, w.buf.Object(), w.buf.Memory()
    ensures w.AtEnd() && (w.buf.Memory() == old(w.buf.Memory()) || fresh(w.buf.Memory()))
    ensures w.buf.Contents() == old(w.buf.Contents()) + (EncodeLength(|s|) + s)
  {
    SerializeLength(w, |s|);
    w.WriteBytes(s);
  }

  /** `writer.writeInt32(len)`. */
  method SerializeLength(w: BufferWriter, n: nat)
    requires n < 0x8000_0000 && w.AtEnd() && w.pos + 4 < WORD
    modifies w, w.buf.Object(), w.buf.Memory()
    ensures w.AtEnd() && (w.buf.Memory() == old(w.buf.Memory()) || fresh(w.buf.Memory()))
    ensures w.buf.Contents() == old(w.buf.Contents()) + EncodeLength(n)
  {
    LengthIsSigned(n);
    w.WriteSigned(n, 4);
  }

  /** `(writer & ... & args)`: one field after the other. */
  method SerializeFields(w: BufferWriter, fs: seq<Ty>, vs: seq<Val>)
    requires WellFormed(Struct(fs)) && HasType(Struct(fs), List(vs))
    requires w.AtEnd() && w.pos + |Encode(Struct(fs), List(vs))| < WORD
    modifies w, w.buf.Object(), w.buf.Memory()
    ensures w.AtEnd() && (w.buf.Memory() == old(w.buf.Memory()) || fresh(w.buf.Memory()))
    ensures w.buf.Contents() == old(w.buf.Contents()) + Encode(Struct(fs), List(vs))
    decreases vs, 1
  {
    FieldsEnds(fs, vs);
    ghost var all := w.buf.Contents() + FieldsLeft(fs, vs, 0);
    var i := 0;
    while i < |fs|
      invariant 0 <= i <= |fs| && w.AtEnd() && (w.buf.Memory() == old(w.buf.Memory()) || fresh(w.buf.Memory()))
      invariant w.buf.Contents() + FieldsLeft(fs, vs, i) == all
    {
      FieldsStep(fs, vs, i);
      SerializeNext(w, fs[i], vs[i], FieldsLeft(fs, vs, i + 1));
      i := i + 1;
    }
  }

  /** The length, and the elements of a container. */
  method SerializeContainer(w: BufferWriter, kind: Kind, item: Ty, vs: seq<Val>)
    requires WellFormed(Container(kind, item)) && HasType(Container(kind, item), List(vs))
    requires w.AtEnd() && w.pos + |Encode(Container(kind, item), List(vs))| < WORD
    modifies w, w.buf.Object(), w.buf.Memory()
    ensures w.AtEnd() && (w.buf.Memory() == old(w.buf.Memory()) || fresh(w.buf.Memory()))
    ensures w.buf.Contents() == old(w.buf.Contents()) + Encode(Container(kind, item), List(vs))
    decreases vs, 1
  {
    ItemsEnds(kind, item, vs);
    SerializeLength(w, |vs|);
    SerializeItems(w, kind, item, vs);
  }

  /** The loop over the elements, in iteration order. */
  method SerializeItems(w: BufferWriter, kind: Kind, item: Ty, vs: seq<Val>)
    requires WellFormed(Container(kind, item)) && HasType(Container(kind, item), List(vs))
    requires w.AtEnd() && w.pos + |ItemsLeft(kind, item, vs, 0)| < WORD
    modifies w, w.buf.Object(), w.buf.Memory()
    ensures w.AtEnd() && (w.buf.Memory() == old(w.buf.Memory()) || fresh(w.buf.Memory()))
    ensures w.buf.Contents() == old(w.buf.Contents()) + ItemsLeft(kind, item, vs, 0)
    decreases vs, 0
  {
    ghost var all := w.buf.Contents() + ItemsLeft(kind, item, vs, 0);
    var i := 0;
    while i < |vs|
      invariant 0 <= i <= |vs| && w.AtEnd() && (w.buf.Memory() == old(w.buf.Memory()) || fresh(w.buf.Memory()))
      invariant w.buf.Contents() + ItemsLeft(kind, item, vs, i) == all
    {
      ItemsStep(kind, item, vs, i);
      SerializeNext(w, item, vs[i], ItemsLeft(kind, item, vs, i + 1));
      i := i + 1;
    }
    ItemsEnds(kind, item, vs);
  }

  /** One field or element, in front of the bytes `left` that are still to be written. */
  method SerializeNext(w: BufferWriter, t: Ty, v: Val, ghost left: Bytes)
    requires WellFormed(t) && HasType(t, v)
    requires w.AtEnd() && w.pos + |Encode(t, v) + left| < WORD
    modifies w, w.buf.Object(), w.buf.Memory()
    ensures w.AtEnd() && (w.buf.Memory() == old(w.buf.Memory()) || fresh(w.buf.Memory()))
    ensures w.buf.Contents() + left == old(w.buf.Contents()) + (Encode(t, v) + left)
    decreases v, 3
  {
    Serialize(w, t, v);
  }

  /** Reads the value at the front of what the reader has left; the source asserts that it is there. */
  method Deserialize(r: BufferReader, t: Ty) returns (v: Val)
    requires WellFormed(t) && r.Valid() && Decode(t, r.Rest()).Some?
    modifies r
    ensures r.Valid() && Decode(t, old(r.Rest())) == Some(Decoded(v, r.Rest()))
    decreases t, 0
  {
    match t
    case UInt(k) =>
      var n := r.ReadUnsigned(k);
      v := Num(n);
    case SInt(k) =>
      var n := r.ReadSigned(k);
      v := Num(n);
    case Str =>
      var n := r.ReadSigned(4);
      var s := r.ReadBytes(n);
      v := Text(s.value);
    case Struct(fs) =>
      var vs := DeserializeFields(r, fs);
      v := List(vs);
    case Container(kind, item) =>
      var n := r.ReadSigned(4);
      var vs := DeserializeItems(r, kind, item, n);
      v := List(vs);
  }

  /** `vs` are the fields in front of some bytes; the first `i` have been read, and `now` is left. */
  ghost predicate FieldsRead(fs: seq<Ty>, vs: seq<Val>, i: nat, now: Bytes, rest: Bytes)
    requires forall f | f in fs :: WellFormed(f)
  {
    i <= |fs| == |vs| && DecodeFields(fs[i..], now) == Some(Decoded(vs[i..], rest))
  }

  lemma NextField(fs: seq<Ty>, vs: seq<Val>, i: nat, now: Bytes, rest: Bytes)
    requires (forall f | f in fs :: WellFormed(f)) && FieldsRead(fs, vs, i, now, rest) && i < |fs|
    ensures var x := Decode(fs[i], now);
            x.Some? && x.value.value == vs[i] && FieldsRead(fs, vs, i + 1, x.value.rest, rest)
  {
    assert fs[i..][1..] == fs[i + 1..] && vs[i..][1..] == vs[i + 1..];
  }

  lemma FieldsReadEnds(fs: seq<Ty>, b: Bytes)
    requires (forall f | f in fs :: WellFormed(f)) && DecodeFields(fs, b).Some?
    ensures var d := DecodeFields(fs, b).value;
            FieldsRead(fs, d.value, 0, b, d.rest) && forall now | FieldsRead(fs, d.value, |fs|, now, d.rest) :: now == d.rest
  {
    var d := DecodeFields(fs, b).value;
    assert fs[0..] == fs && d.value[0..] == d.value;
  }

  method DeserializeFields(r: BufferReader, fs: seq<Ty>) returns (vs: seq<Val>)
    requires r.Valid() && (forall f | f in fs :: WellFormed(f)) && DecodeFields(fs, r.Rest()).Some?
    modifies r
    ensures r.Valid() && DecodeFields(fs, old(r.Rest())) == Some(Decoded(vs, r.Rest()))
    decreases fs, 2
  {
    ghost var d := DecodeFields(fs, r.Rest()).value;
    FieldsReadEnds(fs, r.Rest());
    vs := DeserializeEach(r, fs, d.value, d.rest);
  }

  /** The fold over the fields. */
  method DeserializeEach(r: BufferReader, fs: seq<Ty>, ghost all: seq<Val>, ghost rest: Bytes) returns (vs: seq<Val>)
    requires r.Valid() && (forall f | f in fs :: WellFormed(f)) && FieldsRead(fs, all, 0, r.Rest(), rest)
    modifies r
    ensures r.Valid() && vs == all && FieldsRead(fs, all, |fs|, r.Rest(), rest)
    decreases fs, 1
  {
    vs := [];
    var i := 0;
    while i < |fs|
      invariant 0 <= i <= |fs| == |all| && r.Valid() && vs == all[..i]
      invariant FieldsRead(fs, all, i, r.Rest(), rest)
    {
      var v := DeserializeField(r, fs, i, all, rest);
      vs := vs + [v];
      i := i + 1;
    }
  }

  /** One `&` of the fold. */
  method DeserializeField(r: BufferReader, fs: seq<Ty>, i: nat, ghost all: seq<Val>, ghost rest: Bytes) returns (v: Val)
    requires r.Valid() && (forall f | f in fs :: WellFormed(f)) && i < |fs| && FieldsRead(fs, all, i, r.Rest(), rest)
    modifies r
    ensures r.Valid() && v == all[i] && FieldsRead(fs, all, i + 1, r.Rest(), rest)
    decreases fs, 0
  {
    NextField(fs, all, i, r.Rest(), rest);
    v := Deserialize(r, fs[i]);
  }

  /** `v` are the `n` elements in front of `b`, of which the first `i` have been read: `now` is left. */
  ghost predicate ReadSoFar(item: Ty, v: seq<Val>, i: nat, now: Bytes, rest: Bytes)
    requires WellFormed(item)
  {
    i <= |v| && DecodeItems(item, |v| - i, now) == Some(Decoded(v[i..], rest))
  }

  lemma NextItem(item: Ty, v: seq<Val>, i: nat, now: Bytes, rest: Bytes)
    requires WellFormed(item) && ReadSoFar(item, v, i, now, rest) && i < |v|
    ensures var x := Decode(item, now);
            x.Some? && x.value.value == v[i] && ReadSoFar(item, v, i + 1, x.value.rest, rest)
  {
    assert v[i..][1..] == v[i + 1..];
  }

  lemma NothingLeft(item: Ty, v: seq<Val>, now: Bytes, rest: Bytes)
    requires WellFormed(item) && ReadSoFar(item, v, |v|, now, rest)
    ensures now == rest
  {
  }

  lemma ItemsRead(item: Ty, n: nat, b: Bytes)
    requires WellFormed(item) && DecodeItems(item, n, b).Some?
    ensures var d := DecodeItems(item, n, b).value; |d.value| == n && ReadSoFar(item, d.value, 0, b, d.rest)
  {
    var d := DecodeItems(item, n, b).value;
    assert d.value[0..] == d.value;
  }

  /** `vec[i] = v` in a vector resized for it, `set.insert(v)`, or the new value of `map[key]`. */
  function Add(kind: Kind, container: seq<Val>, v: Val): seq<Val> {
    if kind == Vector then container + [v] else Insert(kind, container, v)
  }

  lemma AddNext(kind: Kind, all: seq<Val>, i: nat)
    requires i < |all|
    ensures Rebuild(kind, all[..i + 1]) == Add(kind, Rebuild(kind, all[..i]), all[i])
  {
    assert all[..i + 1][..i] == all[..i];
  }

  method DeserializeNext(r: BufferReader, item: Ty, ghost all: seq<Val>, ghost i: nat, ghost rest: Bytes) returns (v: Val)
    requires WellFormed(item) && r.Valid() && i < |all| && ReadSoFar(item, all, i, r.Rest(), rest)
    modifies r
    ensures r.Valid() && v == all[i] && ReadSoFar(item, all, i + 1, r.Rest(), rest)
    decreases item, 1
  {
    NextItem(item, all, i, r.Rest(), rest);
    v := Deserialize(r, item);
  }

  /** Fills an empty container with the `n` elements that come next. */
  method DeserializeItems(r: BufferReader, kind: Kind, item: Ty, n: nat) returns (container: seq<Val>)
    requires r.Valid() && WellFormed(item) && DecodeItems(item, n, r.Rest()).Some?
    modifies r
    ensures r.Valid()
    ensures var d := DecodeItems(item, n, old(r.Rest())).value;
            container == Rebuild(kind, d.value) && r.Rest() == d.rest
    decreases item, n + 3
  {
    ghost var d := DecodeItems(item, n, r.Rest()).value;
    ItemsRead(item, n, r.Rest());
    container := DeserializeLoop(r, kind, item, n, d.value, d.rest);
    NothingLeft(item, d.value, r.Rest(), d.rest);
  }

  /** The loop that pushes or inserts the decoded elements. */
  method DeserializeLoop(r: BufferReader, kind: Kind, item: Ty, n: nat, ghost vs: seq<Val>, ghost rest: Bytes)
    returns (container: seq<Val>)
    requires r.Valid() && WellFormed(item) && |vs| == n && ReadSoFar(item, vs, 0, r.Rest(), rest)
    modifies r
    ensures r.Valid() && container == Rebuild(kind, vs) && ReadSoFar(item, vs, n, r.Rest(), rest)
    decreases item, 2
  {
    container := [];
    var len := n;
    ghost var i := 0;
    while len > 0
      invariant 0 <= len <= n && i == n - len
      invariant r.Valid()
      invariant container == Rebuild(kind, vs[..i])
      invariant ReadSoFar(item, vs, i, r.Rest(), rest)
    {
      AddNext(kind, vs, i);
      var v := DeserializeNext(r, item, vs, i, rest);
      container := Add(kind, container, v);
      i := i + 1;
      len := len - 1;
    }
    assert vs[..n] == vs;
  }

  /** Writing a value to a fresh buffer and reading it back gives the value, and leaves nothing over. */
  method WriteThenRead(buf: IBuffer, t: Ty, v: Val) returns (u: Val)
    requires WellFormed(t) && HasType(t, v) && |Encode(t, v)| < WORD
    requires buf.Valid() && buf.Contents() == []
    modifies buf.Object(), buf.Memory()
    ensures u == v
  {
    var w := new BufferWriter(buf);
    Serialize(w, t, v);
    assert buf.Contents() == Encode(t, v) + [];
    RoundTrip(t, v, []);
    var r := new BufferReader(buf);
    u := Deserialize(r, t);
  }
}
