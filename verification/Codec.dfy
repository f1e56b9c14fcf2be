/**
 What `Serialize` writes for a value, what it reads back, and the round trip between the two.
 */
module Codec {
  import opened Types
  import opened Words
  import opened Values

  /** The length field in front of every string and container: an int32. */
  function EncodeLength(n: nat): (b: Bytes)
    ensures |b| == 4
  {
    Network(n, 4)
  }

  function Encode(t: Ty, v: Val): Bytes
    requires WellFormed(t) && HasType(t, v)
    decreases v, 0
  {
    match t
    case UInt(k) => Network(v.n, k)
    case SInt(k) => Network(ToUnsigned(v.n, k), k)
    case Str => EncodeLength(|v.s|) + v.s
    case Struct(fs) => EncodeFields(fs, v.items)
    case Container(_, item) => EncodeLength(|v.items|) + EncodeItems(item, v.items)
  }

  function EncodeFields(fs: seq<Ty>, vs: seq<Val>): Bytes
    requires |fs| == |vs|
    requires forall i | 0 <= i < |fs| :: WellFormed(fs[i]) && HasType(fs[i], vs[i])
    decreases vs, 1
  {
    if fs == [] then [] else Encode(fs[0], vs[0]) + EncodeFields(fs[1..], vs[1..])
  }

  function EncodeItems(item: Ty, vs: seq<Val>): Bytes
    requires WellFormed(item) && forall x | x in vs :: HasType(item, x)
    decreases vs, 1
  {
    if vs == [] then [] else Encode(item, vs[0]) + EncodeItems(item, vs[1..])
  }

  /** A decoded value and the bytes after it. */
  datatype Decoded<+T> = Decoded(value: T, rest: Bytes)

  /** The next `k` bytes as an unsigned word; `None` when fewer are left and the reader asserts. */
  function DecodeWord(k: nat, b: Bytes): (r: Option<Decoded<nat>>)
    ensures r.Some? <==> k <= |b|
    ensures r.Some? ==> r.value.rest == b[k..] && r.value.value < Radix(k)
  {
    if |b| < k then None else Some(Decoded(Load(Reverse(b[..k])), b[k..]))
  }

  /** A length field; `None` also when the int32 is negative. */
  function DecodeLength(b: Bytes): (r: Option<Decoded<nat>>) {
    var w := DecodeWord(4, b);
    if w.None? || ToSigned(w.value.value, 4) < 0 then None else w
  }

  function Decode(t: Ty, b: Bytes): (r: Option<Decoded<Val>>)
    requires WellFormed(t)
    decreases t, 0
  {
    match t
    case UInt(k) =>
      var w := DecodeWord(k, b);
      if w.None? then None else Some(Decoded(Num(w.value.value), w.value.rest))
    case SInt(k) =>
      var w := DecodeWord(k, b);
      if w.None? then None else Some(Decoded(Num(ToSigned(w.value.value, k)), w.value.rest))
    case Str =>
      var n := DecodeLength(b);
      if n.None? || |n.value.rest| < n.value.value then None
      else Some(Decoded(Text(n.value.rest[..n.value.value]), n.value.rest[n.value.value..]))
    case Struct(fs) =>
      var vs := DecodeFields(fs, b);
      if vs.None? then None else Some(Decoded(List(vs.value.value), vs.value.rest))
    case Container(kind, item) =>
      var n := DecodeLength(b);
      if n.None? then None else
      var vs := DecodeItems(item, n.value.value, n.value.rest);
      if vs.None? then None else Some(Decoded(List(Rebuild(kind, vs.value.value)), vs.value.rest))
  }

  function DecodeFields(fs: seq<Ty>, b: Bytes): (r: Option<Decoded<seq<Val>>>)
    requires forall f | f in fs :: WellFormed(f)
    ensures r.Some? ==> |r.value.value| == |fs|
    decreases fs, 0
  {
    if fs == [] then Some(Decoded([], b)) else
    var x := Decode(fs[0], b);
    if x.None? then None else
    var xs := DecodeFields(fs[1..], x.value.rest);
    if xs.None? then None else Some(Decoded([x.value.value] + xs.value.value, xs.value.rest))
  }

  /** The `n` items that follow, in the order in which they were written. */
  function DecodeItems(item: Ty, n: nat, b: Bytes): (r: Option<Decoded<seq<Val>>>)
    requires WellFormed(item)
    ensures r.Some? ==> |r.value.value| == n
    decreases item, n + 1
  {
    if n == 0 then Some(Decoded([], b)) else
    var x := Decode(item, b);
    if x.None? then None else
    var xs := DecodeItems(item, n - 1, x.value.rest);
    if xs.None? then None else Some(Decoded([x.value.value] + xs.value.value, xs.value.rest))
  }

  // ---- round trip -------------------------------------------------------------------------

  lemma DecodeNetwork(n: nat, k: nat, rest: Bytes)
    requires n < Radix(k)
    ensures DecodeWord(k, Network(n, k) + rest) == Some(Decoded(n, rest))
  {
    NetworkRoundTrip(n, k);
    assert (Network(n, k) + rest)[..k] == Network(n, k);
    assert (Network(n, k) + rest)[k..] == rest;
  }

  lemma DecodeEncodedLength(n: nat, rest: Bytes)
    requires n < 0x8000_0000
    ensures DecodeLength(EncodeLength(n) + rest) == Some(Decoded(n, rest))
  {
    RadixFour();
    DecodeNetwork(n, 4, rest);
  }

  lemma RadixFour()
    ensures Radix(4) == 0x1_0000_0000
  {
    assert Radix(2) == 0x1_0000;
  }

  lemma RoundTripText(s: Bytes, rest: Bytes)
    requires |s| < 0x8000_0000
    ensures Decode(Str, (EncodeLength(|s|) + s) + rest) == Some(Decoded(Text(s), rest))
  {
    DecodeEncodedLength(|s|, s + rest);
    assert (EncodeLength(|s|) + s) + rest == EncodeLength(|s|) + (s + rest);
  }

  /** Decoding the encoding of a value gives the value back and stops exactly behind it. */
  lemma {:induction false} RoundTrip(t: Ty, v: Val, rest: Bytes)
    requires WellFormed(t) && HasType(t, v)
    ensures Decode(t, Encode(t, v) + rest) == Some(Decoded(v, rest))
    decreases v, 0
  {
    match t
    case UInt(k) =>
      DecodeNetwork(v.n, k, rest);
    case SInt(k) =>
      TwosComplement(k);
      DecodeNetwork(ToUnsigned(v.n, k), k, rest);
    case Str =>
      RoundTripText(v.s, rest);
    case Struct(fs) =>
      RoundTripFields(fs, v.items, rest);
    case Container(kind, item) =>
      RoundTripItems(item, v.items, rest);
      RebuildInOrder(kind, v.items);
      RoundTripContainer(kind, item, v.items, EncodeItems(item, v.items), rest);
  }

  lemma RoundTripContainer(kind: Kind, item: Ty, vs: seq<Val>, body: Bytes, rest: Bytes)
    requires WellFormed(Container(kind, item)) && |vs| < 0x8000_0000
    requires DecodeItems(item, |vs|, body + rest) == Some(Decoded(vs, rest))
    ensures Decode(Container(kind, item), (EncodeLength(|vs|) + body) + rest) ==
            Some(Decoded(List(Rebuild(kind, vs)), rest))
  {
    DecodeEncodedLength(|vs|, body + rest);
    assert (EncodeLength(|vs|) + body) + rest == EncodeLength(|vs|) + (body + rest);
  }

  lemma DecodeFieldsStep(fs: seq<Ty>, x: Val, xs: seq<Val>, b: Bytes, tail: Bytes, rest: Bytes)
    requires fs != [] && forall f | f in fs :: WellFormed(f)
    requires Decode(fs[0], b) == Some(Decoded(x, tail))
    requires DecodeFields(fs[1..], tail) == Some(Decoded(xs, rest))
    ensures DecodeFields(fs, b) == Some(Decoded([x] + xs, rest))
  {
  }

  lemma EncodeFieldsStep(fs: seq<Ty>, vs: seq<Val>, rest: Bytes)
    requires |fs| == |vs| && fs != []
    requires forall i | 0 <= i < |fs| :: WellFormed(fs[i]) && HasType(fs[i], vs[i])
    ensures EncodeFields(fs, vs) + rest == Encode(fs[0], vs[0]) + (EncodeFields(fs[1..], vs[1..]) + rest)
  {
  }

  lemma EncodeItemsStep(item: Ty, vs: seq<Val>, rest: Bytes)
    requires vs != [] && WellFormed(item) && forall x | x in vs :: HasType(item, x)
    ensures EncodeItems(item, vs) + rest == Encode(item, vs[0]) + (EncodeItems(item, vs[1..]) + rest)
  {
  }

  lemma {:induction false} RoundTripFields(fs: seq<Ty>, vs: seq<Val>, rest: Bytes)
    requires |fs| == |vs|
    requires forall i | 0 <= i < |fs| :: WellFormed(fs[i]) && HasType(fs[i], vs[i])
    ensures DecodeFields(fs, EncodeFields(fs, vs) + rest) == Some(Decoded(vs, rest))
    decreases vs, 1
  {
    if fs == [] {
      assert [] + rest == rest;
    } else {
      var tail := EncodeFields(fs[1..], vs[1..]) + rest;
      EncodeFieldsStep(fs, vs, rest);
      RoundTrip(fs[0], vs[0], tail);
      RoundTripFields(fs[1..], vs[1..], rest);
      DecodeFieldsStep(fs, vs[0], vs[1..], EncodeFields(fs, vs) + rest, tail, rest);
      assert vs == [vs[0]] + vs[1..];
    }
  }

  lemma DecodeItemsStep(item: Ty, vs: seq<Val>, b: Bytes, tail: Bytes, rest: Bytes)
    requires WellFormed(item) && vs != []
    requires Decode(item, b) == Some(Decoded(vs[0], tail))
    requires DecodeItems(item, |vs| - 1, tail) == Some(Decoded(vs[1..], rest))
    ensures DecodeItems(item, |vs|, b) == Some(Decoded(vs, rest))
  {
    assert vs == [vs[0]] + vs[1..];
  }

  lemma {:induction false} RoundTripItems(item: Ty, vs: seq<Val>, rest: Bytes)
    requires WellFormed(item) && forall x | x in vs :: HasType(item, x)
    ensures DecodeItems(item, |vs|, EncodeItems(item, vs) + rest) == Some(Decoded(vs, rest))
    decreases vs, 1
  {
    if vs == [] {
      assert [] + rest == rest;
    } else {
      var b, tail := EncodeItems(item, vs) + rest, EncodeItems(item, vs[1..]) + rest;
      EncodeItemsStep(item, vs, rest);
      assert Decode(item, b) == Some(Decoded(vs[0], tail)) by { RoundTrip(item, vs[0], tail); }
      assert DecodeItems(item, |vs| - 1, tail) == Some(Decoded(vs[1..], rest)) by { RoundTripItems(item, vs[1..], rest); }
      DecodeItemsStep(item, vs, b, tail, rest);
    }
  }

  /** Encodings of one type are prefix-free: a stream of them splits in only one way. */
  lemma PrefixFree(t: Ty, v: Val, w: Val, a: Bytes, b: Bytes)
    requires WellFormed(t) && HasType(t, v) && HasType(t, w)
    requires Encode(t, v) + a == Encode(t, w) + b
    ensures v == w && a == b
  {
    RoundTrip(t, v, a);
    RoundTrip(t, w, b);
  }

  // ---- the layout, without its recursion --------------------------------------------------

  /** The elements of a container are written one after the other, in iteration order. */
  lemma {:induction false} ItemsInOrder(item: Ty, vs: seq<Val>, ws: seq<Val>)
    requires WellFormed(item) && forall x | x in vs + ws :: HasType(item, x)
    ensures (forall x | x in vs :: HasType(item, x)) && (forall x | x in ws :: HasType(item, x))
    ensures EncodeItems(item, vs + ws) == EncodeItems(item, vs) + EncodeItems(item, ws)
  {
    hide Encode, HasType;
    assert forall x | x in vs || x in ws :: x in vs + ws;
    if vs == [] {
      assert vs + ws == ws;
    } else {
      assert forall x | x in vs[1..] + ws :: x in vs + ws;
      assert (vs + ws)[1..] == vs[1..] + ws;
      ItemsInOrder(item, vs[1..], ws);
      EncodeItemsStep(item, vs + ws, []);
      EncodeItemsStep(item, vs, EncodeItems(item, ws));
    }
  }

  /** So are the fields of a struct, in the order in which they are listed. */
  lemma {:induction false} FieldsInOrder(fs: seq<Ty>, vs: seq<Val>, gs: seq<Ty>, ws: seq<Val>)
    requires |fs| == |vs| && |gs| == |ws|
    requires forall i | 0 <= i < |fs| :: WellFormed(fs[i]) && HasType(fs[i], vs[i])
    requires forall i | 0 <= i < |gs| :: WellFormed(gs[i]) && HasType(gs[i], ws[i])
    ensures forall i | 0 <= i < |fs + gs| :: WellFormed((fs + gs)[i]) && HasType((fs + gs)[i], (vs + ws)[i])
    ensures EncodeFields(fs + gs, vs + ws) == EncodeFields(fs, vs) + EncodeFields(gs, ws)
  {
    hide Encode, HasType, WellFormed;
    if fs == [] {
      assert fs + gs == gs && vs + ws == ws;
    } else {
      assert (fs + gs)[1..] == fs[1..] + gs && (vs + ws)[1..] == vs[1..] + ws;
      FieldsInOrder(fs[1..], vs[1..], gs, ws);
      EncodeFieldsStep(fs + gs, vs + ws, []);
      EncodeFieldsStep(fs, vs, EncodeFields(gs, ws));
    }
  }

  /** A single element or field is written as itself. */
  lemma SingleItem(t: Ty, v: Val)
    requires WellFormed(t) && HasType(t, v)
    ensures EncodeItems(t, [v]) == Encode(t, v) == EncodeFields([t], [v])
  {
  }

  /** Values of this type hold no ordered container. */
  predicate Plain(t: Ty) {
    match t
    case Struct(fs) => forall f | f in fs :: Plain(f)
    case Container(kind, item) => kind == Vector && Plain(item)
    case _ => true
  }

  lemma DecodedWord(k: nat, b: Bytes)
    requires k <= |b|
    ensures DecodeWord(k, b).Some? && Network(DecodeWord(k, b).value.value, k) + DecodeWord(k, b).value.rest == b
  {
    ReverseTwice(b[..k]);
    ImageLoad(Reverse(b[..k]));
    assert b == b[..k] + b[k..];
  }

  lemma DecodedLength(b: Bytes)
    requires DecodeLength(b).Some?
    ensures EncodeLength(DecodeLength(b).value.value) + DecodeLength(b).value.rest == b
  {
    DecodedWord(4, b);
  }

  /**
   A value without ordered containers is decoded from its own encoding and from no other bytes:
   what the decoder consumed is what the encoder writes.
   */
  lemma {:induction false} DecodedIsEncoded(t: Ty, b: Bytes)
    requires WellFormed(t) && Plain(t) && Decode(t, b).Some?
    ensures var d := Decode(t, b).value; HasType(t, d.value) && b == Encode(t, d.value) + d.rest
    decreases t, 0
  {
    DecodedHasType(t, b);
    var d := Decode(t, b).value;
    match t
    case UInt(k) => DecodedWord(k, b);
    case SInt(k) =>
      DecodedWord(k, b);
      TwosComplement(k);
    case Str =>
      DecodedLength(b);
      assert DecodeLength(b).value.rest == d.value.s + d.rest;
    case Struct(fs) => DecodedFieldsAreEncoded(fs, b);
    case Container(kind, item) =>
      var n := DecodeLength(b).value;
      DecodedLength(b);
      DecodedItemsAreEncoded(item, n.value, n.rest);
  }

  lemma {:induction false} DecodedFieldsAreEncoded(fs: seq<Ty>, b: Bytes)
    requires (forall f | f in fs :: WellFormed(f) && Plain(f)) && DecodeFields(fs, b).Some?
    ensures var d := DecodeFields(fs, b).value;
            && (forall i | 0 <= i < |fs| :: HasType(fs[i], d.value[i]))
            && b == EncodeFields(fs, d.value) + d.rest
    decreases fs, 0
  {
    hide Encode, Decode, HasType, WellFormed, Plain;
    DecodedFieldsHaveTypes(fs, b);
    if fs != [] {
      var x := Decode(fs[0], b).value;
      DecodedIsEncoded(fs[0], b);
      DecodedFieldsAreEncoded(fs[1..], x.rest);
      EncodeFieldsStep(fs, DecodeFields(fs, b).value.value, DecodeFields(fs, b).value.rest);
    }
  }

  lemma {:induction false} DecodedItemsAreEncoded(item: Ty, n: nat, b: Bytes)
    requires WellFormed(item) && Plain(item) && DecodeItems(item, n, b).Some?
    ensures var d := DecodeItems(item, n, b).value;
            (forall x | x in d.value :: HasType(item, x)) && b == EncodeItems(item, d.value) + d.rest
    decreases item, n + 1
  {
    hide Encode, Decode, HasType, WellFormed, Plain;
    DecodedItemsHaveType(item, n, b);
    if n != 0 {
      var x := Decode(item, b).value;
      DecodedIsEncoded(item, b);
      DecodedItemsAreEncoded(item, n - 1, x.rest);
      EncodeItemsStep(item, DecodeItems(item, n, b).value.value, DecodeItems(item, n, b).value.rest);
    }
  }

  // ---- every decoded value is well typed --------------------------------------------------

  lemma {:induction false} RebuildOrders(kind: Kind, s: seq<Val>)
    ensures InOrder(kind, Rebuild(kind, s))
    ensures |Rebuild(kind, s)| <= |s|
    ensures forall y | y in Rebuild(kind, s) :: y in s
  {
    if kind != Vector && s != [] {
      var p, x := s[..|s| - 1], s[|s| - 1];
      RebuildOrders(kind, p);
      InsertKeepsOrder(kind, Rebuild(kind, p), x);
      InsertMembers(kind, Rebuild(kind, p), x);
    }
  }

  /** Of the items with key `k` the last one. */
  function LastUnder(kind: Kind, s: seq<Val>, k: Val): Option<Val> {
    if s == [] then None
    else if Key(kind, s[|s| - 1]) == k then Some(s[|s| - 1])
    else LastUnder(kind, s[..|s| - 1], k)
  }

  /** Of items read under one key, in whatever order and how often, the container keeps the last. */
  lemma {:induction false} RebuildKeepsLast(kind: Kind, s: seq<Val>, k: Val)
    requires kind != Vector
    ensures Find(kind, Rebuild(kind, s), k) == LastUnder(kind, s, k)
  {
    if s != [] {
      var p, x := s[..|s| - 1], s[|s| - 1];
      RebuildKeepsLast(kind, p, k);
      RebuildOrders(kind, p);
      InsertUpdates(kind, Rebuild(kind, p), x, k);
    }
  }

  /** Whatever the bytes are: a decoded value has the type asked for, its containers in order. */
  lemma {:induction false} DecodedHasType(t: Ty, b: Bytes)
    requires WellFormed(t) && Decode(t, b).Some?
    ensures HasType(t, Decode(t, b).value.value)
    decreases t, 0
  {
    match t
    case UInt(k) =>
    case SInt(k) => TwosComplement(k);
    case Str => RadixFour();
    case Struct(fs) => DecodedFieldsHaveTypes(fs, b);
    case Container(kind, item) =>
      var n := DecodeLength(b).value;
      var vs := DecodeItems(item, n.value, n.rest).value.value;
      RadixFour();
      DecodedItemsHaveType(item, n.value, n.rest);
      RebuildOrders(kind, vs);
  }

  lemma {:induction false} DecodedFieldsHaveTypes(fs: seq<Ty>, b: Bytes)
    requires forall f | f in fs :: WellFormed(f)
    requires DecodeFields(fs, b).Some?
    ensures forall i | 0 <= i < |fs| :: HasType(fs[i], DecodeFields(fs, b).value.value[i])
    decreases fs, 0
  {
    if fs != [] {
      DecodedHasType(fs[0], b);
      DecodedFieldsHaveTypes(fs[1..], Decode(fs[0], b).value.rest);
    }
  }

  lemma {:induction false} DecodedItemsHaveType(item: Ty, n: nat, b: Bytes)
    requires WellFormed(item) && DecodeItems(item, n, b).Some?
    ensures forall x | x in DecodeItems(item, n, b).value.value :: HasType(item, x)
    decreases item, n + 1
  {
    if n != 0 {
      DecodedHasType(item, b);
      DecodedItemsHaveType(item, n - 1, Decode(item, b).value.rest);
    }
  }
}
