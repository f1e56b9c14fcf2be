/** `msgs::TestMessage`: a concrete message with a vector, a map, a set and a vector of strings. */
module TestMessages {
  import opened Types
  import opened Values
  import opened Codec
  import Messages
  import Serializes
  import Words

  type Int32 = x: int | -0x8000_0000 <= x < 0x8000_0000
  type Int64 = x: int | -0x8000_0000_0000_0000 <= x < 0x8000_0000_0000_0000

  datatype TestMessage = TestMessage(
    value1: Int32, value2: Int64, str: Text, values: seq<Int64>,
    entries: map<Int32, Int64>, members: set<Int32>, strValues: seq<Text>)

  const IDENTITY := 9999

  const TEST_TYPE := Struct([SInt(4), SInt(8), Str, Container(Vector, SInt(8)), MapOf(SInt(4), SInt(8)),
                             Container(OrderedSet, SInt(4)), Container(Vector, Str)])

  // ---- the containers in iteration order --------------------------------------------------

  ghost function Smallest(s: set<Int32>): (r: Int32)
    requires s != {}
    ensures r in s && forall x | x in s :: r <= x
  {
    var x :| x in s;
    if s == {x} then x else
    assert s - {x} != {};
    var y := Smallest(s - {x});
    assert forall z | z in s :: z == x || z in s - {x};
    if x < y then x else y
  }

  /** The elements of a `std::set<int32>`, or the keys of a map, as iteration meets them. */
  ghost function Ascending(s: set<Int32>): (r: seq<Int32>)
    ensures forall i, j | 0 <= i < j < |r| :: r[i] < r[j]
    ensures forall x :: x in r <==> x in s
    ensures |r| == |s|
  {
    if s == {} then [] else
    var x := Smallest(s);
    var t := Ascending(s - {x});
    assert forall y | y in t :: x < y;
    [x] + t
  }

  ghost function Entry(k: Int32, v: Int64): Val { List([Num(k), Num(v)]) }

  ghost function Entries(m: map<Int32, Int64>): (r: seq<Val>)
    ensures |r| == |m|
  {
    var keys := Ascending(m.Keys);
    assert |m.Keys| == |m|;
    seq(|keys|, i requires 0 <= i < |keys| => Entry(keys[i], m[keys[i]]))
  }

  ghost function Nums(s: seq<int>): seq<Val> { seq(|s|, i requires 0 <= i < |s| => Num(s[i])) }

  ghost function Texts(s: seq<Text>): seq<Val> { seq(|s|, i requires 0 <= i < |s| => Text(s[i])) }

  /** All container sizes fit the int32 length field. */
  ghost predicate Sized(m: TestMessage) {
    |m.values| < 0x8000_0000 && |m.entries| < 0x8000_0000 && |m.members| < 0x8000_0000 && |m.strValues| < 0x8000_0000
  }

  /** The fields in the order in which `serialize` chains them. */
  ghost function AsValue(m: TestMessage): Val {
    List([Num(m.value1), Num(m.value2), Text(m.str), List(Nums(m.values)), List(Entries(m.entries)),
          List(Nums(Ascending(m.members))), List(Texts(m.strValues))])
  }

  lemma SignedBounds(n: int)
    ensures Words.Signed(n, 4) <==> -0x8000_0000 <= n < 0x8000_0000
    ensures Words.Signed(n, 8) <==> -0x8000_0000_0000_0000 <= n < 0x8000_0000_0000_0000
  {
    RadixFour();
    RadixEight();
  }

  lemma RadixEight()
    ensures Words.Radix(8) == 0x1_0000_0000_0000_0000
  {
    RadixFour();
    assert Words.Radix(6) == 0x1_0000_0000_0000;
  }

  lemma EntryTyped(k: Int32, v: Int64)
    ensures HasType(Struct([SInt(4), SInt(8)]), Entry(k, v))
  {
    SignedBounds(k);
    SignedBounds(v);
  }

  lemma EntriesOrdered(m: map<Int32, Int64>)
    ensures InOrder(OrderedMap, Entries(m))
  {
    hide Ascending, HasType;
    var keys, es := Ascending(m.Keys), Entries(m);
    forall i, j | 0 <= i < j < |es| ensures Less(Key(OrderedMap, es[i]), Key(OrderedMap, es[j])) {
      assert keys[i] < keys[j];
      assert Key(OrderedMap, es[i]) == Num(keys[i]) && Key(OrderedMap, es[j]) == Num(keys[j]);
    }
  }

  lemma AllTyped(kind: Kind, item: Ty, vs: seq<Val>)
    requires |vs| < 0x8000_0000 && InOrder(kind, vs)
    requires forall i | 0 <= i < |vs| :: HasType(item, vs[i])
    ensures HasType(Container(kind, item), List(vs))
  {
    forall x | x in vs ensures HasType(item, x) {
      var i :| 0 <= i < |vs| && vs[i] == x;
    }
  }

  lemma EntriesTyped(m: map<Int32, Int64>)
    requires |m| < 0x8000_0000
    ensures HasType(MapOf(SInt(4), SInt(8)), List(Entries(m)))
  {
    var keys, es := Ascending(m.Keys), Entries(m);
    forall i | 0 <= i < |es| ensures HasType(Struct([SInt(4), SInt(8)]), es[i]) {
      EntryTyped(keys[i], m[keys[i]]);
    }
    EntriesOrdered(m);
    AllTyped(OrderedMap, Struct([SInt(4), SInt(8)]), es);
  }

  lemma NumsTyped(kind: Kind, k: nat, s: seq<int>)
    requires |s| < 0x8000_0000 && kind != OrderedMap
    requires forall n | n in s :: Words.Signed(n, k)
    requires kind == OrderedSet ==> forall i, j | 0 <= i < j < |s| :: s[i] < s[j]
    ensures HasType(Container(kind, SInt(k)), List(Nums(s)))
  {
    forall x | x in Nums(s) ensures HasType(SInt(k), x) {
      var i :| 0 <= i < |s| && Nums(s)[i] == x;
    }
  }

  lemma TextsTyped(s: seq<Text>)
    requires |s| < 0x8000_0000
    ensures HasType(Container(Vector, Str), List(Texts(s)))
  {
    forall x | x in Texts(s) ensures HasType(Str, x) {
      var i :| 0 <= i < |s| && Texts(s)[i] == x;
    }
  }

  lemma TestTypeWellFormed()
    ensures WellFormed(TEST_TYPE)
  {
    assert WellFormed(Struct([SInt(4), SInt(8)]));
  }

  lemma WordsTyped(m: TestMessage)
    ensures HasType(SInt(4), Num(m.value1)) && HasType(SInt(8), Num(m.value2)) && HasType(Str, Text(m.str))
  {
    SignedBounds(m.value1);
    SignedBounds(m.value2);
  }

  lemma VectorTyped(s: seq<Int64>)
    requires |s| < 0x8000_0000
    ensures HasType(Container(Vector, SInt(8)), List(Nums(s)))
  {
    forall n | n in s ensures Words.Signed(n, 8) { SignedBounds(n); }
    NumsTyped(Vector, 8, s);
  }

  lemma SetTyped(s: set<Int32>)
    requires |s| < 0x8000_0000
    ensures HasType(Container(OrderedSet, SInt(4)), List(Nums(Ascending(s))))
  {
    forall n | n in Ascending(s) ensures Words.Signed(n, 4) { SignedBounds(n); }
    NumsTyped(OrderedSet, 4, Ascending(s));
  }

  lemma WordTyped(m: TestMessage, i: nat)
    requires i < 3
    ensures HasType(TEST_TYPE.fields[i], AsValue(m).items[i])
  {
    WordsTyped(m);
  }

  lemma NumbersTyped(m: TestMessage, i: nat)
    requires Sized(m) && (i == 3 || i == 5)
    ensures HasType(TEST_TYPE.fields[i], AsValue(m).items[i])
  {
    VectorTyped(m.values);
    SetTyped(m.members);
  }

  lemma OthersTyped(m: TestMessage, i: nat)
    requires Sized(m) && (i == 4 || i == 6)
    ensures HasType(TEST_TYPE.fields[i], AsValue(m).items[i])
  {
    EntriesTyped(m.entries);
    TextsTyped(m.strValues);
  }

  lemma StructTyped(f: seq<Ty>, v: seq<Val>)
    requires |f| == |v| && forall i | 0 <= i < |f| :: HasType(f[i], v[i])
    ensures HasType(Struct(f), List(v))
  {
  }

  /** Any contents at all are a value of the message's type. */
  lemma TestMessageTyped(m: TestMessage)
    requires Sized(m)
    ensures HasType(TEST_TYPE, AsValue(m))
  {
    var f, v := TEST_TYPE.fields, AsValue(m).items;
    assert |f| == |v| == 7;
    forall i | 0 <= i < 7 ensures HasType(f[i], v[i]) {
      if i < 3 {
        WordTyped(m, i);
      } else if i == 3 || i == 5 {
        NumbersTyped(m, i);
      } else {
        OthersTyped(m, i);
      }
    }
    StructTyped(f, v);
  }

  // ---- nothing is lost --------------------------------------------------------------------

  lemma NumsInjective(s: seq<int>, t: seq<int>)
    requires Nums(s) == Nums(t)
    ensures s == t
  {
    assert |Nums(s)| == |s| && |Nums(t)| == |t|;
    forall i | 0 <= i < |s| ensures s[i] == t[i] {
      assert Nums(s)[i] == Num(s[i]) && Nums(t)[i] == Num(t[i]);
    }
  }

  lemma TextsInjective(s: seq<Text>, t: seq<Text>)
    requires Texts(s) == Texts(t)
    ensures s == t
  {
    assert |Texts(s)| == |s| && |Texts(t)| == |t|;
    forall i | 0 <= i < |s| ensures s[i] == t[i] {
      assert Texts(s)[i] == Text(s[i]) && Texts(t)[i] == Text(t[i]);
    }
  }

  lemma EntriesInclude(m: map<Int32, Int64>, n: map<Int32, Int64>, k: Int32)
    requires Entries(m) == Entries(n) && k in m
    ensures k in n && n[k] == m[k]
  {
    var keys := Ascending(m.Keys);
    var i :| 0 <= i < |keys| && keys[i] == k;
    assert Entries(m)[i] == Entry(k, m[k]);
    var j := Ascending(n.Keys)[i];
    assert Entries(n)[i] == Entry(j, n[j]);
  }

  lemma EntriesCovered(m: map<Int32, Int64>, n: map<Int32, Int64>)
    requires Entries(m) == Entries(n)
    ensures forall k | k in m :: k in n && n[k] == m[k]
  {
    forall k | k in m ensures k in n && n[k] == m[k] {
      EntriesInclude(m, n, k);
    }
  }

  lemma SameMap<K, V>(m: map<K, V>, n: map<K, V>)
    requires forall k | k in m :: k in n && n[k] == m[k]
    requires forall k | k in n :: k in m && m[k] == n[k]
    ensures m == n
  {
  }

  lemma EntriesInjective(m: map<Int32, Int64>, n: map<Int32, Int64>)
    requires Entries(m) == Entries(n)
    ensures m == n
  {
    EntriesCovered(m, n);
    EntriesCovered(n, m);
    SameMap(m, n);
  }

  lemma MembersInjective(s: set<Int32>, t: set<Int32>)
    requires Nums(Ascending(s)) == Nums(Ascending(t))
    ensures s == t
  {
    NumsInjective(Ascending(s), Ascending(t));
    assert forall x :: x in s <==> x in Ascending(s);
  }

  /** Two messages with the same value have the same contents, map and set included. */
  lemma AsValueInjective(a: TestMessage, b: TestMessage)
    requires AsValue(a) == AsValue(b)
    ensures a == b
  {
    var v, w := AsValue(a).items, AsValue(b).items;
    assert forall i | 0 <= i < 7 :: v[i] == w[i];
    assert v[0] == w[0] && v[1] == w[1] && v[2] == w[2];
    assert v[3] == w[3] && v[4] == w[4];
    assert v[5] == w[5] && v[6] == w[6];
    NumsInjective(a.values, b.values);
    EntriesInjective(a.entries, b.entries);
    MembersInjective(a.members, b.members);
    TextsInjective(a.strValues, b.strValues);
  }

  ghost function Pack(m: TestMessage): Bytes
    requires Sized(m)
  {
    TestTypeWellFormed();
    TestMessageTyped(m);
    Encode(TEST_TYPE, AsValue(m))
  }

  // ---- what is on the wire ----------------------------------------------------------------

  ghost function Flat(parts: seq<Bytes>): Bytes {
    if parts == [] then [] else Flat(parts[..|parts| - 1]) + parts[|parts| - 1]
  }

  /** `k` bytes in network order, negative numbers in two's complement. */
  ghost function SignedBytes(n: int, k: nat): Bytes
    requires Words.Signed(n, k)
  {
    Words.Network(if n < 0 then n + Words.Radix(k) else n, k)
  }

  ghost function Int32Bytes(n: Int32): Bytes {
    SignedBounds(n);
    SignedBytes(n, 4)
  }

  ghost function Int64Bytes(n: Int64): Bytes {
    SignedBounds(n);
    SignedBytes(n, 8)
  }

  ghost function TextBytes(s: Text): Bytes { Words.Network(|s|, 4) + s }

  ghost function Int32s(s: seq<Int32>): (r: seq<Bytes>)
    ensures |r| == |s| && forall i | 0 <= i < |s| :: r[i] == Int32Bytes(s[i])
  {
    seq(|s|, i requires 0 <= i < |s| => Int32Bytes(s[i]))
  }

  ghost function Int64s(s: seq<Int64>): (r: seq<Bytes>)
    ensures |r| == |s| && forall i | 0 <= i < |s| :: r[i] == Int64Bytes(s[i])
  {
    seq(|s|, i requires 0 <= i < |s| => Int64Bytes(s[i]))
  }

  ghost function Strings(s: seq<Text>): (r: seq<Bytes>)
    ensures |r| == |s| && forall i | 0 <= i < |s| :: r[i] == TextBytes(s[i])
  {
    seq(|s|, i requires 0 <= i < |s| => TextBytes(s[i]))
  }

  /** The entries of a map under the given keys. */
  ghost function Pairs(m: map<Int32, Int64>, keys: seq<Int32>): (r: seq<Bytes>)
    requires forall k | k in keys :: k in m
    ensures |r| == |keys| && forall i | 0 <= i < |keys| :: r[i] == Int32Bytes(keys[i]) + Int64Bytes(m[keys[i]])
  {
    seq(|keys|, i requires 0 <= i < |keys| => Int32Bytes(keys[i]) + Int64Bytes(m[keys[i]]))
  }

  /** A container: its size and its elements. */
  ghost function Sequence(parts: seq<Bytes>): Bytes { Words.Network(|parts|, 4) + Flat(parts) }

  lemma {:induction false} ItemsAre(item: Ty, vs: seq<Val>, parts: seq<Bytes>)
    requires WellFormed(item) && |vs| == |parts|
    requires forall i | 0 <= i < |vs| :: HasType(item, vs[i]) && Encode(item, vs[i]) == parts[i]
    ensures EncodeItems(item, vs) == Flat(parts)
  {
    if vs != [] {
      var n := |vs| - 1;
      assert vs == vs[..n] + [vs[n]];
      ItemsInOrder(item, vs[..n], [vs[n]]);
      SingleItem(item, vs[n]);
      ItemsAre(item, vs[..n], parts[..n]);
    }
  }

  lemma ContainerBytes(kind: Kind, item: Ty, vs: seq<Val>, parts: seq<Bytes>)
    requires WellFormed(Container(kind, item)) && HasType(Container(kind, item), List(vs)) && |vs| == |parts|
    requires forall i | 0 <= i < |vs| :: WellFormed(item) && HasType(item, vs[i]) && Encode(item, vs[i]) == parts[i]
    ensures Encode(Container(kind, item), List(vs)) == Sequence(parts)
  {
    ItemsAre(item, vs, parts);
  }

  lemma VectorBytes(s: seq<Int64>)
    requires |s| < 0x8000_0000
    ensures HasType(Container(Vector, SInt(8)), List(Nums(s)))
    ensures Encode(Container(Vector, SInt(8)), List(Nums(s))) == Sequence(Int64s(s))
  {
    VectorTyped(s);
    ContainerBytes(Vector, SInt(8), Nums(s), Int64s(s));
  }

  lemma SetBytes(s: set<Int32>)
    requires |s| < 0x8000_0000
    ensures HasType(Container(OrderedSet, SInt(4)), List(Nums(Ascending(s))))
    ensures Encode(Container(OrderedSet, SInt(4)), List(Nums(Ascending(s)))) == Sequence(Int32s(Ascending(s)))
  {
    hide Ascending;
    SetTyped(s);
    ContainerBytes(OrderedSet, SInt(4), Nums(Ascending(s)), Int32s(Ascending(s)));
  }

  lemma EntryBytes(k: Int32, v: Int64)
    ensures WellFormed(Struct([SInt(4), SInt(8)])) && HasType(Struct([SInt(4), SInt(8)]), Entry(k, v))
    ensures Encode(Struct([SInt(4), SInt(8)]), Entry(k, v)) == Int32Bytes(k) + Int64Bytes(v)
  {
    EntryTyped(k, v);
    SignedBounds(k);
    SignedBounds(v);
    FieldsInOrder([SInt(4)], [Num(k)], [SInt(8)], [Num(v)]);
    SingleItem(SInt(4), Num(k));
    SingleItem(SInt(8), Num(v));
    assert [SInt(4)] + [SInt(8)] == [SInt(4), SInt(8)] && [Num(k)] + [Num(v)] == [Num(k), Num(v)];
  }

  lemma MapBytes(m: map<Int32, Int64>)
    requires |m| < 0x8000_0000
    ensures WellFormed(MapOf(SInt(4), SInt(8))) && HasType(MapOf(SInt(4), SInt(8)), List(Entries(m)))
    ensures Encode(MapOf(SInt(4), SInt(8)), List(Entries(m))) == Sequence(Pairs(m, Ascending(m.Keys)))
  {
    hide Ascending, Encode, HasType, Sequence;
    var keys := Ascending(m.Keys);
    EntriesTyped(m);
    forall i | 0 <= i < |keys|
      ensures HasType(Struct([SInt(4), SInt(8)]), Entries(m)[i])
      ensures Encode(Struct([SInt(4), SInt(8)]), Entries(m)[i]) == Pairs(m, keys)[i]
    {
      EntryBytes(keys[i], m[keys[i]]);
    }
    ContainerBytes(OrderedMap, Struct([SInt(4), SInt(8)]), Entries(m), Pairs(m, keys));
  }

  lemma StringsBytes(s: seq<Text>)
    requires |s| < 0x8000_0000
    ensures HasType(Container(Vector, Str), List(Texts(s)))
    ensures Encode(Container(Vector, Str), List(Texts(s))) == Sequence(Strings(s))
  {
    TextsTyped(s);
    ContainerBytes(Vector, Str, Texts(s), Strings(s));
  }

  lemma WordsBytes(m: TestMessage)
    ensures HasType(SInt(4), Num(m.value1)) && HasType(SInt(8), Num(m.value2)) && HasType(Str, Text(m.str))
    ensures Encode(SInt(4), Num(m.value1)) == Int32Bytes(m.value1)
    ensures Encode(SInt(8), Num(m.value2)) == Int64Bytes(m.value2)
    ensures Encode(Str, Text(m.str)) == TextBytes(m.str)
  {
    WordsTyped(m);
  }

  /** Seven fields, one after the other. */
  lemma SevenFields(t: seq<Ty>, v: seq<Val>)
    requires WellFormed(Struct(t)) && HasType(Struct(t), List(v)) && |t| == 7
    ensures forall i | 0 <= i < 7 :: WellFormed(t[i]) && HasType(t[i], v[i])
    ensures Encode(Struct(t), List(v)) ==
            Encode(t[0], v[0]) + (Encode(t[1], v[1]) + (Encode(t[2], v[2]) + (Encode(t[3], v[3]) +
            (Encode(t[4], v[4]) + (Encode(t[5], v[5]) + Encode(t[6], v[6]))))))
  {
    Serializes.FieldsEnds(t, v);
    assert Encode(Struct(t), List(v)) == Serializes.FieldsLeft(t, v, 0);
    hide Serializes.FieldsLeft, Encode, HasType, WellFormed;
    Serializes.FieldsStep(t, v, 0);
    Serializes.FieldsStep(t, v, 1);
    Serializes.FieldsStep(t, v, 2);
    Serializes.FieldsStep(t, v, 3);
    Serializes.FieldsStep(t, v, 4);
    Serializes.FieldsStep(t, v, 5);
    Serializes.FieldsStep(t, v, 6);
  }

  /** Every byte of a packed `TestMessage`: the fields in order, each container behind its size, keys ascending. */
  lemma TestMessageBytes(m: TestMessage)
    requires Sized(m)
    ensures Pack(m) ==
            Int32Bytes(m.value1) + (Int64Bytes(m.value2) + (TextBytes(m.str) +
            (Sequence(Int64s(m.values)) +
            (Sequence(Pairs(m.entries, Ascending(m.entries.Keys))) +
            (Sequence(Int32s(Ascending(m.members))) +
            Sequence(Strings(m.strValues)))))))
  {
    hide Encode, HasType, WellFormed, Nums, Texts, Entries, Ascending, Sequence, Int32s, Int64s, Strings, Pairs;
    TestTypeWellFormed();
    TestMessageTyped(m);
    SevenFields(TEST_TYPE.fields, AsValue(m).items);
    WordsBytes(m);
    VectorBytes(m.values);
    MapBytes(m.entries);
    SetBytes(m.members);
    StringsBytes(m.strValues);
  }

  /** Packing a `TestMessage` and converting it back gives a message with exactly its contents. */
  lemma TestMessageIdentity(creators: map<int, Option<Messages.Message>>, m: TestMessage, initial: Val)
    requires forall i | i in creators && creators[i].Some? :: WellFormed(creators[i].value.ty)
    requires IDENTITY in creators && creators[IDENTITY] == Some(Messages.Message(IDENTITY, TEST_TYPE, initial))
    requires Sized(m) && |Pack(m)| < WORD
    ensures Messages.Converted(creators, IDENTITY, Pack(m)) == Some(Messages.Message(IDENTITY, TEST_TYPE, AsValue(m)))
  {
    TestTypeWellFormed();
    TestMessageTyped(m);
    Messages.ConversionIdentity(creators, Messages.Message(IDENTITY, TEST_TYPE, AsValue(m)));
  }
}
