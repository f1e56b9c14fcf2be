/**
 The universe of types that `Serialize` is overloaded on, their values, and the order in which
 `std::map` and `std::set` keep their keys.
 */
module Values {
  import opened Types
  import opened Words

  /** A `std::vector`, or the ordered containers. */
  datatype Kind = Vector | OrderedSet | OrderedMap

  datatype Ty =
    | UInt(size: nat)
    | SInt(size: nat)
    | Str
    | Struct(fields: seq<Ty>)
    | Container(kind: Kind, item: Ty)

  /** Struct values, map entries and containers are all lists. */
  datatype Val =
    | Num(n: int)
    | Text(s: Bytes)
    | List(items: seq<Val>)

  /** `std::map<key, val>`: a container of two-field entries. */
  function MapOf(key: Ty, val: Ty): Ty { Container(OrderedMap, Struct([key, val])) }

  /** The types the source instantiates: words of 1, 2, 4 or 8 bytes, and maps of entries. */
  predicate WellFormed(t: Ty) {
    match t
    case UInt(k) => WordSize(k)
    case SInt(k) => WordSize(k)
    case Str => true
    case Struct(fs) => forall f | f in fs :: WellFormed(f)
    case Container(kind, item) =>
      WellFormed(item) && (kind == OrderedMap ==> item.Struct? && |item.fields| == 2)
  }

  // ---- the order of keys ------------------------------------------------------------------

  function Rank(v: Val): nat { match v case Num(_) => 0 case Text(_) => 1 case List(_) => 2 }

  /** `operator<` on two keys of one type; on lists it is lexicographic. */
  predicate Less(a: Val, b: Val)
    decreases a, 1
  {
    match (a, b)
    case (Num(m), Num(n)) => m < n
    case (Text(s), Text(t)) => LessBytes(s, t)
    case (List(s), List(t)) => LessItems(s, t)
    case _ => Rank(a) < Rank(b)
  }

  predicate LessItems(a: seq<Val>, b: seq<Val>)
    decreases a, 0
  {
    b != [] && (a == [] || Less(a[0], b[0]) || (a[0] == b[0] && LessItems(a[1..], b[1..])))
  }

  /** Strings compare byte by byte, bytes as unsigned numbers. */
  predicate LessBytes(a: Bytes, b: Bytes) {
    b != [] && (a == [] || a[0] < b[0] || (a[0] == b[0] && LessBytes(a[1..], b[1..])))
  }

  lemma {:induction false} LessBytesTotal(a: Bytes, b: Bytes)
    ensures LessBytes(a, b) || LessBytes(b, a) || a == b
    ensures !(LessBytes(a, b) && LessBytes(b, a))
    ensures !LessBytes(a, a)
  {
    if a != [] {
      LessBytesTotal(a[1..], a[1..]);
      if b != [] {
        LessBytesTotal(a[1..], b[1..]);
        if a[0] == b[0] && a[1..] == b[1..] {
          assert a == [a[0]] + a[1..] == b;
        }
      }
    }
  }

  lemma {:induction false} LessBytesTransitive(a: Bytes, b: Bytes, c: Bytes)
    requires LessBytes(a, b) && LessBytes(b, c)
    ensures LessBytes(a, c)
  {
    if a != [] && a[0] == b[0] == c[0] {
      LessBytesTransitive(a[1..], b[1..], c[1..]);
    }
  }

  /** Any two keys are comparable in exactly one way, however deeply they are nested. */
  lemma {:induction false} LessTotal(a: Val, b: Val)
    ensures Less(a, b) || Less(b, a) || a == b
    ensures !(Less(a, b) && Less(b, a))
    ensures a == b ==> !Less(a, b)
    decreases a, 1
  {
    match (a, b)
    case (Text(s), Text(t)) => LessBytesTotal(s, t);
    case (List(s), List(t)) => LessItemsTotal(s, t);
    case _ =>
  }

  lemma {:induction false} LessItemsTotal(a: seq<Val>, b: seq<Val>)
    ensures LessItems(a, b) || LessItems(b, a) || a == b
    ensures !(LessItems(a, b) && LessItems(b, a))
    ensures a == b ==> !LessItems(a, b)
    decreases a, 0
  {
    if a != [] && b != [] {
      LessTotal(a[0], b[0]);
      LessItemsTotal(a[1..], b[1..]);
      if a[0] == b[0] && a[1..] == b[1..] {
        assert a == [a[0]] + a[1..] == b;
      }
    }
  }

  lemma {:induction false} LessTransitive(a: Val, b: Val, c: Val)
    requires Less(a, b) && Less(b, c)
    ensures Less(a, c)
    decreases a, 1
  {
    match (a, b, c)
    case (Text(r), Text(s), Text(t)) => LessBytesTransitive(r, s, t);
    case (List(r), List(s), List(t)) => LessItemsTransitive(r, s, t);
    case _ =>
  }

  lemma {:induction false} LessItemsTransitive(a: seq<Val>, b: seq<Val>, c: seq<Val>)
    requires LessItems(a, b) && LessItems(b, c)
    ensures LessItems(a, c)
    decreases a, 0
  {
    if a != [] {
      if Less(a[0], b[0]) && Less(b[0], c[0]) {
        LessTransitive(a[0], b[0], c[0]);
      } else if a[0] == b[0] == c[0] && !Less(a[0], b[0]) && !Less(b[0], c[0]) {
        LessItemsTransitive(a[1..], b[1..], c[1..]);
      }
    }
  }

  /** Up to `i` the two agree; there the first one ends, or has the smaller byte. */
  predicate SmallerAt(a: Bytes, b: Bytes, i: nat) {
    i <= |a| && i < |b| && a[..i] == b[..i] && (i == |a| || a[i] < b[i])
  }

  lemma {:induction false} LessBytesIff(a: Bytes, b: Bytes)
    ensures LessBytes(a, b) <==> exists i: nat :: SmallerAt(a, b, i)
  {
    if a == [] || b == [] || a[0] != b[0] {
      assert b != [] && (a == [] || a[0] < b[0]) ==> SmallerAt(a, b, 0);
      assert forall i: nat | SmallerAt(a, b, i) && i > 0 :: a[..i][0] == b[..i][0];
    } else {
      LessBytesIff(a[1..], b[1..]);
      if LessBytes(a[1..], b[1..]) {
        var i: nat :| SmallerAt(a[1..], b[1..], i);
        assert a[..i + 1] == [a[0]] + a[1..][..i] && b[..i + 1] == [b[0]] + b[1..][..i];
        assert SmallerAt(a, b, i + 1);
      } else if i: nat :| SmallerAt(a, b, i) {
        assert a[1..][..i - 1] == a[..i][1..] && b[1..][..i - 1] == b[..i][1..];
        assert SmallerAt(a[1..], b[1..], i - 1);
      }
    }
  }

  predicate ItemsSmallerAt(a: seq<Val>, b: seq<Val>, i: nat) {
    i <= |a| && i < |b| && a[..i] == b[..i] && (i == |a| || Less(a[i], b[i]))
  }

  lemma {:induction false} LessItemsIff(a: seq<Val>, b: seq<Val>)
    ensures LessItems(a, b) <==> exists i: nat :: ItemsSmallerAt(a, b, i)
  {
    if a == [] || b == [] || a[0] != b[0] {
      assert b != [] && (a == [] || Less(a[0], b[0])) ==> ItemsSmallerAt(a, b, 0);
      assert forall i: nat | ItemsSmallerAt(a, b, i) && i > 0 :: a[..i][0] == b[..i][0];
    } else {
      LessTotal(a[0], b[0]);
      LessItemsIff(a[1..], b[1..]);
      if LessItems(a[1..], b[1..]) {
        var i: nat :| ItemsSmallerAt(a[1..], b[1..], i);
        assert a[..i + 1] == [a[0]] + a[1..][..i] && b[..i + 1] == [b[0]] + b[1..][..i];
        assert ItemsSmallerAt(a, b, i + 1);
      } else if i: nat :| ItemsSmallerAt(a, b, i) {
        assert a[1..][..i - 1] == a[..i][1..] && b[1..][..i - 1] == b[..i][1..];
        assert ItemsSmallerAt(a[1..], b[1..], i - 1);
      }
    }
  }

  /** Numbers compare as numbers; strings and lists as `std::lexicographical_compare` does, at the first difference. */
  lemma LessIff(m: int, n: int, s: Bytes, t: Bytes, a: seq<Val>, b: seq<Val>)
    ensures Less(Num(m), Num(n)) <==> m < n
    ensures Less(Text(s), Text(t)) <==> exists i: nat :: SmallerAt(s, t, i)
    ensures Less(List(a), List(b)) <==> exists i: nat :: ItemsSmallerAt(a, b, i)
  {
    LessBytesIff(s, t);
    LessItemsIff(a, b);
  }

  // ---- typing -----------------------------------------------------------------------------

  /** What a container is ordered by: a set's elements, the first field of a map's entries. */
  function Key(kind: Kind, item: Val): Val {
    if kind == OrderedMap && item.List? && item.items != [] then item.items[0] else item
  }

  /** The contents of an ordered container, in the order in which it is iterated. */
  predicate InOrder(kind: Kind, items: seq<Val>) {
    kind != Vector ==> forall i, j | 0 <= i < j < |items| :: Less(Key(kind, items[i]), Key(kind, items[j]))
  }

  /** `v` is a value of type `t`, every length of which fits int32. */
  predicate HasType(t: Ty, v: Val)
    decreases v
  {
    match t
    case UInt(k) => v.Num? && Unsigned(v.n, k)
    case SInt(k) => v.Num? && Signed(v.n, k)
    case Str => v.Text? && |v.s| < 0x8000_0000
    case Struct(fs) =>
      v.List? && |v.items| == |fs| && forall i | 0 <= i < |fs| :: HasType(fs[i], v.items[i])
    case Container(kind, item) =>
      v.List? && |v.items| < 0x8000_0000 && InOrder(kind, v.items) &&
      forall x | x in v.items :: HasType(item, x)
  }

  // ---- insertion --------------------------------------------------------------------------

  /** `set.insert(x)`, or `map[key] = value` for the entry `x`, on a container's contents. */
  function Insert(kind: Kind, s: seq<Val>, x: Val): seq<Val> {
    if s == [] then [x]
    else if Less(Key(kind, x), Key(kind, s[0])) then [x] + s
    else if Key(kind, x) == Key(kind, s[0]) then [x] + s[1..]
    else [s[0]] + Insert(kind, s[1..], x)
  }

  /** A container after the items `s` were pushed or inserted into it one after the other. */
  function Rebuild(kind: Kind, s: seq<Val>): seq<Val> {
    if kind == Vector then s
    else if s == [] then []
    else Insert(kind, Rebuild(kind, s[..|s| - 1]), s[|s| - 1])
  }

  /** Inserting above every key appends. */
  lemma {:induction false} InsertAtEnd(kind: Kind, s: seq<Val>, x: Val)
    requires forall i | 0 <= i < |s| :: Less(Key(kind, s[i]), Key(kind, x))
    ensures Insert(kind, s, x) == s + [x]
  {
    if s != [] {
      LessTotal(Key(kind, s[0]), Key(kind, x));
      forall i | 0 <= i < |s[1..]| ensures Less(Key(kind, s[1..][i]), Key(kind, x)) {
        assert s[1..][i] == s[i + 1];
      }
      InsertAtEnd(kind, s[1..], x);
      assert s + [x] == [s[0]] + (s[1..] + [x]);
    }
  }

  /** Re-inserting the items of an ordered container in order rebuilds it, prefix by prefix. */
  lemma {:induction false} RebuildInOrder(kind: Kind, s: seq<Val>)
    requires InOrder(kind, s)
    ensures Rebuild(kind, s) == s
  {
    if kind != Vector && s != [] {
      var p := s[..|s| - 1];
      RebuildInOrder(kind, p);
      InsertAtEnd(kind, p, s[|s| - 1]);
      assert s == p + [s[|s| - 1]];
    }
  }

  /** The entry stored under key `k`, if any. */
  function Find(kind: Kind, s: seq<Val>, k: Val): Option<Val> {
    if s == [] then None else if Key(kind, s[0]) == k then Some(s[0]) else Find(kind, s[1..], k)
  }

  lemma {:induction false} InsertMembers(kind: Kind, s: seq<Val>, x: Val)
    ensures forall y | y in Insert(kind, s, x) :: y == x || y in s
    ensures |Insert(kind, s, x)| <= |s| + 1
  {
    if s != [] {
      InsertMembers(kind, s[1..], x);
    }
  }

  lemma InOrderTail(kind: Kind, s: seq<Val>)
    requires s != [] && InOrder(kind, s)
    ensures InOrder(kind, s[1..])
    ensures kind != Vector ==> forall y | y in s[1..] :: Less(Key(kind, s[0]), Key(kind, y))
  {
  }

  lemma InOrderCons(kind: Kind, x: Val, s: seq<Val>)
    requires InOrder(kind, s)
    requires kind != Vector ==> forall y | y in s :: Less(Key(kind, x), Key(kind, y))
    ensures InOrder(kind, [x] + s)
  {
  }

  /** `Insert` keeps a container ordered. */
  lemma {:induction false} InsertKeepsOrder(kind: Kind, s: seq<Val>, x: Val)
    requires InOrder(kind, s)
    requires kind != Vector
    ensures InOrder(kind, Insert(kind, s, x))
  {
    if s != [] {
      InOrderTail(kind, s);
      LessTotal(Key(kind, x), Key(kind, s[0]));
      if Less(Key(kind, x), Key(kind, s[0])) {
        forall y | y in s ensures Less(Key(kind, x), Key(kind, y)) {
          if y in s[1..] {
            LessTransitive(Key(kind, x), Key(kind, s[0]), Key(kind, y));
          }
        }
        InOrderCons(kind, x, s);
      } else if Key(kind, x) == Key(kind, s[0]) {
        InOrderCons(kind, x, s[1..]);
      } else {
        InsertKeepsOrder(kind, s[1..], x);
        InsertMembers(kind, s[1..], x);
        InOrderCons(kind, s[0], Insert(kind, s[1..], x));
      }
    }
  }

  /** On an ordered container `Insert` updates exactly the entry under the key of `x`. */
  lemma {:induction false} InsertUpdates(kind: Kind, s: seq<Val>, x: Val, k: Val)
    requires kind != Vector && InOrder(kind, s)
    ensures Find(kind, Insert(kind, s, x), k) == if k == Key(kind, x) then Some(x) else Find(kind, s, k)
  {
    if s != [] {
      InOrderTail(kind, s);
      if Less(Key(kind, x), Key(kind, s[0])) {
        assert ([x] + s)[1..] == s;
      } else if Key(kind, x) == Key(kind, s[0]) {
        assert ([x] + s[1..])[1..] == s[1..];
      } else {
        InsertUpdates(kind, s[1..], x, k);
        assert ([s[0]] + Insert(kind, s[1..], x))[1..] == Insert(kind, s[1..], x);
      }
    }
  }
}
