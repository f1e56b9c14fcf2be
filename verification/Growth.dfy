/** The capacity arithmetic of `ensure`, in wrapping 32-bit words. */
module Growth {
  import opened Types

  function Pow2(k: nat): (r: nat)
    ensures r > 0
  {
    if k == 0 then 1 else 2 * Pow2(k - 1)
  }

  /** `(c << 1) + 1` on a uint32. */
  function Doubled(c: UInt32): UInt32 { (2 * c + 1) % WORD }

  /** The capacity after `k` rounds of the loop. */
  function Rounds(c: UInt32, k: nat): UInt32 {
    if k == 0 then c else Doubled(Rounds(c, k - 1))
  }

  lemma {:induction false} Pow2Splits(i: nat, j: nat)
    ensures Pow2(i + j) == Pow2(i) * Pow2(j)
  {
    if i > 0 {
      Pow2Splits(i - 1, j);
      assert Pow2(i) * Pow2(j) == 2 * (Pow2(i - 1) * Pow2(j));
    }
  }

  lemma Pow2Word()
    ensures Pow2(32) == WORD
  {
    Pow2Splits(16, 16);
    Pow2Splits(8, 8);
    assert Pow2(8) == 256;
  }

  /** After `k` rounds the low `k` bits are all ones, wrap-around or not. */
  lemma {:induction false} LowBitsAreOnes(c: UInt32, k: nat) returns (q: nat)
    requires k <= 32
    ensures Rounds(c, k) + 1 == q * Pow2(k)
  {
    if k == 0 {
      q := c + 1;
    } else {
      var p := LowBitsAreOnes(c, k - 1);
      Pow2Word();
      Pow2Splits(32 - k, k);
      q := Wrap(Rounds(c, k - 1), p, Pow2(k - 1), Pow2(32 - k));
    }
  }

  /** One round keeps the low bits: `v + 1` doubles, less the word if it wraps. */
  lemma Wrap(v: UInt32, p: nat, a: nat, c: nat) returns (q: nat)
    requires v + 1 == p * a && c * (2 * a) == WORD && a > 0
    ensures Doubled(v) + 1 == q * (2 * a)
  {
    assert 2 * (v + 1) == p * (2 * a);
    if 2 * v + 1 < WORD {
      q := p;
    } else {
      Subtract(p, c, 2 * a);
      q := p - c;
    }
  }

  lemma Subtract(p: nat, c: nat, b: nat)
    requires p * b > c * b && b > 0
    ensures p > c && (p - c) * b == p * b - c * b
  {
    var d := p - c;
    assert d * b == p * b - c * b;
    assert d * b > 0 ==> d > 0;
  }

  /** So 32 rounds reach the largest uint32 from any capacity. */
  lemma ThirtyTwoRounds(c: UInt32)
    ensures Rounds(c, 32) == WORD - 1
  {
    var q := LowBitsAreOnes(c, 32);
    Pow2Word();
    assert q * WORD <= WORD ==> q <= 1;
  }

  /** The number of rounds the loop makes from round `k` on: it stops at the first that suffices. */
  function Remaining(c: UInt32, size: UInt32, k: nat): (n: nat)
    requires k <= 32
    ensures k + n <= 32 && Rounds(c, k + n) >= size
    ensures forall i | k <= i < k + n :: Rounds(c, i) < size
    decreases 32 - k
  {
    ThirtyTwoRounds(c);
    if Rounds(c, k) >= size then 0 else 1 + Remaining(c, size, k + 1)
  }

  /** The capacity `ensure(size)` ends with. */
  function Grown(c: UInt32, size: UInt32): (r: UInt32)
    ensures r >= size
    ensures c >= size ==> r == c
    ensures c < size ==> r > c
  {
    Rounds(c, Remaining(c, size, 0))
  }

  /** `Buffer::ensure` stops after at most 32 rounds, whatever the capacity and the request. */
  method GrowCapacity(capacity: UInt32, size: UInt32) returns (newCapacity: UInt32)
    ensures newCapacity == Grown(capacity, size)
  {
    newCapacity := capacity;
    ghost var k, n := 0, Remaining(capacity, size, 0);
    while newCapacity < size
      invariant 0 <= k <= n && newCapacity == Rounds(capacity, k)
      decreases n - k
    {
      newCapacity := Double(newCapacity);
      k := k + 1;
    }
  }

  /** `(c << 1) + 1` in a uint32. */
  method Double(c: UInt32) returns (d: UInt32)
    ensures d == Doubled(c)
  {
    d := (c * 2 + 1) % WORD;
  }

  /** `StackBuffer::ensure` makes the first round before it tests; it ends with the same capacity. */
  method GrowStackCapacity(capacity: UInt32, size: UInt32) returns (newCapacity: UInt32)
    requires capacity < size
    ensures newCapacity == Grown(capacity, size)
  {
    newCapacity := Double(capacity);
    ghost var k, n := 1, Remaining(capacity, size, 0);
    assert Rounds(capacity, 0) == capacity;
    while newCapacity < size
      invariant 1 <= k <= n && newCapacity == Rounds(capacity, k)
      decreases n - k
    {
      newCapacity := Double(newCapacity);
      k := k + 1;
    }
  }

  /** A round doubles, and falls short of that by a whole word exactly when it starts at 2^31 or above. */
  lemma DoubledExactly(v: UInt32)
    ensures Doubled(v) == 2 * v + 1 - if v < 0x8000_0000 then 0 else WORD
  {
  }

  /** None of the first `k` rounds wraps. */
  ghost predicate NoWrap(c: UInt32, k: nat) {
    forall i | 0 <= i < k :: Rounds(c, i) < 0x8000_0000
  }

  /** The rounds reach `(c + 1) * 2^k - 1` exactly as long as none of them wraps, and less otherwise. */
  lemma {:induction false} RoundsExact(c: UInt32, k: nat)
    ensures Rounds(c, k) + 1 <= (c + 1) * Pow2(k)
    ensures Rounds(c, k) + 1 == (c + 1) * Pow2(k) <==> NoWrap(c, k)
  {
    if k > 0 {
      RoundsExact(c, k - 1);
      Twice(c + 1, k);
      DoubledExactly(Rounds(c, k - 1));
    }
  }

  lemma Twice(x: nat, k: nat)
    requires k > 0
    ensures x * Pow2(k) == 2 * (x * Pow2(k - 1))
  {
    var p := Pow2(k - 1);
    assert x * (2 * p) == 2 * (x * p);
  }

  /**
   A growth stays below twice the request, whatever wraps; and it at least doubles the capacity
   exactly when it starts below 2^31, whatever wraps later.
   */
  lemma GrownBounds(c: UInt32, size: UInt32)
    requires c < size
    ensures Grown(c, size) < 2 * size
    ensures 2 * c + 1 <= Grown(c, size) <==> c < 0x8000_0000
  {
    var n := Remaining(c, size, 0);
    assert Rounds(c, 0) == c;
    assert Rounds(c, n - 1) < size;
    DoubledExactly(Rounds(c, n - 1));
    DoubledExactly(c);
    assert Rounds(c, 1) == Doubled(c);
    if n > 1 {
      assert Rounds(c, 1) < size;
    }
  }

  /**
   The new capacity is `(c + 1) * 2^n - 1` for the number `n` of rounds made exactly when none of
   them wraps, as none does for a request up to 2^31; and then no smaller `n` would have sufficed.
   */
  lemma GrownExactly(c: UInt32, size: UInt32)
    ensures var n := Remaining(c, size, 0); Grown(c, size) + 1 == (c + 1) * Pow2(n) <==> NoWrap(c, n)
    ensures size <= 0x8000_0000 ==> NoWrap(c, Remaining(c, size, 0))
    ensures NoWrap(c, Remaining(c, size, 0)) ==>
              forall k | 0 <= k < Remaining(c, size, 0) :: (c + 1) * Pow2(k) <= size
  {
    var n := Remaining(c, size, 0);
    RoundsExact(c, n);
    if NoWrap(c, n) {
      forall k | 0 <= k < n ensures (c + 1) * Pow2(k) <= size {
        assert Rounds(c, k) < size;
        RoundsExact(c, k);
      }
    }
  }

  // ---- the cost of growing ----------------------------------------------------------------

  /** One call of `ensure(size)` on a buffer that holds `used` bytes. */
  datatype Request = Request(used: UInt32, size: UInt32)

  /** A buffer's capacity, and the bytes its growths have moved with `memcpy`. */
  datatype Account = Account(capacity: UInt32, moved: nat)

  function Charge(a: Account, r: Request): Account {
    if a.capacity >= r.size then a else Account(Grown(a.capacity, r.size), a.moved + r.used)
  }

  function ChargeAll(a: Account, rs: seq<Request>): Account {
    if rs == [] then a else Charge(ChargeAll(a, rs[..|rs| - 1]), rs[|rs| - 1])
  }

  function Largest(rs: seq<Request>): nat {
    if rs == [] then 0 else
    var m := Largest(rs[..|rs| - 1]);
    if rs[|rs| - 1].size > m then rs[|rs| - 1].size else m
  }

  /** Each request came from a buffer that held no more than its capacity. */
  ghost predicate Fits(a: Account, rs: seq<Request>) {
    rs == [] || (Fits(a, rs[..|rs| - 1]) && rs[|rs| - 1].used <= ChargeAll(a, rs[..|rs| - 1]).capacity)
  }

  lemma OneMore(a: Account, rs: seq<Request>, r: Request)
    requires Fits(a, rs) && r.used <= ChargeAll(a, rs).capacity
    ensures Fits(a, rs + [r]) && ChargeAll(a, rs + [r]) == Charge(ChargeAll(a, rs), r)
  {
    assert (rs + [r])[..|rs|] == rs;
  }

  /** Each request that grows finds a capacity below 2^31: that of any growth none of whose rounds wraps. */
  ghost predicate GrowsBelow(a: Account, rs: seq<Request>) {
    rs == [] ||
    (GrowsBelow(a, rs[..|rs| - 1]) &&
     var c := ChargeAll(a, rs[..|rs| - 1]).capacity;
     c < rs[|rs| - 1].size ==> c < 0x8000_0000)
  }

  /** None of the growths wraps in any of its rounds. */
  ghost predicate NeverWraps(a: Account, rs: seq<Request>) {
    rs == [] ||
    (NeverWraps(a, rs[..|rs| - 1]) &&
     var c := ChargeAll(a, rs[..|rs| - 1]).capacity;
     NoWrap(c, Remaining(c, rs[|rs| - 1].size, 0)))
  }

  lemma {:induction false} NeverWrapsGrowsBelow(a: Account, rs: seq<Request>)
    requires NeverWraps(a, rs)
    ensures GrowsBelow(a, rs)
  {
    if rs != [] {
      NeverWrapsGrowsBelow(a, rs[..|rs| - 1]);
      var c := ChargeAll(a, rs[..|rs| - 1]).capacity;
      assert Rounds(c, 0) == c;
    }
  }

  /** Whatever is requested and whatever wraps: a capacity that grew is below twice the largest request. */
  lemma {:induction false} CapacityBelowTwiceLargest(c: UInt32, rs: seq<Request>)
    ensures var a := ChargeAll(Account(c, 0), rs); a.capacity == c || a.capacity < 2 * Largest(rs)
  {
    if rs != [] {
      var p, r := rs[..|rs| - 1], rs[|rs| - 1];
      CapacityBelowTwiceLargest(c, p);
      var a := ChargeAll(Account(c, 0), p);
      if a.capacity < r.size {
        GrownBounds(a.capacity, r.size);
      }
    }
  }

  /**
   Amortised growth: however many requests there are and however large, if every growth starts below
   2^31, then all the bytes moved together are fewer than the final capacity, hence fewer than twice
   the largest request.
   */
  lemma {:induction false} AmortisedGrowth(c: UInt32, rs: seq<Request>)
    requires Fits(Account(c, 0), rs) && GrowsBelow(Account(c, 0), rs)
    ensures var a := ChargeAll(Account(c, 0), rs);
            a.moved + c <= a.capacity && (a.moved > 0 ==> a.moved < a.capacity < 2 * Largest(rs))
  {
    CapacityBelowTwiceLargest(c, rs);
    if rs != [] {
      var p, r := rs[..|rs| - 1], rs[|rs| - 1];
      AmortisedGrowth(c, p);
      var a := ChargeAll(Account(c, 0), p);
      if a.capacity < r.size {
        GrownBounds(a.capacity, r.size);
      }
    }
  }

  /**
   The condition is exact for each growth: it leaves room for the bytes it moved, and for those that
   earlier growths moved, however many they are, exactly when it starts below 2^31.
   */
  lemma GrowthPaysIff(c: UInt32, size: UInt32)
    requires c < size
    ensures (forall a: Account, used: UInt32 | a.capacity == c && used <= c && a.moved <= c ::
               var b := Charge(a, Request(used, size)); b.moved <= b.capacity) <==>
            c < 0x8000_0000
  {
    GrownBounds(c, size);
    var a := Account(c, c);
    if c >= 0x8000_0000 {
      assert Charge(a, Request(c, size)).moved == 2 * c;
    }
  }

  /** Growths that start above 2^31 move more than any buffer holds. */
  lemma AmortisationFails()
    ensures var rs := [Request(0xB000_0000, 0xB000_0001), Request(0xC000_0003, 0xC000_0004)];
            var a := ChargeAll(Account(0xB000_0000, 0), rs);
            Fits(Account(0xB000_0000, 0), rs) && a.moved == 0x1_7000_0003 && a.moved > a.capacity
  {
    var r, q := Request(0xB000_0000, 0xB000_0001), Request(0xC000_0003, 0xC000_0004);
    var c: UInt32 := 0xB000_0000;
    assert Rounds(c, 0) == c;
    assert Rounds(c, 1) == 0x6000_0001;
    assert Rounds(c, 2) == Doubled(Rounds(c, 1)) == 0xC000_0003;
    var n := Remaining(c, r.size, 0);
    assert n == 2;
    assert [r, q][..1] == [r] && [r][..0] == [];
    assert ChargeAll(Account(c, 0), [r]) == Account(0xC000_0003, c);
  }
}
