/**
 Machine words: their memory image on a little-endian host, two's complement, and the byte
 swaps behind `hostToNetwork*` and `networkToHost*`.
 */
module Words {
  import opened Types

  /** 256 to the power `k`: the number of values of a `k`-byte word. */
  function Radix(k: nat): (r: int)
    ensures r > 0
  {
    if k == 0 then 1 else 256 * Radix(k - 1)
  }

  /** The `k` bytes a little-endian host stores for the word `n`. */
  function Image(n: nat, k: nat): (b: Bytes)
    ensures |b| == k
  {
    if k == 0 then [] else [n % 256] + Image(n / 256, k - 1)
  }

  /** The word a little-endian host loads from bytes `b`. */
  function Load(b: Bytes): (n: nat)
    ensures n < Radix(|b|)
  {
    if b == [] then 0 else b[0] + 256 * Load(b[1..])
  }

  function Reverse(b: Bytes): (r: Bytes)
    ensures |r| == |b|
  {
    if b == [] then [] else Reverse(b[1..]) + [b[0]]
  }

  /** Network byte order: most significant byte first (Appendix B of RFC 791). */
  function Network(n: nat, k: nat): (b: Bytes)
    ensures |b| == k
  {
    Reverse(Image(n, k))
  }

  lemma {:induction false} LoadImage(n: nat, k: nat)
    requires n < Radix(k)
    ensures Load(Image(n, k)) == n
  {
    if k > 0 {
      assert n / 256 < Radix(k - 1);
      LoadImage(n / 256, k - 1);
      assert Image(n, k)[1..] == Image(n / 256, k - 1);
    }
  }

  lemma {:induction false} ImageLoad(b: Bytes)
    ensures Image(Load(b), |b|) == b
  {
    if b != [] {
      ImageLoad(b[1..]);
      assert Load(b) % 256 == b[0] && Load(b) / 256 == Load(b[1..]);
      assert b == [b[0]] + b[1..];
    }
  }

  lemma {:induction false} ReverseAppend(b: Bytes, x: UInt8)
    ensures Reverse(b + [x]) == [x] + Reverse(b)
  {
    if b == [] {
      assert b + [x] == [x];
    } else {
      ReverseAppend(b[1..], x);
      assert (b + [x])[1..] == b[1..] + [x];
      assert (b + [x])[0] == b[0];
    }
  }

  lemma {:induction false} ReverseTwice(b: Bytes)
    ensures Reverse(Reverse(b)) == b
  {
    if b != [] {
      ReverseTwice(b[1..]);
      ReverseAppend(Reverse(b[1..]), b[0]);
      assert b == [b[0]] + b[1..];
    }
  }

  /** A word written in network order is read back unchanged. */
  lemma NetworkRoundTrip(n: nat, k: nat)
    requires n < Radix(k)
    ensures Load(Reverse(Network(n, k))) == n
  {
    ReverseTwice(Image(n, k));
    LoadImage(n, k);
  }

  lemma DivideTwice(n: nat, r: int)
    requires r > 0
    ensures n / 256 / r == n / (256 * r)
  {
    var q := n / 256 / r;
    var m := n - 256 * (r * q);
    assert n / 256 == r * q + n / 256 % r;
    assert 256 * (r * q) == (256 * r) * q;
    assert 0 <= m < 256 * r && n == (256 * r) * q + m;
    Quotient(n, 256 * r, q, m);
  }

  lemma Multiple(d: int, x: int)
    requires d > 0
    ensures x >= 1 ==> d * x >= d
    ensures x <= -1 ==> d * x <= -d
  {
    if x >= 1 {
      assert d * x == d * (x - 1) + d;
    } else if x <= -1 {
      assert d * x == d * (x + 1) - d;
    }
  }

  lemma Quotient(n: int, d: int, q: int, m: int)
    requires d > 0 && n == d * q + m && 0 <= m < d
    ensures n / d == q && n % d == m
  {
    var p, r := n / d, n % d;
    assert n == d * p + r;
    assert d * (p - q) == m - r;
    Multiple(d, p - q);
  }

  lemma {:induction false} ByteAtDigit(n: nat, i: nat)
    ensures ByteAt(n, i) == n / Radix(i) % 256
  {
    if i > 0 {
      ByteAtDigit(n / 256, i - 1);
      DivideTwice(n, Radix(i - 1));
    }
  }

  /** Network order is big-endian: byte `i` is the digit of weight `256^(k - 1 - i)`. */
  lemma NetworkDigits(n: nat, k: nat, i: nat)
    requires i < k
    ensures Network(n, k)[i] == n / Radix(k - 1 - i) % 256
  {
    NetworkAt(n, k, i);
    ByteAtDigit(n, k - 1 - i);
  }

  // ---- two's complement -------------------------------------------------------------------

  predicate Unsigned(n: int, k: nat) { 0 <= n < Radix(k) }

  predicate Signed(n: int, k: nat) { -Radix(k) <= 2 * n < Radix(k) }

  /** The conversion from a signed to an unsigned word of `k` bytes. */
  function ToUnsigned(n: int, k: nat): (u: nat)
    requires Signed(n, k)
  {
    if n < 0 then n + Radix(k) else n
  }

  /** The conversion from an unsigned to a signed word of `k` bytes. */
  function ToSigned(u: nat, k: nat): int {
    if 2 * u < Radix(k) then u else u - Radix(k)
  }

  /** The two conversions are inverse bijections between the signed and the unsigned words. */
  lemma TwosComplement(k: nat)
    requires k > 0
    ensures forall n :: Signed(n, k) ==> Unsigned(ToUnsigned(n, k), k) && ToSigned(ToUnsigned(n, k), k) == n
    ensures forall u: nat :: Unsigned(u, k) ==> Signed(ToSigned(u, k), k) && ToUnsigned(ToSigned(u, k), k) == u
  {
    assert Radix(k) == 2 * (128 * Radix(k - 1));
  }

  /** The word differs from the number by a multiple of the radix, and its top bit is the sign. */
  lemma SignedCongruent(n: int, k: nat)
    requires k > 0 && Signed(n, k)
    ensures ToUnsigned(n, k) % Radix(k) == n % Radix(k)
    ensures 2 * ToUnsigned(n, k) >= Radix(k) <==> n < 0
  {
    assert Radix(k) == 256 * Radix(k - 1);
    if n < 0 {
      Quotient(n, Radix(k), -1, n + Radix(k));
      Quotient(n + Radix(k), Radix(k), 0, n + Radix(k));
    }
  }

  // ---- byte swaps -------------------------------------------------------------------------

  /** Byte `i` of a word, counted from the least significant: `(n >> 8 * i) & 0xff`. */
  function ByteAt(n: nat, i: nat): (b: UInt8) {
    if i == 0 then n % 256 else ByteAt(n / 256, i - 1)
  }

  /** A mask-and-shift by bytes picks one byte of the word; the parts of a swap do not overlap. */
  function ByteSwap16(n: nat): nat {
    ByteAt(n, 1) + ByteAt(n, 0) * 0x100
  }

  function ByteSwap32(n: nat): nat {
    ByteAt(n, 3) + ByteAt(n, 2) * 0x100 + ByteAt(n, 1) * 0x1_0000 + ByteAt(n, 0) * 0x100_0000
  }

  function ByteSwap64(n: nat): nat {
    ByteAt(n, 7) + ByteAt(n, 6) * 0x100 + ByteAt(n, 5) * 0x1_0000 + ByteAt(n, 4) * 0x100_0000 +
    ByteAt(n, 3) * 0x1_0000_0000 + ByteAt(n, 2) * 0x100_0000_0000 +
    ByteAt(n, 1) * 0x1_0000_0000_0000 + ByteAt(n, 0) * 0x100_0000_0000_0000
  }

  /** `hostToNetwork` and `networkToHost` on a little-endian host, for a word of `k` bytes. */
  function Swap(n: nat, k: nat): nat {
    match k
    case 2 => ByteSwap16(n)
    case 4 => ByteSwap32(n)
    case 8 => ByteSwap64(n)
    case _ => n
  }

  predicate WordSize(k: nat) { k == 1 || k == 2 || k == 4 || k == 8 }

  lemma {:induction false} ImageAt(n: nat, k: nat, i: nat)
    requires i < k
    ensures Image(n, k)[i] == ByteAt(n, i)
  {
    if i > 0 {
      ImageAt(n / 256, k - 1, i - 1);
    }
  }

  lemma LoadPair(b: Bytes)
    requires |b| >= 2
    ensures Load(b) == b[0] + b[1] * 0x100 + 0x1_0000 * Load(b[2..])
  {
    var t := b[1..];
    assert t[1..] == b[2..];
    assert Load(t) == t[0] + 256 * Load(t[1..]);
  }

  lemma LoadFour(b: Bytes)
    requires |b| >= 4
    ensures Load(b) == b[0] + b[1] * 0x100 + b[2] * 0x1_0000 + b[3] * 0x100_0000 + 0x1_0000_0000 * Load(b[4..])
  {
    LoadPair(b);
    LoadPair(b[2..]);
    assert b[2..][2..] == b[4..];
  }

  lemma {:induction false} ReverseAt(b: Bytes, i: nat)
    requires i < |b|
    ensures Reverse(b)[i] == b[|b| - 1 - i]
  {
    if i < |b| - 1 {
      ReverseAt(b[1..], i);
    }
  }

  lemma NetworkAt(n: nat, k: nat, i: nat)
    requires i < k
    ensures Network(n, k)[i] == ByteAt(n, k - 1 - i)
  {
    ReverseAt(Image(n, k), i);
    ImageAt(n, k, k - 1 - i);
  }

  /** Four consecutive bytes of a network-order word, as a number. */
  lemma LoadNetworkFour(n: nat, k: nat, j: nat)
    requires j + 4 <= k
    ensures Load(Network(n, k)[j..]) ==
            ByteAt(n, k - 1 - j) + ByteAt(n, k - 2 - j) * 0x100 + ByteAt(n, k - 3 - j) * 0x1_0000 +
            ByteAt(n, k - 4 - j) * 0x100_0000 + 0x1_0000_0000 * Load(Network(n, k)[j + 4..])
  {
    var r := Network(n, k)[j..];
    LoadFour(r);
    NetworkAt(n, k, j); NetworkAt(n, k, j + 1); NetworkAt(n, k, j + 2); NetworkAt(n, k, j + 3);
    assert r[4..] == Network(n, k)[j + 4..];
  }

  lemma SwapLoads2(n: nat)
    ensures ByteSwap16(n) == Load(Network(n, 2))
  {
    LoadPair(Network(n, 2));
    NetworkAt(n, 2, 0);
    NetworkAt(n, 2, 1);
  }

  lemma SwapLoads4(n: nat)
    ensures ByteSwap32(n) == Load(Network(n, 4))
  {
    LoadNetworkFour(n, 4, 0);
    assert Network(n, 4)[0..] == Network(n, 4);
  }

  lemma SwapLoads8(n: nat)
    ensures ByteSwap64(n) == Load(Network(n, 8))
  {
    LoadNetworkFour(n, 8, 0);
    LoadNetworkFour(n, 8, 4);
    assert Network(n, 8)[0..] == Network(n, 8);
  }

  /** The mask-and-shift formulas compute the word whose memory image is reversed. */
  lemma SwapLoads(n: nat, k: nat)
    requires WordSize(k)
    requires n < Radix(k)
    ensures Swap(n, k) == Load(Network(n, k))
  {
    match k
    case 2 => SwapLoads2(n);
    case 4 => SwapLoads4(n);
    case 8 => SwapLoads8(n);
    case _ => LoadImage(n, 1);
  }

  /** Storing a byte-swapped word puts its bytes in network order. */
  lemma SwapStoresNetworkOrder(n: nat, k: nat)
    requires WordSize(k)
    requires n < Radix(k)
    ensures Swap(n, k) < Radix(k)
    ensures Image(Swap(n, k), k) == Network(n, k)
  {
    SwapLoads(n, k);
    ImageLoad(Network(n, k));
  }

  /** `networkToHost` undoes `hostToNetwork`. */
  lemma SwapTwice(n: nat, k: nat)
    requires WordSize(k)
    requires n < Radix(k)
    ensures Swap(Swap(n, k), k) == n
  {
    SwapStoresNetworkOrder(n, k);
    SwapLoads(Swap(n, k), k);
    NetworkRoundTrip(n, k);
  }

  // ---- the macros, on bit-vectors ---------------------------------------------------------

  function BYTESWAP16(a: bv16): bv16 {
    ((a & 0xff00) >> 8) | ((a & 0x00ff) << 8)
  }

  function BYTESWAP32(a: bv32): bv32 {
    ((a & 0xff00_0000) >> 24) | ((a & 0x00ff_0000) >> 8) |
    ((a & 0x0000_ff00) << 8) | ((a & 0x0000_00ff) << 24)
  }

  function BYTESWAP64(a: bv64): bv64 {
    ((a & 0xff00_0000_0000_0000) >> 56) | ((a & 0x00ff_0000_0000_0000) >> 40) |
    (((a & 0x0000_ff00_0000_0000) >> 24) | ((a & 0x0000_00ff_0000_0000) >> 8) |
     ((a & 0x0000_0000_ff00_0000) << 8) | ((a & 0x0000_0000_00ff_0000) << 24)) |
    ((a & 0x0000_0000_0000_ff00) << 40) | ((a & 0x0000_0000_0000_00ff) << 56)
  }

  /** Each macro mirrors the bytes of its operand, so applying it twice changes nothing. */
  lemma MacrosMirrorBytes(a: bv16, b: bv32, c: bv64, i: bv7)
    ensures i < 2 ==> (BYTESWAP16(a) >> (8 * i)) & 0xff == (a >> (8 - 8 * i)) & 0xff
    ensures i < 4 ==> (BYTESWAP32(b) >> (8 * i)) & 0xff == (b >> (24 - 8 * i)) & 0xff
    ensures i < 8 ==> (BYTESWAP64(c) >> (8 * i)) & 0xff == (c >> (56 - 8 * i)) & 0xff
    ensures BYTESWAP16(BYTESWAP16(a)) == a
    ensures BYTESWAP32(BYTESWAP32(b)) == b
    ensures BYTESWAP64(BYTESWAP64(c)) == c
  {
  }
}
