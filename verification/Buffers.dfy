/** `Buffer` and `StackBuffer`: growable byte buffers with writes and reads at a position. */
module Buffers {
  import opened Types
  import opened Growth

  const INITIAL_SIZE: UInt32 := 16

  /** Bytes `d` laid over bytes `b` from position `pos` on. */
  function Overlay(b: Bytes, pos: nat, d: Bytes): (r: Bytes)
    requires pos <= |b|
  {
    b[..pos] + d + if pos + |d| < |b| then b[pos + |d|..] else []
  }

  /** `write(pos, data, size)` of the two classes agrees exactly when it reaches the end. */
  lemma WritesAgree(b: Bytes, pos: nat, d: Bytes)
    requires pos <= |b|
    ensures b[..pos] + d == Overlay(b, pos, d) <==> pos + |d| >= |b|
  {
    if pos + |d| < |b| {
      assert |Overlay(b, pos, d)| == |b|;
    }
  }

  lemma OverlayAtEnd(b: Bytes, d: Bytes)
    ensures Overlay(b, |b|, d) == b + d
  {
  }

  /** Whatever bytes were reserved under the data, laying the data over them hides them. */
  lemma OverlayReserved(b: Bytes, c: Bytes, pos: nat, d: Bytes)
    requires pos <= |b| && b <= c && |c| == if pos + |d| > |b| then pos + |d| else |b|
    ensures Overlay(c, pos, d) == Overlay(b, pos, d)
  {
  }

  class Buffer {
    var size: UInt32
    var capacity: UInt32
    var buff: array<UInt8>
    /** The capacity it was made with, every call of `ensure` since, and the bytes they moved. */
    ghost var initial: UInt32
    ghost var requests: seq<Request>
    ghost var moved: nat

    ghost predicate Valid()
      reads this
    {
      size <= capacity && buff.Length == capacity
    }

    /** The books of the growths so far balance. */
    ghost predicate Audited()
      reads this
    {
      Fits(Account(initial, 0), requests) && Account(capacity, moved) == ChargeAll(Account(initial, 0), requests)
    }

    ghost function Contents(): Bytes
      requires Valid()
      reads this, buff
    {
      buff[..size]
    }

    constructor (size: UInt32)
      ensures Valid() && Audited() && fresh(buff) && Contents() == []
      ensures capacity == (if size > 0 then size else INITIAL_SIZE) == initial && requests == []
    {
      this.size := 0;
      capacity := if size > 0 then size else INITIAL_SIZE;
      initial := if size > 0 then size else INITIAL_SIZE;
      requests, moved := [], 0;
      buff := new UInt8[if size > 0 then size else INITIAL_SIZE];
    }

    /** The copy constructor. */
    constructor Copy(from: Buffer)
      requires from.Valid()
      ensures Valid() && Audited() && fresh(buff) && Contents() == from.Contents() && capacity == from.capacity
    {
      capacity, size, initial := from.capacity, from.size, from.capacity;
      requests, moved := [], 0;
      buff := new UInt8[from.capacity];
      new;
      CopyBytes(from.buff, buff, size);
    }

    /** `operator =`; assigning a buffer to itself changes nothing. */
    method Assign(from: Buffer)
      requires Valid() && from.Valid()
      modifies this
      ensures Valid() && Contents() == old(from.Contents()) && capacity == old(from.capacity)
      ensures from == this ==> buff == old(buff)
      ensures from != this ==> fresh(buff)
      ensures old(Audited()) ==> Audited()
    {
      if from == this {
        return;
      }
      capacity, size, initial := from.capacity, from.size, from.capacity;
      requests, moved := [], 0;
      buff := new UInt8[capacity];
      CopyBytes(from.buff, buff, size);
    }

    method Swap(other: Buffer)
      requires Valid() && other.Valid()
      modifies this, other
      ensures Valid() && other.Valid()
      ensures buff == old(other.buff) && other.buff == old(buff)
      ensures Contents() == old(other.Contents()) && other.Contents() == old(Contents())
      ensures old(Audited()) ==> other.Audited()
      ensures old(other.Audited()) ==> Audited()
      ensures capacity == old(other.capacity) && other.capacity == old(capacity)
    {
      size, other.size := other.size, size;
      capacity, other.capacity := other.capacity, capacity;
      buff, other.buff := other.buff, buff;
      initial, other.initial := other.initial, initial;
      requests, other.requests := other.requests, requests;
      moved, other.moved := other.moved, moved;
    }

    method Clear()
      requires Valid()
      modifies this`size
      ensures Valid() && Contents() == []
      ensures old(Audited()) ==> Audited()
    {
      size := 0;
    }

    /** Makes room for `n` bytes; what the buffer holds stays, wherever it moves. */
    method Ensure(n: UInt32)
      requires Valid()
      modifies this`capacity, this`buff, this`requests, this`moved
      ensures Valid() && capacity == Grown(old(capacity), n)
      ensures Contents() == old(Contents())
      ensures buff == old(buff) || fresh(buff)
      ensures requests == old(requests) + [Request(size, n)]
      ensures old(Audited()) ==> Audited()
    {
      if Audited() {
        OneMore(Account(initial, 0), requests, Request(size, n));
      }
      requests := requests + [Request(size, n)];
      if capacity >= n {
        return;
      }
      var newCapacity := GrowCapacity(capacity, n);
      var newBuff := new UInt8[newCapacity](_ => 0);
      CopyBytes(buff, newBuff, size);
      moved := moved + size;
      buff := newBuff;
      capacity := newCapacity;
    }

    /** `write(pos, data, size)`: whatever was behind the data is cut off. */
    method WriteBytes(pos: UInt32, data: Bytes)
      requires Valid() && pos <= size && pos + |data| < WORD
      modifies this, buff
      ensures Valid() && Contents() == old(Contents())[..pos] + data && capacity == Grown(old(capacity), pos + |data|)
      ensures buff == old(buff) || fresh(buff)
      ensures old(Audited()) ==> Audited()
    {
      Ensure(pos + |data|);
      StoreBytes(buff, pos, data);
      size := pos + |data|;
    }

    /** `write(pos, size)`: room for `n` bytes at `pos`, to be stored through the pointer; or null. */
    method Reserve(pos: UInt32, n: UInt32) returns (ok: bool)
      requires Valid() && pos + n < WORD
      modifies this
      ensures Valid() && ok == (pos <= old(size))
      ensures capacity == if ok then Grown(old(capacity), pos + n) else old(capacity)
      ensures !ok ==> Contents() == old(Contents()) && buff == old(buff)
      ensures ok ==> |Contents()| == (if pos + n > old(size) then pos + n else old(size)) && old(Contents()) <= Contents()
      ensures buff == old(buff) || fresh(buff)
      ensures old(Audited()) ==> Audited()
    {
      if pos > size {
        return false;
      }
      Ensure(pos + n);
      if pos + n > size {
        size := pos + n;
      }
      return true;
    }

    /** A store through the pointer that `Reserve` gave. */
    method Store(pos: UInt32, data: Bytes)
      requires Valid() && pos + |data| <= size
      modifies buff
      ensures Valid() && Contents() == Overlay(old(Contents()), pos, data)
      ensures old(Audited()) ==> Audited()
    {
      StoreBytes(buff, pos, data);
    }

    /** `*(T*)write(pos, sizeof(T)) = word`, for a word with the given memory image. */
    method Put(pos: UInt32, image: Bytes)
      requires Valid() && pos <= size && pos + |image| < WORD
      modifies this, buff
      ensures Valid() && Contents() == Overlay(old(Contents()), pos, image)
      ensures capacity == Grown(old(capacity), pos + |image|)
      ensures buff == old(buff) || fresh(buff)
      ensures old(Audited()) ==> Audited()
    {
      ghost var was := Contents();
      var ok := Reserve(pos, |image|);
      OverlayReserved(was, Contents(), pos, image);
      Store(pos, image);
    }

    /** `read(pos, size)`: the bytes behind the pointer, or null when they are not all there. */
    method Read(pos: UInt32, n: UInt32) returns (r: Option<Bytes>)
      requires Valid() && pos + n < WORD
      ensures r == if pos + n > size then None else Some(Contents()[pos..pos + n])
    {
      if pos + n > size {
        return None;
      }
      assert buff[pos..pos + n] == Contents()[pos..pos + n];
      return Some(buff[pos..pos + n]);
    }

    /** All growths together have moved fewer bytes than the capacity they led to, if each started below 2^31. */
    lemma GrowthIsAmortised()
      requires Valid() && Audited() && GrowsBelow(Account(initial, 0), requests)
      ensures moved + initial <= capacity
      ensures moved > 0 ==> moved < capacity < 2 * Largest(requests)
    {
      AmortisedGrowth(initial, requests);
    }
  }

  /** `memcpy(to, from, n)`. */
  method CopyBytes(from: array<UInt8>, to: array<UInt8>, n: nat)
    requires n <= to.Length && n <= from.Length && from != to
    modifies to
    ensures to[..n] == from[..n]
  {
    var i := 0;
    while i < n
      invariant 0 <= i <= n && to[..i] == from[..i]
    {
      to[i] := from[i];
      i := i + 1;
    }
  }

  /** Stores `data` at `pos`. */
  method StoreBytes(to: array<UInt8>, pos: nat, data: Bytes)
    requires pos + |data| <= to.Length
    modifies to
    ensures to[..] == old(to[..pos]) + data + old(to[pos + |data|..])
  {
    var i := 0;
    while i < |data|
      invariant 0 <= i <= |data|
      invariant forall k | 0 <= k < i :: to[pos + k] == data[k]
      invariant forall k | 0 <= k < pos || pos + i <= k < to.Length :: to[k] == old(to[k])
    {
      to[pos + i] := data[i];
      i := i + 1;
    }
    assert to[..pos] == old(to[..pos]) && to[pos..pos + i] == data && to[pos + i..] == old(to[pos + i..]);
    assert to[..] == to[..pos] + to[pos..pos + i] + to[pos + i..];
  }

  /** A buffer that starts in the fixed bytes of the object and moves to the heap when it grows. */
  class StackBuffer {
    const fixed: array<UInt8>
    var ptr: array<UInt8>
    var size: UInt32
    var capacity: UInt32

    ghost predicate Valid()
      reads this
    {
      && size <= capacity && ptr.Length == capacity && fixed.Length < 0x1_0000
      && fixed.Length <= capacity && (capacity == fixed.Length <==> ptr == fixed)
    }

    ghost function Contents(): Bytes
      requires Valid()
      reads this, ptr
    {
      ptr[..size]
    }

    constructor (fixedSize: nat)
      requires fixedSize < 0x1_0000
      ensures Valid() && fresh(ptr) && Contents() == [] && capacity == fixedSize
    {
      var own := new UInt8[fixedSize];
      fixed, ptr, size, capacity := own, own, 0, fixedSize;
    }

    method Ensure(n: UInt32)
      requires Valid()
      modifies this`capacity, this`ptr
      ensures Valid() && capacity == Grown(old(capacity), n)
      ensures Contents() == old(Contents())
      ensures ptr == old(ptr) || fresh(ptr)
    {
      if capacity >= n {
        return;
      }
      var newCapacity := GrowStackCapacity(capacity, n);
      var newPtr := new UInt8[newCapacity];
      CopyBytes(ptr, newPtr, size);
      ptr := newPtr;
      capacity := newCapacity;
    }

    /** `write(pos, data, size)`: whatever is behind the data stays. */
    method WriteBytes(pos: UInt32, data: Bytes)
      requires Valid() && pos <= size && pos + |data| < WORD
      modifies this, ptr
      ensures Valid() && Contents() == Overlay(old(Contents()), pos, data)
      ensures capacity == Grown(old(capacity), pos + |data|)
      ensures ptr == old(ptr) || fresh(ptr)
    {
      ghost var was := Contents();
      Ensure(pos + |data|);
      StoreBytes(ptr, pos, data);
      assert ptr[..pos] == was[..pos] && ptr[pos..pos + |data|] == data;
      assert pos + |data| < |was| ==> ptr[pos + |data|..|was|] == was[pos + |data|..];
      if pos + |data| > size {
        size := pos + |data|;
      }
    }

    method Reserve(pos: UInt32, n: UInt32) returns (ok: bool)
      requires Valid() && pos + n < WORD
      modifies this
      ensures Valid() && ok == (pos <= old(size))
      ensures capacity == if ok then Grown(old(capacity), pos + n) else old(capacity)
      ensures !ok ==> Contents() == old(Contents()) && ptr == old(ptr)
      ensures ok ==> |Contents()| == (if pos + n > old(size) then pos + n else old(size)) && old(Contents()) <= Contents()
      ensures ptr == old(ptr) || fresh(ptr)
    {
      if pos > size {
        return false;
      }
      Ensure(pos + n);
      if pos + n > size {
        size := pos + n;
      }
      return true;
    }

    method Store(pos: UInt32, data: Bytes)
      requires Valid() && pos + |data| <= size
      modifies ptr
      ensures Valid() && Contents() == Overlay(old(Contents()), pos, data)
    {
      StoreBytes(ptr, pos, data);
    }

    /** `*(T*)write(pos, sizeof(T)) = word`, for a word with the given memory image. */
    method Put(pos: UInt32, image: Bytes)
      requires Valid() && pos <= size && pos + |image| < WORD
      modifies this, ptr
      ensures Valid() && Contents() == Overlay(old(Contents()), pos, image)
      ensures capacity == Grown(old(capacity), pos + |image|)
      ensures ptr == old(ptr) || fresh(ptr)
    {
      ghost var was := Contents();
      var ok := Reserve(pos, |image|);
      OverlayReserved(was, Contents(), pos, image);
      Store(pos, image);
    }

    method Read(pos: UInt32, n: UInt32) returns (r: Option<Bytes>)
      requires Valid() && pos + n < WORD
      ensures r == if pos + n > size then None else Some(Contents()[pos..pos + n])
    {
      if pos + n > size {
        return None;
      }
      assert ptr[pos..pos + n] == Contents()[pos..pos + n];
      return Some(ptr[pos..pos + n]);
    }
  }
}
