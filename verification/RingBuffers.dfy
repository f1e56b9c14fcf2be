/** `CRingBuffer`: the byte queue behind a connection's input and output. */
module RingBuffers {
  import opened Types
  import opened Growth
  import B = Buffers

  const BOUND_SIZE := 1024 * 500
  const SHRINK_SIZE: UInt32 := 1024 * 10

  // ---- circular slices --------------------------------------------------------------------

  /** `i` places further on than `start`, around a ring of `n` places. */
  function Around(n: nat, start: nat, i: nat): int {
    if start + i < n then start + i else start + i - n
  }

  /** The `len` bytes from `start` on, around the end of `b`. */
  function Ring(b: Bytes, start: nat, len: nat): (r: Bytes)
    requires start <= |b| && len <= |b|
    ensures |r| == len
  {
    if start + len <= |b| then b[start..start + len] else b[start..] + b[..start + len - |b|]
  }

  /** `b` with `d` stored from `start` on, around its end. */
  function Put(b: Bytes, start: nat, d: Bytes): (r: Bytes)
    requires start <= |b| && |d| <= |b|
    ensures |r| == |b|
  {
    if start + |d| <= |b| then b[..start] + d + b[start + |d|..]
    else d[|b| - start..] + b[start + |d| - |b|..start] + d[..|b| - start]
  }

  lemma RingAt(b: Bytes, start: nat, len: nat, i: nat)
    requires start <= |b| && i < len <= |b|
    ensures 0 <= Around(|b|, start, i) < |b| && Ring(b, start, len)[i] == b[Around(|b|, start, i)]
  {
  }

  lemma PutAt(b: Bytes, start: nat, d: Bytes, i: nat)
    requires start < |b| && |d| <= |b| && i < |b|
    ensures Put(b, start, d)[Around(|b|, start, i)] == if i < |d| then d[i] else b[Around(|b|, start, i)]
  {
  }

  lemma RingSplitsAt(b: Bytes, start: nat, m: nat, n: nat, i: nat)
    requires start < |b| && m + n <= |b| && i < m + n
    ensures Ring(b, start, m + n)[i] ==
            if i < m then Ring(b, start, m)[i] else Ring(b, Around(|b|, start, m), n)[i - m]
  {
    RingAt(b, start, m + n, i);
    if i < m {
      RingAt(b, start, m, i);
    } else {
      RingAt(b, Around(|b|, start, m), n, i - m);
    }
  }

  /** Going round in two steps. */
  lemma RingSplits(b: Bytes, start: nat, m: nat, n: nat)
    requires start < |b| && m + n <= |b|
    ensures Ring(b, start, m + n) == Ring(b, start, m) + Ring(b, Around(|b|, start, m), n)
  {
    var r, s := Ring(b, start, m + n), Ring(b, start, m) + Ring(b, Around(|b|, start, m), n);
    forall i | 0 <= i < m + n ensures r[i] == s[i] {
      RingSplitsAt(b, start, m, n, i);
    }
  }

  lemma DropOfSum(a: Bytes, b: Bytes)
    ensures (a + b)[|a|..] == b
  {
  }

  /** What is left of the queue behind its first bytes. */
  lemma RingDrops(b: Bytes, start: nat, m: nat, len: nat)
    requires start < |b| && m <= len <= |b|
    ensures Ring(b, Around(|b|, start, m), len - m) == Ring(b, start, len)[m..]
  {
    RingSplits(b, start, m, len - m);
    DropOfSum(Ring(b, start, m), Ring(b, Around(|b|, start, m), len - m));
  }

  lemma AroundTwice(n: nat, front: nat, m: nat, k: nat)
    requires front < n && m + k <= n
    ensures Around(n, Around(n, front, m), k) == Around(n, front, m + k)
  {
  }

  lemma AroundBack(n: nat, front: nat, size: nat, i: nat)
    requires front < n && i < size < n
    ensures Around(n, Around(n, front, size), n - size + i) == Around(n, front, i)
  {
  }

  /** The bytes `c` agree with the queue in `b` and, behind it, with `d`: then they hold both in a row. */
  lemma Appends(b: Bytes, c: Bytes, front: nat, size: nat, d: Bytes)
    requires front < |b| == |c| && size + |d| <= |b|
    requires forall i | 0 <= i < size :: c[Around(|b|, front, i)] == b[Around(|b|, front, i)]
    requires forall i | 0 <= i < |d| :: c[Around(|b|, front, size + i)] == d[i]
    ensures Ring(c, front, size + |d|) == Ring(b, front, size) + d
  {
    var r, s := Ring(c, front, size + |d|), Ring(b, front, size) + d;
    forall i | 0 <= i < size + |d| ensures r[i] == s[i] {
      RingAt(c, front, size + |d|, i);
      if i < size {
        RingAt(b, front, size, i);
      } else {
        assert c[Around(|b|, front, size + (i - size))] == d[i - size];
      }
    }
  }

  lemma PutKeeps(b: Bytes, front: nat, size: nat, d: Bytes, i: nat)
    requires front < |b| && size + |d| <= |b| && i < size < |b|
    ensures Put(b, Around(|b|, front, size), d)[Around(|b|, front, i)] == b[Around(|b|, front, i)]
  {
    AroundBack(|b|, front, size, i);
    PutAt(b, Around(|b|, front, size), d, |b| - size + i);
  }

  lemma PutStores(b: Bytes, front: nat, size: nat, d: Bytes, i: nat)
    requires front < |b| && size + |d| <= |b| && i < |d|
    ensures Put(b, Around(|b|, front, size), d)[Around(|b|, front, size + i)] == d[i]
  {
    AroundTwice(|b|, front, size, i);
    PutAt(b, Around(|b|, front, size), d, i);
  }

  /** Storing in the free places behind the queue appends to it. */
  lemma PutAppends(b: Bytes, front: nat, size: nat, d: Bytes)
    requires front < |b| && size + |d| <= |b|
    ensures Ring(Put(b, Around(|b|, front, size), d), front, size + |d|) == Ring(b, front, size) + d
  {
    if size == |b| {
      assert Put(b, Around(|b|, front, size), d) == b;
    } else {
      forall i | 0 <= i < size
        ensures Put(b, Around(|b|, front, size), d)[Around(|b|, front, i)] == b[Around(|b|, front, i)]
      {
        PutKeeps(b, front, size, d, i);
      }
      forall i | 0 <= i < |d| ensures Put(b, Around(|b|, front, size), d)[Around(|b|, front, size + i)] == d[i] {
        PutStores(b, front, size, d, i);
      }
      Appends(b, Put(b, Around(|b|, front, size), d), front, size, d);
    }
  }

  // ---- the queue --------------------------------------------------------------------------

  class RingBuffer {
    var capacity: UInt32
    var front: UInt32
    var end: UInt32
    var size: UInt32
    var buff: array<UInt8>

    ghost predicate Valid()
      reads this
    {
      && buff.Length == capacity && size <= capacity
      && (front < capacity || (front == 0 && capacity == 0))
      && end == Around(capacity, front, size)
    }

    /** The bytes in the queue, oldest first. */
    ghost function Contents(): Bytes
      requires Valid()
      reads this, buff
    {
      Ring(buff[..], front, size)
    }

    constructor (capacity: UInt32)
      ensures Valid() && fresh(buff) && Contents() == []
    {
      this.capacity, front, end, size := capacity, 0, 0, 0;
      buff := new UInt8[capacity];
    }

    /** `memcpy` behind the last byte, in two parts when it goes around the end. */
    method Place(data: Bytes)
      requires Valid() && 0 < |data| && size + |data| <= capacity
      modifies buff, this`end
      ensures buff[..] == Put(old(buff[..]), old(end), data)
      ensures end == Around(capacity, old(end), |data|)
    {
      if end >= front {
        var count := capacity - end;
        if |data| < count {
          B.StoreBytes(buff, end, data);
          end := end + |data|;
        } else {
          var remain := |data| - count;
          Scatter(buff, data, end, count, 0);
          end := remain;
        }
      } else {
        B.StoreBytes(buff, end, data);
        end := end + |data|;
      }
    }

    method Write(data: Bytes)
      requires Valid() && 0 < |data| && size + |data| < WORD
      modifies this, buff
      ensures Valid() && Contents() == old(Contents()) + data
      ensures capacity == Grown(old(capacity), old(size) + |data|)
      ensures buff == old(buff) || fresh(buff)
    {
      hide Put, Ring, Grown;
      Ensure(size + |data|);
      PutAppends(buff[..], front, size, data);
      AroundTwice(capacity, front, size, |data|);
      Place(data);
      size := size + |data|;
    }

    method Ensure(n: UInt32)
      requires Valid() && n > size
      modifies this
      ensures Valid() && Contents() == old(Contents()) && size == old(size)
      ensures capacity == Grown(old(capacity), n)
      ensures buff == old(buff) || fresh(buff)
    {
      if capacity >= n {
        return;
      }
      var newCapacity := GrowCapacity(capacity, n);
      Resize(newCapacity);
    }

    /** Moves the bytes to the start of a new array. */
    method Resize(newCapacity: UInt32)
      requires Valid() && size < newCapacity
      modifies this
      ensures Valid() && Contents() == old(Contents()) && size == old(size)
      ensures capacity == newCapacity && fresh(buff)
    {
      var to := new UInt8[newCapacity];
      if size != 0 {
        if end <= front {
          var len := capacity - front;
          B.StoreBytes(to, 0, buff[front..]);
          B.StoreBytes(to, len, buff[..end]);
        } else {
          B.StoreBytes(to, 0, buff[front..front + size]);
        }
      }
      assert to[..size] == Contents();
      buff, capacity, front, end := to, newCapacity, 0, size;
    }

    method TryShrink()
      requires Valid()
      modifies this
      ensures Valid() && Contents() == old(Contents())
      ensures buff == old(buff) || fresh(buff)
      ensures capacity == if old(size) == 0 && old(capacity) > BOUND_SIZE then SHRINK_SIZE else old(capacity)
    {
      if size != 0 {
        return;
      }
      if capacity > BOUND_SIZE {
        Resize(SHRINK_SIZE);
      }
    }

    /** Copies the oldest bytes out; the source asserts that they are there. */
    method Look(len: UInt32) returns (data: Bytes)
      requires Valid() && 0 < len <= size
      ensures data == Contents()[..len]
    {
      if end > front {
        data := buff[front..front + len];
      } else {
        var count := capacity - front;
        if count >= len {
          data := buff[front..front + len];
        } else {
          data := buff[front..] + buff[..len - count];
        }
      }
    }

    /** Drops the oldest bytes. */
    method ReadConfirm(len: UInt32)
      requires Valid() && 0 < len <= size
      modifies this`front, this`size
      ensures Valid() && Contents() == old(Contents())[len..]
    {
      RingDrops(buff[..], front, len, size);
      AroundTwice(capacity, front, len, size - len);
      if end > front {
        front := front + len;
      } else {
        var count := capacity - front;
        front := if count > len then front + len else len - count;
      }
      size := size - len;
    }

    /** Copies the oldest bytes out and drops them; an empty queue gives a large array back. */
    method Read(len: UInt32) returns (data: Bytes)
      requires Valid() && 0 < len <= size
      modifies this
      ensures Valid() && data == old(Contents())[..len] && Contents() == old(Contents())[len..]
      ensures capacity == if old(size) == len && old(capacity) > BOUND_SIZE then SHRINK_SIZE else old(capacity)
      ensures buff == old(buff) || fresh(buff)
    {
      data := Look(len);
      ReadConfirm(len);
      TryShrink();
    }

    /**
     The free places, as two spans of the array, for `readv` to store in: all of them, except that
     one is left out when they go around the end.
     */
    method GetWriteableVec() returns (o: nat, n: nat, o2: nat, n2: nat)
      requires Valid()
      ensures n + n2 == capacity - size - if size < capacity && 0 < front <= end then 1 else 0
      ensures n2 > 0 ==> o + n == capacity && o2 == 0
      ensures n > 0 ==> o == end && o + n <= capacity
      ensures n == 0 ==> n2 == 0
    {
      o, n, o2, n2 := 0, 0, 0, 0;
      if size == capacity {
        return;
      }
      if end >= front {
        o, n := end, capacity - end;
        if front > 0 {
          n2 := front - 1;
        }
      } else {
        o, n := end, front - end;
      }
    }

    method WriteConfirm(len: UInt32)
      requires Valid() && 0 < len && size + len <= capacity
      modifies this`end, this`size
      ensures Valid() && size == old(size) + len && Contents() == Ring(buff[..], front, old(size) + len)
    {
      AroundTwice(capacity, front, size, len);
      if end >= front {
        var count := capacity - end;
        end := if len < count then end + len else len - count;
      } else {
        end := end + len;
      }
      size := size + len;
    }

    /** What `readv` stores in the free spans, and the confirmation that it is there. */
    method Fill(data: Bytes, o: nat, n: nat, o2: nat, n2: nat)
      requires Valid() && 0 < |data| <= n + n2 && n + n2 <= capacity - size
      requires n > 0 && o == end && o + n <= capacity && (n2 > 0 ==> o + n == capacity && o2 == 0)
      modifies this`end, this`size, buff
      ensures Valid() && Contents() == old(Contents()) + data
    {
      PutAppends(buff[..], front, size, data);
      Scatter(buff, data, o, n, o2);
      WriteConfirm(|data|);
    }

    /** `handleTcpConRead`: the bytes go to the free places first and the others are written. */
    method Receive(data: Bytes)
      requires Valid() && 0 < |data| && size + |data| < WORD
      modifies this, buff
      ensures Valid() && Contents() == old(Contents()) + data
      ensures buff == old(buff) || fresh(buff)
    {
      var o, n, o2, n2 := GetWriteableVec();
      var writeable := n + n2;
      if |data| > writeable {
        ghost var was := Contents();
        assert was + data == was + data[..writeable] + data[writeable..];
        if writeable > 0 {
          Fill(data[..writeable], o, n, o2, n2);
        }
        Write(data[writeable..]);
      } else {
        Fill(data, o, n, o2, n2);
      }
    }

    /** The bytes in the queue, as two spans of the array, for `writev` to send. */
    method GetReadableVec() returns (o: nat, n: nat, o2: nat, n2: nat)
      requires Valid()
      ensures o + n <= capacity && o2 + n2 <= capacity
      ensures Contents() == buff[o..o + n] + buff[o2..o2 + n2]
    {
      o, n, o2, n2 := 0, 0, 0, 0;
      if size == 0 {
        return;
      }
      if end > front {
        o, n := front, size;
      } else {
        o, n := front, capacity - front;
        n2 := size - n;
      }
    }

    method Clear()
      requires Valid()
      modifies this`front, this`end, this`size
      ensures Valid() && Contents() == []
    {
      front, end, size := 0, 0, 0;
    }
  }

  /** The first `n` bytes at `o`, and the rest at `o2`. */
  method Scatter(to: array<UInt8>, data: Bytes, o: nat, n: nat, o2: nat)
    requires |data| <= to.Length && o + n <= to.Length
    requires |data| > n ==> o + n == to.Length && o2 == 0
    modifies to
    ensures to[..] == Put(old(to[..]), o, data)
  {
    if |data| <= n {
      B.StoreBytes(to, o, data);
    } else {
      B.StoreBytes(to, o, data[..n]);
      B.StoreBytes(to, o2, data[n..]);
    }
  }
}
