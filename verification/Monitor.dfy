/** The "Buffer" counter of the resource monitor, and what it counts. */
module Monitor {
  import opened Types
  import opened Growth
  import opened Buffers

  /** The conversion of a uint32 capacity to the counter's int32 argument. */
  function AsInt32(c: UInt32): int { if c < 0x8000_0000 then c else c - WORD }

  /** The sum of `f` over the entries of a map. */
  ghost function Total<K>(m: map<K, UInt32>, f: UInt32 -> int): int
    decreases |m|
  {
    if m == map[] then 0 else
    var k :| k in m;
    assert |m - {k}| < |m| by { Shrinks(m, k); }
    f(m[k]) + Total(m - {k}, f)
  }

  lemma Shrinks<K>(m: map<K, UInt32>, k: K)
    requires k in m
    ensures |m - {k}| < |m|
  {
    assert (m - {k}).Keys == m.Keys - {k};
    assert |m.Keys - {k}| < |m.Keys|;
    assert |m.Keys| == |m| && |(m - {k}).Keys| == |m - {k}|;
  }

  /** Any entry can be taken out first. */
  lemma {:induction false} TotalWithout<K>(m: map<K, UInt32>, f: UInt32 -> int, k: K)
    requires k in m
    ensures Total(m, f) == f(m[k]) + Total(m - {k}, f)
    decreases |m|
  {
    var j :| j in m && Total(m, f) == f(m[j]) + Total(m - {j}, f);
    if j != k {
      Shrinks(m, j);
      Shrinks(m, k);
      TotalWithout(m - {j}, f, k);
      TotalWithout(m - {k}, f, j);
      assert m - {j} - {k} == m - {k} - {j};
    }
  }

  /** Setting one entry changes the sum by the difference. */
  lemma TotalSet<K>(m: map<K, UInt32>, f: UInt32 -> int, k: K, c: UInt32)
    ensures Total(m[k := c], f) == Total(m, f) + f(c) - if k in m then f(m[k]) else 0
  {
    var n := m[k := c];
    TotalWithout(n, f, k);
    assert n - {k} == m - {k};
    if k in m {
      TotalWithout(m, f, k);
    } else {
      assert m - {k} == m;
    }
  }

  ghost function Exactly(c: UInt32): int { c }

  ghost function Wraps(c: UInt32): int { if c < 0x8000_0000 then 0 else 1 }

  /** Each capacity of 2^31 or more is counted 2^32 short. */
  lemma {:induction false} CountedShort<K>(m: map<K, UInt32>)
    ensures Total(m, AsInt32) == Total(m, Exactly) - WORD * Total(m, Wraps)
    ensures Total(m, Wraps) >= 0
    ensures Total(m, Wraps) == 0 <==> forall k | k in m :: m[k] < 0x8000_0000
    decreases |m|
  {
    if m != map[] {
      var k :| k in m;
      Shrinks(m, k);
      CountedShort(m - {k});
      TotalWithout(m, AsInt32, k);
      TotalWithout(m, Exactly, k);
      TotalWithout(m, Wraps, k);
      var n := m - {k};
      assert forall j | j in m :: j == k || (j in n && n[j] == m[j]);
    }
  }

  /** So the counter is the sum of all capacities exactly as long as each of them is below 2^31. */
  lemma CounterExact<K>(m: map<K, UInt32>)
    ensures Total(m, AsInt32) == Total(m, Exactly) <==> forall k | k in m :: m[k] < 0x8000_0000
  {
    CountedShort(m);
  }

  /** Every construction, copy, assignment, growth and destruction of Buffers under `_MONITOR`. */
  class BufferMonitor {
    var counter: int
    /** The buffers that are alive, with their capacities. */
    ghost var live: map<Buffer, UInt32>

    ghost predicate Valid()
      reads this, live.Keys
    {
      && (forall b | b in live :: b.Valid() && b.capacity == live[b])
      && counter == Total(live, AsInt32)
    }

    constructor ()
      ensures Valid() && live == map[] && counter == 0
    {
      counter, live := 0, map[];
    }

    method AddCounter(add: UInt32)
      modifies this`counter
      ensures counter == old(counter) + AsInt32(add)
    {
      counter := counter + AsInt32(add);
    }

    method DelCounter(del: UInt32)
      modifies this`counter
      ensures counter == old(counter) - AsInt32(del)
    {
      counter := counter - AsInt32(del);
    }

    method New(size: UInt32) returns (b: Buffer)
      requires Valid()
      modifies this
      ensures Valid() && fresh(b) && live == old(live)[b := b.capacity]
    {
      b := new Buffer(size);
      TotalSet(live, AsInt32, b, b.capacity);
      AddCounter(b.capacity);
      live := live[b := b.capacity];
    }

    method Copy(from: Buffer) returns (b: Buffer)
      requires Valid() && from in live
      modifies this
      ensures Valid() && fresh(b) && live == old(live)[b := from.capacity] && b.Contents() == from.Contents()
    {
      b := new Buffer.Copy(from);
      TotalSet(live, AsInt32, b, b.capacity);
      AddCounter(b.capacity);
      live := live[b := b.capacity];
    }

    /** `to = from`: the old capacity leaves the counter and the new one enters it; self-assignment does neither. */
    method Assign(to: Buffer, from: Buffer)
      requires Valid() && to in live && from in live
      modifies this, to
      ensures Valid() && live == old(live)[to := old(live)[from]] && to.Contents() == old(from.Contents())
    {
      TotalSet(live, AsInt32, to, live[from]);
      if from != to {
        DelCounter(to.capacity);
        AddCounter(from.capacity);
      }
      to.Assign(from);
      live := live[to := live[from]];
    }

    /** Swapping exchanges two entries and leaves the counter alone. */
    method Swap(a: Buffer, b: Buffer)
      requires Valid() && a in live && b in live
      modifies this, a, b
      ensures Valid() && counter == old(counter) && live == old(live)[a := old(live)[b]][b := old(live)[a]]
    {
      TotalSet(live, AsInt32, a, live[b]);
      TotalSet(live[a := live[b]], AsInt32, b, live[a]);
      a.Swap(b);
      live := live[a := live[b]][b := live[a]];
    }

    /** A growth takes the old capacity out and puts the new one in. */
    method Ensure(b: Buffer, n: UInt32)
      requires Valid() && b in live
      modifies this, b
      ensures Valid() && live == old(live)[b := Grown(old(live)[b], n)] && b.Contents() == old(b.Contents())
    {
      TotalSet(live, AsInt32, b, Grown(live[b], n));
      var before := b.capacity;
      b.Ensure(n);
      if before < n {
        DelCounter(before);
        AddCounter(b.capacity);
      }
      live := live[b := Grown(live[b], n)];
    }

    method Destroy(b: Buffer)
      requires Valid() && b in live
      modifies this
      ensures Valid() && live == old(live) - {b}
    {
      TotalWithout(live, AsInt32, b);
      DelCounter(b.capacity);
      live := live - {b};
    }

    /** The counter never drifts: it is the sum of the live capacities while none reaches 2^31. */
    lemma Conservation()
      requires Valid()
      ensures counter == Total(live, Exactly) <==> forall b | b in live :: b.capacity < 0x8000_0000
    {
      CounterExact(live);
    }
  }
}
