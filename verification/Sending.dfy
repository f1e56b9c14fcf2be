/** The output side of a connection: `tcpSend`, and the write callback that sends what was left over. */
module Sending {
  import opened Types
  import opened RingBuffers
  import Poller

  /** What the socket has taken, and what waits in the output buffer. */
  datatype Output = Output(wire: Bytes, pending: Bytes)
  {
    /** The stream the far end will see once everything has been sent. */
    function Stream(): Bytes { wire + pending }
  }

  /** `tcpSend` when the socket's `write` returns `count`; what it does not take is lost unless it took some. */
  function Sent(o: Output, data: Bytes, count: int): Output
    requires count <= |data|
  {
    if count <= 0 then o
    else Output(o.wire + data[..count], o.pending + data[count..])
  }

  /** `handleTcpConWrite` when `writev` returns `count`. */
  function Flushed(o: Output, count: int): Output
    requires count <= |o.pending|
  {
    if count <= 0 then o else Output(o.wire + o.pending[..count], o.pending[count..])
  }

  class OutputSide {
    const outBuffer: RingBuffer
    var isWriting: bool
    /** The interest mask of the object. */
    var events: bv32
    ghost var wire: Bytes

    /** Write events are asked for exactly while something is pending. */
    ghost predicate Valid()
      reads this, outBuffer
    {
      && outBuffer.Valid() && isWriting == (outBuffer.size > 0)
      && (isWriting <==> events & Poller.WRITE_EVENT != 0)
    }

    ghost function State(): Output
      requires Valid()
      reads this, outBuffer, outBuffer.buff
    {
      Output(wire, outBuffer.Contents())
    }

    constructor ()
      ensures Valid() && State() == Output([], []) && fresh(outBuffer) && fresh(outBuffer.buff)
    {
      outBuffer := new RingBuffer(1024);
      isWriting, events, wire := false, Poller.READ_EVENT, [];
    }

    /** Sets the write bit by "deregistering" it, and only when it is clear. */
    method TcpSend(data: Bytes, count: int)
      requires Valid() && 0 < |data| && count <= |data| && outBuffer.size + |data| < WORD
      modifies this, outBuffer, outBuffer.buff
      ensures Valid() && State() == Sent(old(State()), data, count)
      ensures events & Poller.READ_EVENT == old(events) & Poller.READ_EVENT
    {
      assert data[|data|..] == [];
      if count > 0 {
        wire := wire + data[..count];
        if count != |data| {
          outBuffer.Write(data[count..]);
          if !isWriting {
            isWriting := true;
            events := Poller.Wanted(events, Poller.DeregisterWrite);
          }
        }
      }
    }

    /** The source asserts that the connection is writing. */
    method HandleTcpConWrite(count: int)
      requires Valid() && isWriting && count <= outBuffer.size
      modifies this, outBuffer
      ensures Valid() && State() == Flushed(old(State()), count)
      ensures events & Poller.READ_EVENT == old(events) & Poller.READ_EVENT
    {
      if count > 0 {
        wire := wire + outBuffer.Contents()[..count];
        if count == outBuffer.size {
          outBuffer.ReadConfirm(count);
          isWriting := false;
          events := Poller.Wanted(events, Poller.DeregisterWrite);
        } else {
          outBuffer.ReadConfirm(count);
        }
      }
    }
  }

  /** The write callback never changes the stream. */
  lemma FlushKeepsStream(o: Output, count: int)
    requires count <= |o.pending|
    ensures Flushed(o, count).Stream() == o.Stream()
  {
    if count > 0 {
      assert o.pending == o.pending[..count] + o.pending[count..];
    }
  }

  /** It moves exactly what `writev` took from the front of what waits to the wire. */
  lemma FlushMoves(o: Output, count: int)
    requires count <= |o.pending|
    ensures var f, n := Flushed(o, count), if count > 0 then count else 0;
            |f.wire| == |o.wire| + n && f.wire == o.Stream()[..|f.wire|] && f.pending == o.Stream()[|f.wire|..]
  {
  }

  /** What the write callback makes of `o` when `writev` returns `counts` one after the other. */
  function FlushedAll(o: Output, counts: seq<nat>): Output
    requires Total(counts) <= |o.pending|
    decreases |counts|
  {
    if counts == [] then o else FlushedAll(Flushed(o, counts[0]), counts[1..])
  }

  function Total(counts: seq<nat>): nat {
    if counts == [] then 0 else counts[0] + Total(counts[1..])
  }

  /** Once `writev` has taken as much as waited, the wire holds the whole stream and nothing waits. */
  lemma {:induction false} FlushDrains(o: Output, counts: seq<nat>)
    requires Total(counts) == |o.pending|
    ensures FlushedAll(o, counts) == Output(o.Stream(), [])
    decreases |counts|
  {
    if counts != [] {
      FlushKeepsStream(o, counts[0]);
      FlushDrains(Flushed(o, counts[0]), counts[1..]);
    }
  }

  /** `tcpSend` appends to the stream when nothing is pending and the socket takes something. */
  lemma SendAppends(o: Output, data: Bytes, count: int)
    requires 0 < count <= |data| && o.pending == []
    ensures Sent(o, data, count).Stream() == o.Stream() + data
  {
    assert data == data[..count] + data[count..];
  }

  /** What the socket takes while something is pending overtakes it. */
  lemma SendOvertakes(o: Output, data: Bytes, count: int)
    requires 0 < count <= |data| && o.pending != []
    ensures var s := Sent(o, data, count).Stream();
            s == o.wire + data[..count] + o.pending + data[count..] && s[|o.wire|] == data[0]
    ensures data[0] != o.pending[0] ==> Sent(o, data, count).Stream() != o.Stream() + data
  {
    assert (o.Stream() + data)[|o.wire|] == o.pending[0];
  }

  /**
   `tcpSend` appends what it is given to the stream exactly when the socket takes some of it while
   nothing is pending: only then does it do so for all bytes of the given lengths.
   */
  lemma SendKeepsOrder(size: nat, len: nat, count: int)
    requires 0 < len && count <= len
    ensures (forall o: Output, data: Bytes | |o.pending| == size && |data| == len ::
               Sent(o, data, count).Stream() == o.Stream() + data) <==>
            count > 0 && size == 0
  {
    var zeros: Bytes := seq(size, i => 0);
    var ones: Bytes := seq(len, i => 1);
    var o := Output([], zeros);
    if count > 0 && size == 0 {
      forall o: Output, data: Bytes | |o.pending| == size && |data| == len
        ensures Sent(o, data, count).Stream() == o.Stream() + data
      {
        SendAppends(o, data, count);
      }
    } else if count > 0 {
      SendOvertakes(o, ones, count);
    } else {
      assert |Sent(o, ones, count).Stream()| == size;
    }
    assert |o.pending| == size && |ones| == len;
  }
}
