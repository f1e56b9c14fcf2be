/** `CEPoller::poll`: one batch of events, while the callbacks it invokes change the table. */
module Dispatch {
  import opened Types
  import opened Poller

  /**
   What poll and the callbacks share: the object table by key, each object's mask, and the objects
   whose read or write callback is set.
   */
  datatype View = View(table: map<UInt32, nat>, masks: map<nat, bv32>, readers: set<nat>, writers: set<nat>)
  {
    predicate HasReading(o: nat) { o in masks && masks[o] & READ_EVENT != 0 }
    predicate HasWriting(o: nat) { o in masks && masks[o] & WRITE_EVENT != 0 }
    predicate Reads(o: nat) { HasReading(o) && o in readers }
    predicate Writes(o: nat) { HasWriting(o) && o in writers }
  }

  /** An entry of the array that `epoll_wait` filled. */
  datatype Ready = Ready(key: UInt32, err: bool, input: bool, output: bool, hup: bool)

  datatype Which = Error | Read | Write

  /**
   The invocation of one of an object's callbacks for the event at `position` of the batch, and
   what poll and callback saw at that moment.
   */
  datatype Invocation = Invocation(which: Which, position: nat, target: nat, view: View)

  /** What the `n`-th callback makes of the view: anything. */
  type Callbacks = (nat, Invocation) -> View

  datatype Progress = Progress(view: View, trace: seq<Invocation>)

  function Invoke(p: Progress, which: Which, position: nat, target: nat, callbacks: Callbacks): Progress {
    var i := Invocation(which, position, target, p.view);
    Progress(callbacks(|p.trace|, i), p.trace + [i])
  }

  /** The event reports reading (writing) and no error; the object asks for that and has a callback for it. */
  predicate ReadDue(v: View, e: Ready, o: nat) { !e.err && (e.input || e.hup) && v.Reads(o) }

  predicate WriteDue(v: View, e: Ready, o: nat) { !e.err && (e.output || e.hup) && v.Writes(o) }

  /** One round of the loop. */
  function Handle(p: Progress, position: nat, e: Ready, callbacks: Callbacks): Progress {
    if e.key !in p.view.table then p else
    var o := p.view.table[e.key];
    if e.err then Invoke(p, Error, position, o, callbacks) else
    var q := if ReadDue(p.view, e, o) then Invoke(p, Read, position, o, callbacks) else p;
    if WriteDue(q.view, e, o) then Invoke(q, Write, position, o, callbacks) else q
  }

  function HandleAll(v: View, batch: seq<Ready>, callbacks: Callbacks): Progress {
    if batch == [] then Progress(v, []) else
    var n := |batch| - 1;
    Handle(HandleAll(v, batch[..n], callbacks), n, batch[n], callbacks)
  }

  class Batch {
    var view: View
    /** The invocations so far; the model numbers them, poll itself does not look at them. */
    var trace: seq<Invocation>

    constructor (view: View)
      ensures this.view == view && trace == []
    {
      this.view, trace := view, [];
    }

    /** Calls into code that may do anything to the table and the masks. */
    method Callback(which: Which, position: nat, target: nat, callbacks: Callbacks)
      modifies this
      ensures Progress(view, trace) == Invoke(old(Progress(view, trace)), which, position, target, callbacks)
    {
      var i := Invocation(which, position, target, view);
      view := callbacks(|trace|, i);
      trace := trace + [i];
    }

    method Poll(batch: seq<Ready>, callbacks: Callbacks)
      requires trace == []
      modifies this
      ensures Progress(view, trace) == HandleAll(old(view), batch, callbacks)
      ensures forall position: nat, n: nat | position < |batch| && Before(trace, n, position) ::
                Settled(old(view), batch, callbacks, trace, position, n)
    {
      var i := 0;
      while i < |batch|
        invariant 0 <= i <= |batch|
        invariant Progress(view, trace) == HandleAll(old(view), batch[..i], callbacks)
      {
        assert batch[..i + 1][..i] == batch[..i];
        PollOne(i, batch[i], callbacks);
        i := i + 1;
      }
      assert batch[..i] == batch;
      forall position: nat, n: nat | position < |batch| && Before(trace, n, position)
        ensures Settled(old(view), batch, callbacks, trace, position, n)
      {
        BatchIsComplete(old(view), batch, callbacks, position, n);
      }
    }

    /** The body of the loop; the object is looked up once and kept. */
    method PollOne(position: nat, e: Ready, callbacks: Callbacks)
      modifies this
      ensures Progress(view, trace) == Handle(old(Progress(view, trace)), position, e, callbacks)
    {
      if e.key !in view.table {
        return;
      }
      var target := view.table[e.key];
      if e.err {
        Callback(Error, position, target, callbacks);
      } else {
        if (e.input || e.hup) && view.HasReading(target) {
          if target in view.readers {
            Callback(Read, position, target, callbacks);
          }
        }
        if (e.output || e.hup) && view.HasWriting(target) {
          if target in view.writers {
            Callback(Write, position, target, callbacks);
          }
        }
      }
    }
  }

  // ---- what a batch does, whatever the callbacks do ---------------------------------------

  /** At that moment the object is in the table under the key `key`. */
  predicate OnLive(i: Invocation, key: UInt32) {
    key in i.view.table && i.view.table[key] == i.target
  }

  /** The callback is due at that moment. */
  predicate AskedFor(i: Invocation, e: Ready) {
    match i.which
    case Error => e.err
    case Read => ReadDue(i.view, e, i.target)
    case Write => WriteDue(i.view, e, i.target)
  }

  /** `j` follows the read callback `i` of the same event and object, in the view which that left behind. */
  predicate Follows(i: Invocation, j: Invocation, left: View) {
    i.which == Read && j.which == Write && i.position == j.position && i.target == j.target && j.view == left
  }

  /** The invocation after the `n`-th is for the same event. */
  predicate Continues(t: seq<Invocation>, n: nat)
    requires n < |t|
  {
    n + 1 < |t| && t[n + 1].position == t[n].position
  }

  /**
   What every invocation looks like: it is asked for; it starts a chain on a live object, or is a
   write after such a read; and a read is followed by the write exactly when that is due in the
   view the read left behind.
   */
  predicate Proper(t: seq<Invocation>, n: nat, e: Ready, callbacks: Callbacks)
    requires n < |t|
  {
    && AskedFor(t[n], e)
    && (if n > 0 && Continues(t, n - 1)
        then OnLive(t[n - 1], e.key) && Follows(t[n - 1], t[n], callbacks(n - 1, t[n - 1]))
        else OnLive(t[n], e.key))
    && (Continues(t, n) <==> t[n].which == Read && WriteDue(callbacks(n, t[n]), e, t[n].target))
  }

  /** The invocations a round adds. */
  lemma RoundIsProper(p: Progress, position: nat, e: Ready, callbacks: Callbacks)
    requires forall n | 0 <= n < |p.trace| :: p.trace[n].position < position
    ensures var t := Handle(p, position, e, callbacks).trace;
            |p.trace| <= |t| && t[..|p.trace|] == p.trace &&
            forall n | |p.trace| <= n < |t| :: t[n].position == position && Proper(t, n, e, callbacks)
  {
  }

  /** The trace so far stays as proper as it was when the next rounds add to it. */
  lemma ProperExtends(s: seq<Invocation>, t: seq<Invocation>, n: nat, e: Ready, callbacks: Callbacks)
    requires n < |s| <= |t| && t[..|s|] == s && Proper(s, n, e, callbacks)
    requires forall i | |s| <= i < |t| :: t[i].position != s[n].position
    ensures t[n] == s[n] && Proper(t, n, e, callbacks)
  {
    assert forall i | 0 <= i < |s| :: s[i] == t[..|s|][i] == t[i];
  }

  /** The `n`-th invocation is for an event of the batch, and proper. */
  predicate Justified(t: seq<Invocation>, n: nat, batch: seq<Ready>, callbacks: Callbacks)
    requires n < |t|
  {
    t[n].position < |batch| && Proper(t, n, batch[t[n].position], callbacks)
  }

  predicate AllJustified(t: seq<Invocation>, batch: seq<Ready>, callbacks: Callbacks) {
    forall n | 0 <= n < |t| :: Justified(t, n, batch, callbacks)
  }

  /**
   Batch safety: whatever is in the batch and whatever the callbacks add, remove or re-register
   on the way, each chain of callbacks starts on the object that is at that moment in the table
   under the event's exact key; each callback is invoked only if the object asks for the event at
   that moment; and a read callback is followed by the write callback exactly when the view it
   left behind still asks for that.
   */
  lemma {:induction false} BatchIsProper(v: View, batch: seq<Ready>, callbacks: Callbacks)
    ensures AllJustified(HandleAll(v, batch, callbacks).trace, batch, callbacks)
  {
    if batch != [] {
      var m := |batch| - 1;
      var q := HandleAll(v, batch[..m], callbacks);
      BatchIsProper(v, batch[..m], callbacks);
      forall n | 0 <= n < |q.trace| ensures q.trace[n].position < m {
        assert Justified(q.trace, n, batch[..m], callbacks);
      }
      RoundIsProper(q, m, batch[m], callbacks);
      var t := Handle(q, m, batch[m], callbacks).trace;
      forall n | 0 <= n < |t| ensures Justified(t, n, batch, callbacks) {
        if n < |q.trace| {
          assert Justified(q.trace, n, batch[..m], callbacks);
          ProperExtends(q.trace, t, n, batch[q.trace[n].position], callbacks);
        }
      }
    }
  }

  /** The event at `position` led to that callback. */
  predicate Invoked(t: seq<Invocation>, position: nat, which: Which) {
    exists n :: 0 <= n < |t| && t[n].position == position && t[n].which == which
  }

  /** The callbacks that a round which starts at `p` owes the event `e` on the object `o`. */
  predicate Owed(p: Progress, position: nat, e: Ready, o: nat, callbacks: Callbacks, which: Which) {
    match which
    case Error => e.err
    case Read => ReadDue(p.view, e, o)
    case Write =>
      var left := if ReadDue(p.view, e, o) then Invoke(p, Read, position, o, callbacks).view else p.view;
      WriteDue(left, e, o)
  }

  lemma SameInvocations(s: seq<Invocation>, t: seq<Invocation>, position: nat, which: Which)
    requires |s| <= |t| && t[..|s|] == s && forall n | |s| <= n < |t| :: t[n].position != position
    ensures Invoked(s, position, which) <==> Invoked(t, position, which)
  {
    assert forall n | 0 <= n < |s| :: s[n] == t[..|s|][n] == t[n];
  }

  /** A round makes exactly the invocations it owes. */
  lemma RoundIsComplete(p: Progress, position: nat, e: Ready, callbacks: Callbacks, which: Which)
    requires forall n | 0 <= n < |p.trace| :: p.trace[n].position < position
    ensures Invoked(Handle(p, position, e, callbacks).trace, position, which) <==>
            e.key in p.view.table && Owed(p, position, e, p.view.table[e.key], callbacks, which)
  {
    var t := Handle(p, position, e, callbacks).trace;
    RoundIsProper(p, position, e, callbacks);
    assert forall n | 0 <= n < |p.trace| :: p.trace[n] == t[..|p.trace|][n] == t[n];
    if e.key in p.view.table && Owed(p, position, e, p.view.table[e.key], callbacks, which) {
      assert t[if which == Write then |t| - 1 else |p.trace|].which == which;
    }
  }

  /** Over the whole batch, an event leads to exactly the callbacks that its round owes it. */
  lemma {:induction false} BatchIsOwed(v: View, batch: seq<Ready>, callbacks: Callbacks, position: nat,
                                       which: Which)
    requires position < |batch|
    ensures var p := HandleAll(v, batch[..position], callbacks);
            var e := batch[position];
            Invoked(HandleAll(v, batch, callbacks).trace, position, which) <==>
            e.key in p.view.table && Owed(p, position, e, p.view.table[e.key], callbacks, which)
  {
    var m := |batch| - 1;
    var q := HandleAll(v, batch[..m], callbacks);
    BatchIsProper(v, batch[..m], callbacks);
    forall n | 0 <= n < |q.trace| ensures q.trace[n].position < m {
      assert Justified(q.trace, n, batch[..m], callbacks);
    }
    if position == m {
      RoundIsComplete(q, m, batch[m], callbacks, which);
    } else {
      BatchIsOwed(v, batch[..m], callbacks, position, which);
      assert batch[..m][..position] == batch[..position];
      RoundIsProper(q, m, batch[m], callbacks);
      SameInvocations(q.trace, HandleAll(v, batch, callbacks).trace, position, which);
    }
  }

  /** The first `n` invocations are those for events before `position`. */
  predicate Before(t: seq<Invocation>, n: nat, position: nat) {
    && n <= |t|
    && (forall i | 0 <= i < n :: t[i].position < position)
    && (forall i | n <= i < |t| :: t[i].position >= position)
  }

  /** What there is to see after the first `n` invocations: what the last of them left. */
  function Seen(v: View, t: seq<Invocation>, n: nat, callbacks: Callbacks): View
    requires n <= |t|
  {
    if n == 0 then v else callbacks(n - 1, t[n - 1])
  }

  lemma {:induction false} SeenLast(v: View, batch: seq<Ready>, callbacks: Callbacks)
    ensures var p := HandleAll(v, batch, callbacks); p.view == Seen(v, p.trace, |p.trace|, callbacks)
  {
    if batch != [] {
      SeenLast(v, batch[..|batch| - 1], callbacks);
    }
  }

  lemma {:induction false} Splits(v: View, batch: seq<Ready>, callbacks: Callbacks, position: nat)
    requires position <= |batch|
    ensures var s, t := HandleAll(v, batch[..position], callbacks).trace, HandleAll(v, batch, callbacks).trace;
            |s| <= |t| && t[..|s|] == s && Before(t, |s|, position) && Before(t, |t|, |batch|)
  {
    if position == |batch| {
      assert batch[..position] == batch;
      BatchIsProper(v, batch, callbacks);
      var t := HandleAll(v, batch, callbacks).trace;
      forall n | 0 <= n < |t| ensures t[n].position < |batch| {
        assert Justified(t, n, batch, callbacks);
      }
    } else {
      var m := |batch| - 1;
      var q := HandleAll(v, batch[..m], callbacks);
      Splits(v, batch[..m], callbacks, position);
      assert batch[..m][..position] == batch[..position];
      RoundIsProper(q, m, batch[m], callbacks);
      var t := HandleAll(v, batch, callbacks).trace;
      assert forall n | 0 <= n < |q.trace| :: q.trace[n] == t[..|q.trace|][n] == t[n];
    }
  }

  lemma OneSplit(t: seq<Invocation>, m: nat, n: nat, position: nat)
    requires Before(t, m, position) && Before(t, n, position)
    ensures m == n
  {
    assert m < |t| ==> (m < n <==> t[m].position < position);
    assert n < |t| ==> (n < m <==> t[n].position < position);
  }

  lemma SeenBefore(v: View, s: seq<Invocation>, t: seq<Invocation>, callbacks: Callbacks)
    requires |s| <= |t| && t[..|s|] == s
    ensures Seen(v, t, |s|, callbacks) == Seen(v, s, |s|, callbacks)
  {
    assert forall i | 0 <= i < |s| :: s[i] == t[..|s|][i] == t[i];
  }

  /**
   What the event at `position` has led to in the trace `t`, whose first `n` invocations are for
   earlier events. An error leads to the error callback; any other event with EPOLLIN or EPOLLHUP to
   the read callback, and one with EPOLLOUT or EPOLLHUP to the write callback, if the object is in the
   table under the event's key, asks for it with its mask and has the callback set, in the state the
   earlier callbacks left; for the write callback, in the state the event's own read callback left.
   */
  predicate Settled(v: View, batch: seq<Ready>, callbacks: Callbacks, t: seq<Invocation>, position: nat, n: nat)
    requires position < |batch| && n <= |t|
  {
    var e, u := batch[position], Seen(v, t, n, callbacks);
    if e.key !in u.table then
      !Invoked(t, position, Error) && !Invoked(t, position, Read) && !Invoked(t, position, Write)
    else
      var o := u.table[e.key];
      && (Invoked(t, position, Error) <==> e.err)
      && (Invoked(t, position, Read) <==>
            !e.err && (e.input || e.hup) && o in u.masks && u.masks[o] & 1 != 0 && o in u.readers)
      && (Invoked(t, position, Write) <==>
            var left := if Invoked(t, position, Read) && n < |t| then callbacks(n, t[n]) else u;
            !e.err && (e.output || e.hup) && o in left.masks && left.masks[o] & 2 != 0 && o in left.writers)
  }

  /** Nothing is lost and nothing else happens: each event of a batch leads to just the callbacks it should. */
  lemma BatchIsComplete(v: View, batch: seq<Ready>, callbacks: Callbacks, position: nat, n: nat)
    requires position < |batch| && Before(HandleAll(v, batch, callbacks).trace, n, position)
    ensures Settled(v, batch, callbacks, HandleAll(v, batch, callbacks).trace, position, n)
  {
    hide HandleAll, Before, Seen, Invoked;
    var s, t := HandleAll(v, batch[..position], callbacks).trace, HandleAll(v, batch, callbacks).trace;
    Splits(v, batch, callbacks, position);
    OneSplit(t, n, |s|, position);
    SeenLast(v, batch[..position], callbacks);
    SeenBefore(v, s, t, callbacks);
    BatchIsOwed(v, batch, callbacks, position, Error);
    BatchIsOwed(v, batch, callbacks, position, Read);
    BatchIsOwed(v, batch, callbacks, position, Write);
    FirstIsFirst(v, batch, callbacks, position);
  }

  /** An event's read callback is the first of its invocations. */
  lemma FirstIsFirst(v: View, batch: seq<Ready>, callbacks: Callbacks, position: nat)
    requires position < |batch|
    ensures var p, t := HandleAll(v, batch[..position], callbacks), HandleAll(v, batch, callbacks).trace;
            var e := batch[position];
            e.key in p.view.table && Owed(p, position, e, p.view.table[e.key], callbacks, Read) ==>
              |p.trace| < |t| && t[|p.trace|] == Invocation(Read, position, p.view.table[e.key], p.view)
  {
    var p := HandleAll(v, batch[..position], callbacks);
    var next := batch[..position + 1];
    assert next[..position] == batch[..position] && next[position] == batch[position];
    assert HandleAll(v, next, callbacks) == Handle(p, position, batch[position], callbacks);
    Splits(v, batch, callbacks, position + 1);
    var s, t := HandleAll(v, next, callbacks).trace, HandleAll(v, batch, callbacks).trace;
    assert forall i | 0 <= i < |s| :: t[..|s|][i] == t[i] == s[i];
  }

  // ---- when callbacks deregister what they remove -----------------------------------------

  /** An object with a mask is in the table. */
  ghost predicate Tidy(v: View) {
    forall o | o in v.masks && v.masks[o] != 0 :: o in v.table.Values
  }

  /** Callbacks leave the view tidy; the object they are invoked on keeps its key while it has a mask. */
  ghost predicate TidyCallbacks(callbacks: Callbacks) {
    forall n: nat, i: Invocation :: Tidy(i.view) ==> TidyAfter(i, callbacks(n, i))
  }

  ghost predicate TidyAfter(i: Invocation, left: View) {
    Tidy(left) &&
    forall key | OnLive(i, key) && (left.Reads(i.target) || left.Writes(i.target)) ::
      key in left.table && left.table[key] == i.target
  }

  lemma RoundIsLive(p: Progress, position: nat, e: Ready, callbacks: Callbacks)
    requires TidyCallbacks(callbacks) && Tidy(p.view)
    ensures Tidy(Handle(p, position, e, callbacks).view)
    ensures var t := Handle(p, position, e, callbacks).trace;
            |p.trace| <= |t| && t[..|p.trace|] == p.trace &&
            forall n | |p.trace| <= n < |t| :: t[n].position == position && OnLive(t[n], e.key)
  {
    if e.key in p.view.table {
      var o := p.view.table[e.key];
      var r := Invocation(if e.err then Error else Read, position, o, p.view);
      assert OnLive(r, e.key) && TidyAfter(r, callbacks(|p.trace|, r));
      var w := Invocation(Write, position, o, p.view);
      assert TidyAfter(w, callbacks(|p.trace|, w));
      var w2 := Invocation(Write, position, o, callbacks(|p.trace|, r));
      assert TidyAfter(w2, callbacks(|p.trace| + 1, w2));
    }
  }

  predicate AllLive(t: seq<Invocation>, batch: seq<Ready>) {
    forall n | 0 <= n < |t| :: t[n].position < |batch| && OnLive(t[n], batch[t[n].position].key)
  }

  /** Then no callback at all is ever invoked on an object that has left the table. */
  lemma {:induction false} BatchIsLive(v: View, batch: seq<Ready>, callbacks: Callbacks)
    requires TidyCallbacks(callbacks) && Tidy(v)
    ensures Tidy(HandleAll(v, batch, callbacks).view)
    ensures AllLive(HandleAll(v, batch, callbacks).trace, batch)
  {
    if batch != [] {
      var m := |batch| - 1;
      var q := HandleAll(v, batch[..m], callbacks);
      BatchIsLive(v, batch[..m], callbacks);
      RoundIsLive(q, m, batch[m], callbacks);
      var t := Handle(q, m, batch[m], callbacks).trace;
      forall n | 0 <= n < |t| ensures t[n].position < |batch| && OnLive(t[n], batch[t[n].position].key) {
        if n < |q.trace| {
          assert q.trace[n] == t[..|q.trace|][n] == t[n];
        }
      }
    }
  }
}
