/** Interest masks: what the poller records in an object and what it tells the kernel. */
module Poller {
  import opened Types

  const READ_EVENT: bv32 := 1
  const WRITE_EVENT: bv32 := 2
  const INVALID_SOCKET := -1

  datatype Call = RegisterRead | RegisterWrite | DeregisterRead | DeregisterWrite | DeregisterObject

  /** One entry of the kernel's interest table. */
  datatype Interest = Interest(key: UInt32, input: bool, output: bool)

  /** The object's mask and the kernel's table after a call, and whether `epoll_ctl` accepted it. */
  datatype Outcome = Outcome(mask: bv32, kernel: map<int, Interest>, ok: bool)

  function InterestIn(key: UInt32, mask: bv32): Interest {
    Interest(key, mask & READ_EVENT != 0, mask & WRITE_EVENT != 0)
  }

  /** The mask a call asks for. */
  function Wanted(mask: bv32, call: Call): bv32 {
    match call
    case RegisterRead => mask | READ_EVENT
    case RegisterWrite => mask | WRITE_EVENT
    case DeregisterRead => mask ^ READ_EVENT
    case DeregisterWrite => mask ^ WRITE_EVENT
    case DeregisterObject => 0
  }

  /** Which `epoll_ctl` command follows from the masks, and what comes of it: an invalid socket is refused. */
  function Perform(mask: bv32, kernel: map<int, Interest>, socket: int, key: UInt32, call: Call): Outcome {
    var wanted := Wanted(mask, call);
    if socket == INVALID_SOCKET then
      Outcome(wanted, kernel, false)
    else if wanted == 0 then
      Outcome(0, kernel - {socket}, socket in kernel)
    else if mask != 0 then
      Outcome(wanted, if socket in kernel then kernel[socket := InterestIn(key, wanted)] else kernel, socket in kernel)
    else
      Outcome(wanted, if socket in kernel then kernel else kernel[socket := InterestIn(key, wanted)], socket !in kernel)
  }

  // ---- the methods ------------------------------------------------------------------------

  class IOObject {
    var key: UInt32
    var socket: int
    var events: bv32

    constructor (key: UInt32, socket: int)
      ensures this.key == key && this.socket == socket && events == 0
    {
      this.key, this.socket, events := key, socket, 0;
    }
  }

  class EPoller {
    /** The kernel's side of `_epfd`. */
    var kernel: map<int, Interest>

    constructor ()
      ensures kernel == map[]
    {
      kernel := map[];
    }

    /** `EPOLL_CTL_ADD` fails on a socket that is in the table; like the others, also on one that is invalid. */
    method CtlAdd(socket: int, event: Interest) returns (ok: bool)
      modifies this
      ensures ok == (socket != INVALID_SOCKET && socket !in old(kernel))
      ensures kernel == if ok then old(kernel)[socket := event] else old(kernel)
    {
      ok := socket != INVALID_SOCKET && socket !in kernel;
      if ok {
        kernel := kernel[socket := event];
      }
    }

    /** `EPOLL_CTL_MOD` fails on a socket that is not in the table. */
    method CtlMod(socket: int, event: Interest) returns (ok: bool)
      modifies this
      ensures ok == (socket != INVALID_SOCKET && socket in old(kernel))
      ensures kernel == if ok then old(kernel)[socket := event] else old(kernel)
    {
      ok := socket != INVALID_SOCKET && socket in kernel;
      if ok {
        kernel := kernel[socket := event];
      }
    }

    /** So does `EPOLL_CTL_DEL`. */
    method CtlDel(socket: int) returns (ok: bool)
      modifies this
      ensures ok == (socket != INVALID_SOCKET && socket in old(kernel))
      ensures kernel == if ok then old(kernel) - {socket} else old(kernel)
    {
      ok := socket != INVALID_SOCKET && socket in kernel;
      if ok {
        kernel := kernel - {socket};
      }
    }

    method UpdateObject(o: IOObject, events: bv32) returns (ok: bool)
      modifies this, o`events
      ensures forall call | Wanted(old(o.events), call) == events ::
                Outcome(o.events, kernel, ok) == Perform(old(o.events), old(kernel), o.socket, o.key, call)
    {
      if events == 0 {
        ok := RemoveObject(o);
        return;
      }
      var event := Interest(o.key, events & READ_EVENT != 0, events & WRITE_EVENT != 0);
      if o.events != 0 {
        o.events := events;
        ok := CtlMod(o.socket, event);
      } else {
        o.events := events;
        ok := CtlAdd(o.socket, event);
      }
    }

    method RemoveObject(o: IOObject) returns (ok: bool)
      modifies this, o`events
      ensures o.events == 0 && ok == (o.socket != INVALID_SOCKET && o.socket in old(kernel))
      ensures kernel == if ok then old(kernel) - {o.socket} else old(kernel)
    {
      o.events := 0;
      ok := CtlDel(o.socket);
    }

    method RegisterReadHandler(o: IOObject) returns (ok: bool)
      modifies this, o`events
      ensures Outcome(o.events, kernel, ok) == Perform(old(o.events), old(kernel), o.socket, o.key, RegisterRead)
      ensures o.events & 1 != 0 && o.events & 2 == old(o.events) & 2
    {
      ok := UpdateObject(o, o.events | READ_EVENT);
    }

    method RegisterWriteHandler(o: IOObject) returns (ok: bool)
      modifies this, o`events
      ensures Outcome(o.events, kernel, ok) == Perform(old(o.events), old(kernel), o.socket, o.key, RegisterWrite)
      ensures o.events & 2 != 0 && o.events & 1 == old(o.events) & 1
    {
      ok := UpdateObject(o, o.events | WRITE_EVENT);
    }

    method DeregisterReadHandler(o: IOObject) returns (ok: bool)
      modifies this, o`events
      ensures Outcome(o.events, kernel, ok) == Perform(old(o.events), old(kernel), o.socket, o.key, DeregisterRead)
      ensures (o.events & 1 != 0 <==> old(o.events) & 1 == 0) && o.events & 2 == old(o.events) & 2
    {
      ok := UpdateObject(o, o.events ^ READ_EVENT);
    }

    method DeregisterWriteHandler(o: IOObject) returns (ok: bool)
      modifies this, o`events
      ensures Outcome(o.events, kernel, ok) == Perform(old(o.events), old(kernel), o.socket, o.key, DeregisterWrite)
      ensures (o.events & 2 != 0 <==> old(o.events) & 2 == 0) && o.events & 1 == old(o.events) & 1
    {
      ok := UpdateObject(o, o.events ^ WRITE_EVENT);
    }

    method Deregister(o: IOObject) returns (ok: bool)
      modifies this, o`events
      ensures Outcome(o.events, kernel, ok) == Perform(old(o.events), old(kernel), o.socket, o.key, DeregisterObject)
    {
      ok := RemoveObject(o);
    }
  }

  // ---- all objects together ---------------------------------------------------------------

  datatype Entry = Entry(socket: int, mask: bv32)

  /** The objects by key, and the kernel's table. */
  datatype State = State(objects: map<UInt32, Entry>, kernel: map<int, Interest>)

  /** What can happen between two polls; a socket changes only while its object is not registered. */
  datatype Event =
    | Created(key: UInt32, socket: int)
    | Rebound(key: UInt32, socket: int)
    | Dropped(key: UInt32)
    | Called(key: UInt32, call: Call)

  /** No object but `key` has this socket, or it is none. */
  predicate Unshared(s: State, key: UInt32, socket: int) {
    socket == INVALID_SOCKET || forall k | k in s.objects && k != key :: s.objects[k].socket != socket
  }

  predicate Enabled(s: State, e: Event) {
    match e
    case Created(k, f) => k !in s.objects && Unshared(s, k, f)
    case Rebound(k, f) => k in s.objects && s.objects[k].mask == 0 && Unshared(s, k, f)
    case Dropped(k) => k in s.objects && s.objects[k].mask == 0
    case Called(k, call) => k in s.objects
  }

  function Next(s: State, e: Event): State
    requires Enabled(s, e)
  {
    match e
    case Created(k, f) => s.(objects := s.objects[k := Entry(f, 0)])
    case Rebound(k, f) => s.(objects := s.objects[k := Entry(f, 0)])
    case Dropped(k) => s.(objects := s.objects - {k})
    case Called(k, call) =>
      var o := Perform(s.objects[k].mask, s.kernel, s.objects[k].socket, k, call);
      State(s.objects[k := s.objects[k].(mask := o.mask)], o.kernel)
  }

  /** The step makes no call, or one whose `epoll_ctl` succeeds. */
  predicate Accepted(s: State, e: Event)
    requires Enabled(s, e)
  {
    e.Called? ==> Perform(s.objects[e.key].mask, s.kernel, s.objects[e.key].socket, e.key, e.call).ok
  }

  /** The kernel can watch this object: its socket is valid. */
  predicate Watchable(s: State, k: UInt32)
    requires k in s.objects
  {
    s.objects[k].socket != INVALID_SOCKET
  }

  /** Every object with a mask and a valid socket is in the table, under its key and mask. */
  ghost predicate Listed(s: State) {
    forall k | k in s.objects && s.objects[k].mask != 0 && Watchable(s, k) ::
      s.objects[k].socket in s.kernel && s.kernel[s.objects[k].socket] == InterestIn(k, s.objects[k].mask)
  }

  /** The socket `f` of the table is that of an object with a mask. */
  ghost predicate Owns(s: State, k: UInt32, f: int) {
    k in s.objects && s.objects[k].socket == f && s.objects[k].mask != 0
  }

  ghost predicate Owned(s: State) {
    INVALID_SOCKET !in s.kernel && forall f | f in s.kernel :: Owns(s, s.kernel[f].key, f)
  }

  ghost predicate Apart(s: State) {
    forall k | k in s.objects :: Unshared(s, k, s.objects[k].socket)
  }

  /** The table holds exactly the valid sockets with a mask, under their objects' keys and masks. */
  ghost predicate Agreement(s: State) {
    Listed(s) && Owned(s) && Apart(s)
  }

  lemma OwnerIsUnique(s: State, j: UInt32, k: UInt32, f: int)
    requires Apart(s) && f != INVALID_SOCKET && j in s.objects && k in s.objects
    requires s.objects[j].socket == f && s.objects[k].socket == f
    ensures j == k
  {
    assert Unshared(s, k, s.objects[k].socket);
  }

  /** In an agreeing state mask and socket tell whether the socket is in the table. */
  lemma InTableIffMasked(s: State, k: UInt32)
    requires Agreement(s) && k in s.objects
    ensures s.objects[k].socket in s.kernel <==> s.objects[k].mask != 0 && Watchable(s, k)
  {
    var f := s.objects[k].socket;
    if f in s.kernel {
      assert Owns(s, s.kernel[f].key, f);
      OwnerIsUnique(s, s.kernel[f].key, k, f);
    }
  }

  /** The table with the entry of socket `f` set, or removed when the mask is zero. */
  function Entered(kernel: map<int, Interest>, f: int, k: UInt32, mask: bv32): map<int, Interest> {
    if f == INVALID_SOCKET then kernel else if mask == 0 then kernel - {f} else kernel[f := InterestIn(k, mask)]
  }

  /** The one call that no agreeing kernel accepts, whatever the socket. */
  predicate Redundant(mask: bv32, call: Call) { mask == 0 && call == DeregisterObject }

  /** As long as mask and table agree, every other command on a valid socket sets the entry as it should. */
  lemma PerformAgreed(mask: bv32, kernel: map<int, Interest>, f: int, k: UInt32, call: Call)
    requires f in kernel <==> mask != 0 && f != INVALID_SOCKET
    ensures var o := Perform(mask, kernel, f, k, call);
            o.mask == Wanted(mask, call) && o.kernel == Entered(kernel, f, k, o.mask) &&
            (o.ok <==> f != INVALID_SOCKET && !Redundant(mask, call))
  {
    assert mask == 0 ==> mask | READ_EVENT != 0 && mask | WRITE_EVENT != 0;
    assert mask == 0 ==> mask ^ READ_EVENT != 0 && mask ^ WRITE_EVENT != 0;
  }

  function Masked(s: State, k: UInt32, mask: bv32): State
    requires k in s.objects
  {
    State(s.objects[k := s.objects[k].(mask := mask)], Entered(s.kernel, s.objects[k].socket, k, mask))
  }

  lemma MaskedApart(s: State, k: UInt32, mask: bv32)
    requires Apart(s) && k in s.objects
    ensures Apart(Masked(s, k, mask))
  {
    var t := Masked(s, k, mask);
    forall j | j in t.objects ensures Unshared(t, j, t.objects[j].socket) {
      assert Unshared(s, j, s.objects[j].socket);
    }
  }

  lemma MaskedListed(s: State, k: UInt32, mask: bv32)
    requires Agreement(s) && k in s.objects
    ensures Listed(Masked(s, k, mask))
  {
    var t := Masked(s, k, mask);
    forall j | j in t.objects && t.objects[j].mask != 0 && Watchable(t, j)
      ensures t.objects[j].socket in t.kernel && t.kernel[t.objects[j].socket] == InterestIn(j, t.objects[j].mask)
    {
      if j != k {
        assert Unshared(s, j, s.objects[j].socket);
      }
    }
  }

  lemma MaskedOwned(s: State, k: UInt32, mask: bv32)
    requires Agreement(s) && k in s.objects
    ensures Owned(Masked(s, k, mask))
  {
    var t := Masked(s, k, mask);
    forall f | f in t.kernel ensures Owns(t, t.kernel[f].key, f) {
      if f != s.objects[k].socket {
        assert Owns(s, s.kernel[f].key, f);
      }
    }
  }

  lemma CallKeeps(s: State, k: UInt32, call: Call)
    requires Agreement(s) && Enabled(s, Called(k, call))
    ensures Agreement(Next(s, Called(k, call)))
    ensures Accepted(s, Called(k, call)) <==> Watchable(s, k) && !Redundant(s.objects[k].mask, call)
  {
    InTableIffMasked(s, k);
    var mask := Wanted(s.objects[k].mask, call);
    PerformAgreed(s.objects[k].mask, s.kernel, s.objects[k].socket, k, call);
    MaskedApart(s, k, mask);
    MaskedListed(s, k, mask);
    MaskedOwned(s, k, mask);
    assert Next(s, Called(k, call)) == Masked(s, k, mask);
  }

  /** Objects without a mask come, go and change their sockets unnoticed by the kernel. */
  lemma BindKeeps(s: State, k: UInt32, f: int)
    requires Agreement(s) && Unshared(s, k, f) && (k in s.objects ==> s.objects[k].mask == 0)
    ensures Agreement(s.(objects := s.objects[k := Entry(f, 0)]))
  {
    var t := s.(objects := s.objects[k := Entry(f, 0)]);
    forall j | j in t.objects ensures Unshared(t, j, t.objects[j].socket) {
      if j != k {
        assert Unshared(s, j, s.objects[j].socket);
      }
    }
    forall g | g in t.kernel ensures Owns(t, t.kernel[g].key, g) {
      assert Owns(s, s.kernel[g].key, g);
    }
  }

  lemma DropKeeps(s: State, k: UInt32)
    requires Agreement(s) && k in s.objects && s.objects[k].mask == 0
    ensures Agreement(s.(objects := s.objects - {k}))
  {
    var t := s.(objects := s.objects - {k});
    forall j | j in t.objects ensures Unshared(t, j, t.objects[j].socket) {
      assert Unshared(s, j, s.objects[j].socket);
    }
    forall g | g in t.kernel ensures Owns(t, t.kernel[g].key, g) {
      assert Owns(s, s.kernel[g].key, g);
    }
  }

  /** Why the kernel refuses a call: the socket is invalid, or it deregisters an object that has no mask. */
  predicate Refusable(s: State, e: Event)
    requires Enabled(s, e)
  {
    e.Called? && (!Watchable(s, e.key) || Redundant(s.objects[e.key].mask, e.call))
  }

  /**
   Every call keeps the table in step with the masks, whichever bits were set before it; and
   `epoll_ctl` refuses a call exactly for an invalid socket or an object that is deregistered twice.
   */
  lemma StepKeeps(s: State, e: Event)
    requires Agreement(s) && Enabled(s, e)
    ensures Agreement(Next(s, e))
    ensures Accepted(s, e) <==> !Refusable(s, e)
  {
    match e
    case Called(k, call) => CallKeeps(s, k, call);
    case Created(k, f) => BindKeeps(s, k, f);
    case Rebound(k, f) => BindKeeps(s, k, f);
    case Dropped(k) => DropKeeps(s, k);
  }

  /** The states a run of events leads through. */
  ghost predicate IsRun(states: seq<State>, events: seq<Event>) {
    && |states| == |events| + 1 && states[0] == State(map[], map[])
    && forall i | 0 <= i < |events| :: Enabled(states[i], events[i]) && states[i + 1] == Next(states[i], events[i])
  }

  /**
   Kernel agreement, over every run: a socket is in the kernel's table exactly when its object's
   mask is not zero and the socket is valid, and then under that mask; and the only calls the kernel
   refuses are those for an invalid socket and those that deregister an object that has no mask.
   */
  lemma {:induction false} KernelAgreement(states: seq<State>, events: seq<Event>, n: nat)
    requires IsRun(states, events) && n < |states|
    ensures Agreement(states[n])
    ensures forall k | k in states[n].objects ::
              states[n].objects[k].socket in states[n].kernel <==> states[n].objects[k].mask != 0 && Watchable(states[n], k)
    ensures n < |events| ==> (Accepted(states[n], events[n]) <==> !Refusable(states[n], events[n]))
  {
    if n > 0 {
      KernelAgreement(states, events, n - 1);
      StepKeeps(states[n - 1], events[n - 1]);
    }
    forall k | k in states[n].objects
      ensures states[n].objects[k].socket in states[n].kernel <==> states[n].objects[k].mask != 0 && Watchable(states[n], k)
    {
      InTableIffMasked(states[n], k);
    }
    if n < |events| {
      StepKeeps(states[n], events[n]);
    }
  }

  /** What a connector without a socket leads to: a mask that the kernel knows nothing of, until it is deregistered. */
  lemma InvalidSocketLeavesMask(s: State, k: UInt32)
    requires Agreement(s) && k in s.objects && s.objects[k] == Entry(INVALID_SOCKET, 0)
    ensures var t := Next(s, Called(k, RegisterWrite));
            && !Accepted(s, Called(k, RegisterWrite)) && t.kernel == s.kernel
            && t.objects[k] == Entry(INVALID_SOCKET, WRITE_EVENT)
            && Next(t, Called(k, DeregisterObject)) == s
  {
    var t := Next(s, Called(k, RegisterWrite));
    assert 0 | WRITE_EVENT == WRITE_EVENT;
    assert t.objects[k := Entry(INVALID_SOCKET, 0)] == s.objects;
  }

  // ---- what an object has asked for -------------------------------------------------------

  /**
   After `n` events: does the object ask for this kind of event? It does since the last `register`
   call for it, each later `deregister` call turns that round, and a new start or `deregisterObject`
   ends it.
   */
  ghost function Asks(events: seq<Event>, key: UInt32, register: Call, deregister: Call, n: nat): bool
    requires n <= |events|
  {
    if n == 0 then false else
    var before := Asks(events, key, register, deregister, n - 1);
    match events[n - 1]
    case Created(k, _) => k != key && before
    case Rebound(k, _) => k != key && before
    case Dropped(k) => k != key && before
    case Called(k, call) =>
      if k != key then before
      else if call == register then true
      else if call == deregister then !before
      else call != DeregisterObject && before
  }

  ghost function AsksRead(events: seq<Event>, key: UInt32, n: nat): bool
    requires n <= |events|
  {
    Asks(events, key, RegisterRead, DeregisterRead, n)
  }

  ghost function AsksWrite(events: seq<Event>, key: UInt32, n: nat): bool
    requires n <= |events|
  {
    Asks(events, key, RegisterWrite, DeregisterWrite, n)
  }

  function Bits(read: bool, write: bool): bv32 { (if read then 1 else 0) | (if write then 2 else 0) }

  lemma CallsOnBits(read: bool, write: bool, call: Call)
    ensures Wanted(Bits(read, write), call) ==
            match call
            case RegisterRead => Bits(true, write)
            case RegisterWrite => Bits(read, true)
            case DeregisterRead => Bits(!read, write)
            case DeregisterWrite => Bits(read, !write)
            case DeregisterObject => Bits(false, false)
    ensures Bits(read, write) == 0 <==> !read && !write
    ensures Bits(read, write) & 1 != 0 <==> read
    ensures Bits(read, write) & 2 != 0 <==> write
  {
  }

  /** A call leaves its object with the mask it wants, and starting anew leaves it with none. */
  lemma MaskAfter(s: State, e: Event, key: UInt32)
    requires Enabled(s, e) && key in Next(s, e).objects
    ensures key in s.objects || (e.Created? && e.key == key)
    ensures Next(s, e).objects[key].mask ==
            if e.key != key then s.objects[key].mask
            else if e.Called? then Wanted(s.objects[key].mask, e.call)
            else 0
  {
    hide Wanted;
  }

  /** In every run an object's mask says what the calls on it have asked for. */
  lemma {:induction false} MaskFollowsCalls(states: seq<State>, events: seq<Event>, n: nat, key: UInt32)
    requires IsRun(states, events) && n < |states| && key in states[n].objects
    ensures states[n].objects[key].mask == Bits(AsksRead(events, key, n), AsksWrite(events, key, n))
  {
    hide Bits, Wanted, Next, Enabled;
    if n > 0 {
      var s, e := states[n - 1], events[n - 1];
      CallsOnBits(false, false, DeregisterObject);
      MaskAfter(s, e, key);
      if key in s.objects {
        MaskFollowsCalls(states, events, n - 1, key);
        if e.Called? {
          CallsOnBits(AsksRead(events, key, n - 1), AsksWrite(events, key, n - 1), e.call);
        }
      }
    }
  }

  /**
   So does the kernel's table: in every run a valid socket is in it exactly while its object asks for
   reading or writing, and then for just that.
   */
  lemma TableFollowsCalls(states: seq<State>, events: seq<Event>, n: nat, key: UInt32)
    requires IsRun(states, events) && n < |states| && key in states[n].objects
    requires states[n].objects[key].socket != INVALID_SOCKET
    ensures var f, kernel := states[n].objects[key].socket, states[n].kernel;
            && (f in kernel <==> AsksRead(events, key, n) || AsksWrite(events, key, n))
            && (f in kernel ==> kernel[f] == Interest(key, AsksRead(events, key, n), AsksWrite(events, key, n)))
  {
    MaskFollowsCalls(states, events, n, key);
    CallsOnBits(AsksRead(events, key, n), AsksWrite(events, key, n), DeregisterObject);
    KernelAgreement(states, events, n);
  }

  // ---- what registering and deregistering mean --------------------------------------------

  /** Registering a handler sets its bit and leaves the other, whatever the mask. */
  lemma RegisterSetsBits(mask: bv32)
    ensures Wanted(mask, RegisterRead) & 1 != 0 && Wanted(mask, RegisterRead) & 2 == mask & 2
    ensures Wanted(mask, RegisterWrite) & 2 != 0 && Wanted(mask, RegisterWrite) & 1 == mask & 1
  {
  }

  /** Deregistering a handler clears its bit exactly when the bit is set. */
  lemma DeregisterClearsSetBits(mask: bv32)
    ensures Wanted(mask, DeregisterRead) & READ_EVENT == 0 <==> mask & READ_EVENT != 0
    ensures Wanted(mask, DeregisterWrite) & WRITE_EVENT == 0 <==> mask & WRITE_EVENT != 0
    ensures Wanted(mask, DeregisterRead) & WRITE_EVENT == mask & WRITE_EVENT
    ensures Wanted(mask, DeregisterWrite) & READ_EVENT == mask & READ_EVENT
  {
  }

  /** `tcpSend` relies on the other case: "deregistering" a clear write bit asks the kernel for write events. */
  lemma DeregisterCanRegister(mask: bv32, kernel: map<int, Interest>, socket: int, key: UInt32)
    requires mask & WRITE_EVENT == 0 && socket != INVALID_SOCKET && (socket in kernel <==> mask != 0)
    ensures Perform(mask, kernel, socket, key, DeregisterWrite) ==
            Perform(mask, kernel, socket, key, RegisterWrite) ==
            Outcome(mask | WRITE_EVENT, kernel[socket := Interest(key, mask & READ_EVENT != 0, true)], true)
  {
    assert mask ^ WRITE_EVENT == mask | WRITE_EVENT;
    assert (mask | WRITE_EVENT) & WRITE_EVENT != 0 && (mask | WRITE_EVENT) & READ_EVENT == mask & READ_EVENT;
  }
}
