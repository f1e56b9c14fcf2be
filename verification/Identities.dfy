/** Which node an engine is, and which sessions it accepts, in every run. */
module Identities {
  import opened Types
  import opened Engine
  import opened EngineFacts
  import opened CallFacts
  import opened World
  import opened WorldFacts
  import Runs

  /** The listener's uid, 0 without one, and what the engine says it is. */
  datatype Identity = Identity(uid: UInt32, code: UInt32, typ: UInt32, info: Text)

  function IdentityOf(x: Engine): Identity { Identity(x.nodeUid, x.nodeCode, x.nodeType, x.nodeInfo) }

  /** The node's uid is that of an open listener. */
  predicate Listening(x: Engine) {
    x.nodeUid != 0 ==> x.nodeUid in x.protocols && x.protocols[x.nodeUid] == Protocol(Listener, true)
  }

  // ---- single calls -----------------------------------------------------------------------

  /** Identity and sessions of `f` are those of `x`, whose listener is still open. */
  predicate Same(x: Engine, f: Engine) {
    f.accepted <= x.accepted && IdentityOf(f) == IdentityOf(x) && Listening(f)
  }

  lemma SetsUp(x: Engine, code: UInt32, typ: UInt32, info: Text, u: UInt32, ok: bool)
    requires Listening(x) && (u == 0 || Unused(x, u))
    ensures var f := SetupNode(x, code, typ, info, u, ok);
            && f.accepted == x.accepted && Listening(f)
            && IdentityOf(f) == if x.nodeUid == 0 then Identity(if ok then u else 0, code, typ, info) else IdentityOf(x)
  {
  }

  lemma Dials(x: Engine, code: UInt32, typ: UInt32, u: UInt32)
    requires Listening(x) && (u == 0 || Unused(x, u))
    ensures Same(x, Listen(x, u)) && Same(x, Connect(x, u))
    ensures Same(x, ConnectNode(x, code, typ, u)) && Same(x, Reconnect(x, code, u))
  {
  }

  /** Closing the node's listener, and nothing else that is closed, takes the identity away. */
  lemma OwnerCloses(x: Engine, u: UInt32)
    requires Consistent(x) && Listening(x)
    ensures var f := Close(x, u).engine;
            && f.accepted <= x.accepted && Listening(f)
            && IdentityOf(f) == if u == x.nodeUid && u != 0 then Identity(0, 0, 0, []) else IdentityOf(x)
  {
    if u in x.protocols && x.protocols[u] == Protocol(Listener, true) {
      ClosedListener(x, u);
    }
  }

  /** A call about a uid that is no listener's. */
  lemma Reports(x: Engine, u: UInt32)
    requires Listening(x) && (u in x.protocols ==> x.protocols[u].kind != Listener)
    ensures Same(x, OnConnected(x, u).engine) && Same(x, ConnectorLost(x, u)) && Same(x, SessionClosed(x, u))
    ensures Same(x, Close(x, u).engine)
  {
  }

  lemma Packets(x: Engine, u: UInt32, p: Packet)
    requires Listening(x) && (u in x.protocols ==> x.protocols[u].kind != Listener)
    ensures Same(x, OnPacket(x, u, p).engine)
  {
    hide Close;
    Reports(x, u);
    Reports(x.(accepted := x.accepted - {u}), u);
  }

  lemma Accepting(x: Engine, u: UInt32, from: UInt32)
    requires Consistent(x) && Listening(x) && Unused(x, u)
    ensures var f := OnAccept(x, u, from).engine;
            && IdentityOf(f) == IdentityOf(x) && Listening(f)
            && f.accepted == if from == x.nodeUid && from != 0 then x.accepted + {u} else x.accepted
  {
    AcceptsNodesSessions(x, u, from);
  }

  // ---- steps ------------------------------------------------------------------------------

  /** What engine `i` is after the step: `setupNode` without a listener sets that, closing the listener ends it. */
  function IdentityAfter(x: Engine, s: Step, i: nat): Identity {
    match s
    case DoSetupNode(e, code, typ, info, u, ok) =>
      if e == i && x.nodeUid == 0 then Identity(if ok then u else 0, code, typ, info) else IdentityOf(x)
    case DoClose(e, u) => if e == i && u == x.nodeUid && u != 0 then Identity(0, 0, 0, []) else IdentityOf(x)
    case _ => IdentityOf(x)
  }

  /** In this step engine `i` is told of session `u`, taken by the listener that makes it the node it is. */
  ghost predicate Accepts(w: World, s: Step, i: nat, u: UInt32) {
    && s.ReportAccepted? && s.l < |w.links| && i < |w.engines|
    && w.links[s.l].b == i && w.links[s.l].su == u
    && w.links[s.l].via == w.engines[i].nodeUid != 0
  }

  ghost predicate AllListening(w: World) {
    forall i | 0 <= i < |w.engines| :: Listening(w.engines[i])
  }

  /** What a step means for identity and sessions of engine `i`. */
  ghost predicate Settles(w: World, s: Step, v: World, i: nat) {
    i < |w.engines| == |v.engines| &&
    var x, y := w.engines[i], v.engines[i];
    && Listening(y) && IdentityOf(y) == IdentityAfter(x, s, i)
    && forall u | u in y.accepted :: u in x.accepted || Accepts(w, s, i, u)
  }

  lemma OwnerSettles(w: World, s: Step, i: nat)
    requires Inv(w) && InRange(w) && Enabled(w, s) && AllListening(w) && i < |w.engines|
    requires s.DoSetupNode? || s.DoListen? || s.DoConnect? || s.DoConnectNode? || s.DoReconnect?
    ensures Settles(w, s, Next(w, s), i)
  {
    hide Next, Enabled, OnlyTouches, Listening, SetupNode, Listen, Connect, ConnectNode, Reconnect;
    OwnerActs(w, s);
    var x, v := w.engines[s.e], s.answer;
    match s {
      case DoSetupNode(_, code, typ, info, _, ok) => SetsUp(x, code, typ, info, v, ok);
      case DoListen(_, _) => Dials(x, 0, 0, v);
      case DoConnect(_, _) => Dials(x, 0, 0, v);
      case DoConnectNode(_, code, typ, _) => Dials(x, code, typ, v);
      case DoReconnect(_, code, _) => Dials(x, code, 0, v);
    }
  }

  /** The uids the network reports about are no listeners'. */
  lemma NoListeners(w: World, l: Link)
    requires Sound(w, l)
    ensures var x := w.engines[l.a];
            l.aSide == Idle || l.aSide == Up ==> l.cu in x.protocols && x.protocols[l.cu].kind != Listener
    ensures var y := w.engines[l.b]; l.bSide != Free ==> (l.su in y.protocols ==> y.protocols[l.su].kind != Listener)
    ensures l.bSide == Idle ==> Unused(w.engines[l.b], l.su)
  {
    var x, y := w.engines[l.a], w.engines[l.b];
    assert l.aSide == Idle || l.aSide == Up ==> At(x, l.cu).protocol.Some?;
    assert l.bSide == Up ==> At(y, l.su).protocol == Some(Protocol(Session, true));
    assert l.bSide == Idle || l.bSide == Down ==> At(y, l.su) == NOWHERE;
  }

  lemma ReportSettles(w: World, s: Step, i: nat)
    requires Inv(w) && InRange(w) && Enabled(w, s) && AllListening(w) && i < |w.engines|
    requires s.ReportConnected? || s.ReportAccepted? || s.ReportLost? || s.ReportClosed?
    ensures Settles(w, s, Next(w, s), i)
  {
    hide Next, OnlyTouches, Listening, Consistent, EndA, EndB, OnConnected, OnAccept, ConnectorLost, SessionClosed;
    var l := w.links[s.l];
    var x, y := w.engines[l.a], w.engines[l.b];
    assert Sound(w, l) && Consistent(y);
    NoListeners(w, l);
    ReportActs(w, s);
    match s {
      case ReportConnected(_) => Reports(x, l.cu);
      case ReportAccepted(_) => Accepting(y, l.su, l.via);
      case ReportLost(_) => Reports(x, l.cu);
      case ReportClosed(_) => Reports(y, l.su);
    }
  }

  lemma DeliverySettles(w: World, s: Step, i: nat)
    requires Inv(w) && InRange(w) && Enabled(w, s) && AllListening(w) && i < |w.engines|
    requires s.DeliverToA? || s.DeliverToB?
    ensures Settles(w, s, Next(w, s), i)
  {
    hide Next, OnlyTouches, Listening, Consistent, EndA, EndB, OnPacket;
    var l := w.links[s.l];
    assert Sound(w, l);
    NoListeners(w, l);
    DeliveryActs(w, s);
    if s.DeliverToA? {
      Packets(w.engines[l.a], l.cu, l.toA[0]);
    } else {
      Packets(w.engines[l.b], l.su, l.toB[0]);
    }
  }

  lemma StepSettles(w: World, s: Step, i: nat)
    requires Inv(w) && InRange(w) && Enabled(w, s) && AllListening(w) && i < |w.engines|
    ensures Settles(w, s, Next(w, s), i)
  {
    hide Linked, Consistent, Listening, Close;
    match s
    case DoClose(e, u) =>
      assert Consistent(w.engines[e]);
      OwnerCloses(w.engines[e], u);
    case ReportConnected(_) => ReportSettles(w, s, i);
    case ReportAccepted(_) => ReportSettles(w, s, i);
    case ReportLost(_) => ReportSettles(w, s, i);
    case ReportClosed(_) => ReportSettles(w, s, i);
    case DeliverToA(_) => DeliverySettles(w, s, i);
    case DeliverToB(_) => DeliverySettles(w, s, i);
    case Establish(_, _, _, _, _) =>
    case Cut(_, _, _) =>
    case Release(_, _) =>
    case ReportFailed(_) =>
    case _ => OwnerSettles(w, s, i);
  }

  // ---- runs -------------------------------------------------------------------------------

  lemma {:induction false} RunListens(states: seq<World>, steps: seq<Step>, n: nat)
    requires Runs.IsRun(states, steps) && n <= |steps|
    ensures AllListening(states[n]) && |states[n].engines| == |states[0].engines|
  {
    hide Inv, Next, Enabled, Listening;
    if n == 0 {
      StartListens(states[0]);
    } else {
      var w, s := states[n - 1], steps[n - 1];
      RunListens(states, steps, n - 1);
      Runs.RunKeepsInv(states, steps, n - 1);
      SameEngines(w, s);
      forall i | 0 <= i < |states[n].engines| ensures Listening(states[n].engines[i]) {
        StepSettles(w, s, i);
      }
    }
  }

  lemma StartListens(w: World)
    requires Initial(w)
    ensures AllListening(w)
  {
  }

  /**
   In every run: an engine that is a node has an open listener; it becomes a node, or another one,
   only by `setupNode` while it has no listener, and stops being one only when that listener is closed.
   */
  lemma NodeIdentity(states: seq<World>, steps: seq<Step>, n: nat, i: nat)
    requires Runs.IsRun(states, steps) && n < |steps| && i < |states[n].engines|
    ensures i < |states[n + 1].engines|
    ensures var x, y := states[n].engines[i], states[n + 1].engines[i];
            && (x.nodeUid != 0 ==> x.nodeUid in x.protocols && x.protocols[x.nodeUid] == Protocol(Listener, true))
            && IdentityOf(y) == IdentityAfter(x, steps[n], i)
  {
    hide Inv, Next, Enabled;
    RunListens(states, steps, n);
    Runs.RunKeepsInv(states, steps, n);
    StepSettles(states[n], steps[n], i);
  }

  /**
   In every run: a session the engine accepts was taken earlier by the listener that was its node's at
   that moment, and has been accepted ever since.
   */
  lemma {:induction false} AcceptedByNode(states: seq<World>, steps: seq<Step>, n: nat, i: nat, u: UInt32)
    returns (k: nat)
    requires Runs.IsRun(states, steps) && n <= |steps|
    requires i < |states[n].engines| && u in states[n].engines[i].accepted
    ensures k < n && Accepts(states[k], steps[k], i, u)
    ensures forall m | k < m <= n :: i < |states[m].engines| && u in states[m].engines[i].accepted
  {
    hide Inv, Next, Enabled, Accepts, Listening;
    var was := if n == 0 then 0 else n - 1;
    RunListens(states, steps, n);
    RunListens(states, steps, was);
    assert states[0].engines[i].accepted == {};
    var w, s := states[n - 1], steps[n - 1];
    Runs.RunKeepsInv(states, steps, n - 1);
    StepSettles(w, s, i);
    if u in w.engines[i].accepted {
      k := AcceptedByNode(states, steps, n - 1, i, u);
    } else {
      k := n - 1;
    }
  }

  /** And every session such a listener takes is accepted at once. */
  lemma NodeAccepts(w: World, s: Step, i: nat, u: UInt32)
    requires Inv(w) && InRange(w) && AllListening(w) && Enabled(w, s) && Accepts(w, s, i, u)
    ensures i < |Next(w, s).engines| && u in Next(w, s).engines[i].accepted
  {
    var l := w.links[s.l];
    assert Sound(w, l) && Consistent(w.engines[i]);
    NoListeners(w, l);
    Accepting(w.engines[i], u, l.via);
  }
}
