/** Nodes whose connector the owner closes before it has come up. */
module Abandonment {
  import opened Types
  import opened Engine
  import opened EngineFacts
  import opened World
  import opened WorldFacts
  import Runs

  /** Node `c` is connecting under `u`, but the engine has forgotten the connector. */
  ghost predicate Abandoned(x: Engine, u: UInt32, c: UInt32) {
    At(x, u).protocol == None && At(x, u).connecting == Some(c)
  }

  /** What engine `i` does about another uid leaves the abandoned one as it is. */
  lemma OthersKeepAbandoned(w: World, e: nat, f: Engine, v: UInt32, i: nat, u: UInt32, c: UInt32)
    requires e < |w.engines| && i < |w.engines| && Abandoned(w.engines[i], u, c)
    requires OnlyTouches(w.engines[e], f, v) && (e == i ==> v != u)
    ensures Abandoned(w.engines[e := f][i], u, c)
  {
    if e == i {
      assert At(w.engines[e], u) == At(f, u);
    }
  }

  lemma OwnerKeepsAbandoned(w: World, s: Step, i: nat, u: UInt32, c: UInt32)
    requires Inv(w) && InRange(w) && Enabled(w, s) && i < |w.engines| && Abandoned(w.engines[i], u, c)
    requires s.DoSetupNode? || s.DoListen? || s.DoConnect? || s.DoConnectNode? || s.DoReconnect?
    ensures i < |Next(w, s).engines| && Abandoned(Next(w, s).engines[i], u, c)
  {
    hide Next, Enabled, OnlyTouches;
    OwnerActs(w, s);
    assert Consistent(w.engines[i]) && u in w.engines[i].connecting;
    OthersKeepAbandoned(w, s.e, Next(w, s).engines[s.e], s.answer, i, u, c);
  }

  lemma CloseKeepsAbandoned(w: World, e: nat, v: UInt32, i: nat, u: UInt32, c: UInt32)
    requires e < |w.engines| && i < |w.engines| && Abandoned(w.engines[i], u, c)
    ensures Abandoned(Ran(w, e, Close(w.engines[e], v)).engines[i], u, c)
  {
    ClosingTouches(w.engines[e], v);
    if e != i || v != u {
      OthersKeepAbandoned(w, e, Close(w.engines[e], v).engine, v, i, u, c);
    }
  }

  /** No end of a link that the network still reports about is an abandoned connector. */
  lemma AbandonedIsNoEnd(w: World, j: nat, i: nat, u: UInt32, c: UInt32)
    requires Inv(w) && InRange(w) && i < |w.engines| && Abandoned(w.engines[i], u, c) && j < |w.links|
    ensures var l := w.links[j];
            && (l.a == i && l.cu == u ==> l.aSide != Idle && l.aSide != Up)
            && (l.b == i && l.su == u ==> l.bSide == Free)
  {
    assert Sound(w, w.links[j]);
  }

  lemma ReportKeepsAbandoned(w: World, s: Step, i: nat, u: UInt32, c: UInt32)
    requires Inv(w) && InRange(w) && Enabled(w, s) && i < |w.engines| && Abandoned(w.engines[i], u, c)
    requires s.ReportConnected? || s.ReportAccepted? || s.ReportLost? || s.ReportClosed?
    ensures i < |Next(w, s).engines| && Abandoned(Next(w, s).engines[i], u, c)
  {
    hide Inv, Next, Abandoned, OnlyTouches, OnConnected, OnAccept, ConnectorLost, SessionClosed;
    var l := w.links[s.l];
    ReportActs(w, s);
    AbandonedIsNoEnd(w, s.l, i, u, c);
    match s {
      case ReportConnected(_) => OthersKeepAbandoned(w, l.a, OnConnected(w.engines[l.a], l.cu).engine, l.cu, i, u, c);
      case ReportAccepted(_) =>
        OthersKeepAbandoned(w, l.b, OnAccept(w.engines[l.b], l.su, l.via).engine, l.su, i, u, c);
      case ReportLost(_) => OthersKeepAbandoned(w, l.a, ConnectorLost(w.engines[l.a], l.cu), l.cu, i, u, c);
      case ReportClosed(_) => OthersKeepAbandoned(w, l.b, SessionClosed(w.engines[l.b], l.su), l.su, i, u, c);
    }
  }

  lemma DeliveryKeepsAbandoned(w: World, s: Step, i: nat, u: UInt32, c: UInt32)
    requires Inv(w) && InRange(w) && Enabled(w, s) && i < |w.engines| && Abandoned(w.engines[i], u, c)
    requires s.DeliverToA? || s.DeliverToB?
    ensures i < |Next(w, s).engines| && Abandoned(Next(w, s).engines[i], u, c)
  {
    hide Inv, Next, Abandoned, OnlyTouches, OnPacket;
    var l := w.links[s.l];
    DeliveryActs(w, s);
    AbandonedIsNoEnd(w, s.l, i, u, c);
    if s.DeliverToA? {
      OthersKeepAbandoned(w, l.a, OnPacket(w.engines[l.a], l.cu, l.toA[0]).engine, l.cu, i, u, c);
    } else {
      OthersKeepAbandoned(w, l.b, OnPacket(w.engines[l.b], l.su, l.toB[0]).engine, l.su, i, u, c);
    }
  }

  lemma StepKeepsAbandoned(w: World, s: Step, i: nat, u: UInt32, c: UInt32)
    requires Inv(w) && InRange(w) && Enabled(w, s) && i < |w.engines| && Abandoned(w.engines[i], u, c)
    ensures i < |Next(w, s).engines| && Abandoned(Next(w, s).engines[i], u, c)
  {
    hide Inv, Abandoned;
    match s
    case DoClose(e, v) => CloseKeepsAbandoned(w, e, v, i, u, c);
    case ReportConnected(_) => ReportKeepsAbandoned(w, s, i, u, c);
    case ReportAccepted(_) => ReportKeepsAbandoned(w, s, i, u, c);
    case ReportLost(_) => ReportKeepsAbandoned(w, s, i, u, c);
    case ReportClosed(_) => ReportKeepsAbandoned(w, s, i, u, c);
    case DeliverToA(_) => DeliveryKeepsAbandoned(w, s, i, u, c);
    case DeliverToB(_) => DeliveryKeepsAbandoned(w, s, i, u, c);
    case Establish(_, _, _, _, _) =>
    case Cut(_, _, _) =>
    case Release(_, _) =>
    case ReportFailed(_) =>
    case _ => OwnerKeepsAbandoned(w, s, i, u, c);
  }

  lemma {:induction false} StaysAbandoned(states: seq<World>, steps: seq<Step>, k: nat, n: nat, i: nat, u: UInt32,
                                          c: UInt32)
    requires Runs.IsRun(states, steps) && k <= n <= |steps|
    requires i < |states[k].engines| && Abandoned(states[k].engines[i], u, c)
    ensures i < |states[n].engines| && Abandoned(states[n].engines[i], u, c)
    decreases n - k
  {
    hide Inv, Abandoned, Next, Enabled;
    if k < n {
      StaysAbandoned(states, steps, k, n - 1, i, u, c);
      Runs.RunKeepsInv(states, steps, n - 1);
      StepKeepsAbandoned(states[n - 1], steps[n - 1], i, u, c);
    }
  }

  // ---- how a node comes to be abandoned ---------------------------------------------------

  lemma OthersStay(e: Engine, f: Engine, v: UInt32, u: UInt32, c: UInt32)
    requires OnlyTouches(e, f, v) && u != v
    ensures Abandoned(f, u, c) <==> Abandoned(e, u, c)
  {
    assert At(e, u) == At(f, u);
  }

  lemma CallsDoNotAbandon(e: Engine, u: UInt32, c: UInt32, code: UInt32, typ: UInt32, info: Text, confirmed: bool)
    requires u == 0 || Unused(e, u)
    requires Consistent(e)
    ensures !Abandoned(SetupNode(e, code, typ, info, u, confirmed), u, c)
    ensures !Abandoned(Listen(e, u), u, c) && !Abandoned(Connect(e, u), u, c)
    ensures !Abandoned(ConnectNode(e, code, typ, u), u, c) && !Abandoned(Reconnect(e, code, u), u, c)
  {
  }

  /** Closing a uid that is available leaves no node connecting under it. */
  lemma ClosedIsNotConnecting(e: Engine, u: UInt32)
    requires Consistent(e) && u in e.protocols && e.protocols[u].available
    ensures u !in Close(e, u).engine.connecting
  {
  }

  lemma PacketsDoNotAbandon(e: Engine, u: UInt32, p: Packet, c: UInt32)
    requires Consistent(e) && u in e.protocols && e.protocols[u].available
    ensures !Abandoned(OnPacket(e, u, p).engine, u, c)
  {
    hide Consistent, Close;
    ClosedIsNotConnecting(e, u);
    if u in e.connecting && PongBranch(e, u, p) in {WrongNode, Duplicate} {
      PongRemovesNothing(e, u);
    }
  }

  /** Only what engine `i` does about `u` itself can make a node abandoned under `u`. */
  lemma ActsAbandon(w: World, s: Step, e: nat, f: Engine, v: UInt32, i: nat, u: UInt32, c: UInt32)
    requires InRange(w) && Enabled(w, s) && Acts(w, s, e, f, v)
    requires i < |w.engines| && !Abandoned(w.engines[i], u, c)
    requires v == u ==> !Abandoned(f, u, c)
    ensures |Next(w, s).engines| == |w.engines| && !Abandoned(Next(w, s).engines[i], u, c)
  {
    hide Next, Enabled, OnlyTouches;
    if e == i && v != u {
      OthersStay(w.engines[e], f, v, u, c);
    }
  }

  lemma OwnerAbandonsNothing(w: World, s: Step, i: nat, u: UInt32, c: UInt32)
    requires Inv(w) && InRange(w) && Enabled(w, s) && i < |w.engines| && !Abandoned(w.engines[i], u, c)
    requires s.DoSetupNode? || s.DoListen? || s.DoConnect? || s.DoConnectNode? || s.DoReconnect?
    ensures |Next(w, s).engines| == |w.engines| && !Abandoned(Next(w, s).engines[i], u, c)
  {
    hide Next, Enabled, Acts, Abandoned, Consistent, Unused, SetupNode, Listen, Connect, ConnectNode, Reconnect;
    OwnerActs(w, s);
    var x, v := w.engines[s.e], s.answer;
    assert Consistent(x);
    match s {
      case DoSetupNode(e, code, typ, info, _, ok) =>
        CallsDoNotAbandon(x, v, c, code, typ, info, ok);
        ActsAbandon(w, s, e, SetupNode(x, code, typ, info, v, ok), v, i, u, c);
      case DoListen(e, _) =>
        CallsDoNotAbandon(x, v, c, 0, 0, [], true);
        ActsAbandon(w, s, e, Listen(x, v), v, i, u, c);
      case DoConnect(e, _) =>
        CallsDoNotAbandon(x, v, c, 0, 0, [], true);
        ActsAbandon(w, s, e, Connect(x, v), v, i, u, c);
      case DoConnectNode(e, code, typ, _) =>
        CallsDoNotAbandon(x, v, c, code, typ, [], true);
        ActsAbandon(w, s, e, ConnectNode(x, code, typ, v), v, i, u, c);
      case DoReconnect(e, code, _) =>
        CallsDoNotAbandon(x, v, c, code, 0, [], true);
        ActsAbandon(w, s, e, Reconnect(x, code, v), v, i, u, c);
    }
  }

  lemma ReportsDoNotAbandon(x: Engine, l: Link, c: UInt32)
    requires Consistent(x)
    ensures EndA(x, l) && l.aSide == Idle ==> !Abandoned(OnConnected(x, l.cu).engine, l.cu, c)
    ensures EndB(x, l) && l.bSide == Idle ==> !Abandoned(OnAccept(x, l.su, l.via).engine, l.su, c)
    ensures EndA(x, l) && l.aSide == Up ==> !Abandoned(ConnectorLost(x, l.cu), l.cu, c)
    ensures EndB(x, l) && (l.bSide == Up || l.bSide == Down) ==> !Abandoned(SessionClosed(x, l.su), l.su, c)
  {
    if EndA(x, l) && l.aSide == Idle {
      assert At(x, l.cu).protocol.Some?;
    }
    if EndB(x, l) && l.bSide == Idle {
      assert At(x, l.su) == NOWHERE;
    }
    if EndA(x, l) && l.aSide == Up {
      assert At(x, l.cu).protocol == Some(Protocol(Connector, true));
      LostAt(x, l.cu);
    }
    if EndB(x, l) && (l.bSide == Up || l.bSide == Down) {
      ClosedHandled(x, l);
      SessionClosedAt(x, l.su);
    }
  }

  lemma ReportAbandonsNothing(w: World, s: Step, i: nat, u: UInt32, c: UInt32)
    requires Inv(w) && InRange(w) && Enabled(w, s) && i < |w.engines| && !Abandoned(w.engines[i], u, c)
    requires s.ReportConnected? || s.ReportAccepted? || s.ReportLost? || s.ReportClosed?
    ensures |Next(w, s).engines| == |w.engines| && !Abandoned(Next(w, s).engines[i], u, c)
  {
    hide Next, Acts, Abandoned, Consistent, EndA, EndB, OnConnected, OnAccept, ConnectorLost, SessionClosed;
    var l := w.links[s.l];
    var x, y := w.engines[l.a], w.engines[l.b];
    assert Sound(w, l) && Consistent(x) && Consistent(y);
    ReportActs(w, s);
    ReportsDoNotAbandon(x, l, c);
    ReportsDoNotAbandon(y, l, c);
    match s {
      case ReportConnected(_) => ActsAbandon(w, s, l.a, OnConnected(x, l.cu).engine, l.cu, i, u, c);
      case ReportAccepted(_) => ActsAbandon(w, s, l.b, OnAccept(y, l.su, l.via).engine, l.su, i, u, c);
      case ReportLost(_) => ActsAbandon(w, s, l.a, ConnectorLost(x, l.cu), l.cu, i, u, c);
      case ReportClosed(_) => ActsAbandon(w, s, l.b, SessionClosed(y, l.su), l.su, i, u, c);
    }
  }

  lemma DeliveryAbandonsNothing(w: World, s: Step, i: nat, u: UInt32, c: UInt32)
    requires Inv(w) && InRange(w) && Enabled(w, s) && i < |w.engines| && !Abandoned(w.engines[i], u, c)
    requires s.DeliverToA? || s.DeliverToB?
    ensures |Next(w, s).engines| == |w.engines| && !Abandoned(Next(w, s).engines[i], u, c)
  {
    hide Next, Acts, Abandoned, Consistent, OnPacket;
    var l := w.links[s.l];
    var x, y := w.engines[l.a], w.engines[l.b];
    assert Sound(w, l) && Consistent(x) && Consistent(y);
    DeliveryActs(w, s);
    if s.DeliverToA? {
      assert At(x, l.cu).protocol == Some(Protocol(Connector, true));
      PacketsDoNotAbandon(x, l.cu, l.toA[0], c);
      ActsAbandon(w, s, l.a, OnPacket(x, l.cu, l.toA[0]).engine, l.cu, i, u, c);
    } else {
      assert At(y, l.su).protocol == Some(Protocol(Session, true));
      PacketsDoNotAbandon(y, l.su, l.toB[0], c);
      ActsAbandon(w, s, l.b, OnPacket(y, l.su, l.toB[0]).engine, l.su, i, u, c);
    }
  }

  /** The owner closes connector `u` of engine `i`, which has not come up, while node `c` is connecting under it. */
  ghost predicate Abandons(w: World, s: Step, i: nat, u: UInt32, c: UInt32) {
    && s == DoClose(i, u) && i < |w.engines|
    && u in w.engines[i].protocols && w.engines[i].protocols[u] == Protocol(Connector, false)
    && u in w.engines[i].connecting && w.engines[i].connecting[u] == c
  }

  lemma CloseAbandons(w: World, e: nat, v: UInt32, i: nat, u: UInt32, c: UInt32)
    requires Inv(w) && e < |w.engines| && i < |w.engines| && !Abandoned(w.engines[i], u, c)
    ensures Abandoned(Ran(w, e, Close(w.engines[e], v)).engines[i], u, c) <==> Abandons(w, DoClose(e, v), i, u, c)
  {
    var x := w.engines[e];
    assert Consistent(x);
    if e == i && v != u {
      ClosingTouches(x, v);
      OthersStay(x, Close(x, v).engine, v, u, c);
    } else if e == i && u in x.protocols && x.protocols[u].available {
      ClosedIsNotConnecting(x, u);
    }
  }

  /** A step makes a node abandoned exactly if it closes, in its owner's name, a connector that has not come up. */
  lemma StepAbandonsIff(w: World, s: Step, i: nat, u: UInt32, c: UInt32)
    requires Inv(w) && InRange(w) && Enabled(w, s) && i < |w.engines| && !Abandoned(w.engines[i], u, c)
    ensures |Next(w, s).engines| == |w.engines|
    ensures Abandoned(Next(w, s).engines[i], u, c) <==> Abandons(w, s, i, u, c)
  {
    hide Inv, Abandoned;
    match s
    case DoClose(e, v) => CloseAbandons(w, e, v, i, u, c);
    case ReportConnected(_) => ReportAbandonsNothing(w, s, i, u, c);
    case ReportAccepted(_) => ReportAbandonsNothing(w, s, i, u, c);
    case ReportLost(_) => ReportAbandonsNothing(w, s, i, u, c);
    case ReportClosed(_) => ReportAbandonsNothing(w, s, i, u, c);
    case DeliverToA(_) => DeliveryAbandonsNothing(w, s, i, u, c);
    case DeliverToB(_) => DeliveryAbandonsNothing(w, s, i, u, c);
    case Establish(_, _, _, _, _) =>
    case Cut(_, _, _) =>
    case Release(_, _) =>
    case ReportFailed(_) =>
    case _ => OwnerAbandonsNothing(w, s, i, u, c);
  }

  /** In every run a node is abandoned only because of such a step, and has been ever since. */
  lemma {:induction false} AbandonedByClose(states: seq<World>, steps: seq<Step>, n: nat, i: nat, u: UInt32, c: UInt32)
    returns (k: nat)
    requires Runs.IsRun(states, steps) && n <= |steps|
    requires i < |states[n].engines| && Abandoned(states[n].engines[i], u, c)
    ensures k < n && Abandons(states[k], steps[k], i, u, c)
    ensures forall m | k < m <= n :: i < |states[m].engines| && Abandoned(states[m].engines[i], u, c)
  {
    hide Inv, Abandons, Next, Enabled;
    if i < |states[0].engines| {
      NotFromTheStart(states[0], i, u, c);
    }
    var w, s := states[n - 1], steps[n - 1];
    Runs.RunKeepsInv(states, steps, n - 1);
    SameEngines(w, s);
    if Abandoned(w.engines[i], u, c) {
      k := AbandonedByClose(states, steps, n - 1, i, u, c);
    } else {
      StepAbandonsIff(w, s, i, u, c);
      k := n - 1;
    }
  }

  lemma NotFromTheStart(w: World, i: nat, u: UInt32, c: UInt32)
    requires Initial(w) && i < |w.engines|
    ensures !Abandoned(w.engines[i], u, c)
  {
  }

  /** The timer passes over an abandoned node: its uid is not zero. */
  lemma AbandonedIsNotDialled(x: Engine, u: UInt32, c: UInt32)
    requires Consistent(x) && Abandoned(x, u, c)
    ensures u in x.connecting && x.connecting[u] == c && c in x.directory && x.directory[c].uid == u != 0
    ensures forall answer :: Reconnect(x, c, answer) == x
  {
    assert u in x.connecting;
  }

  /**
   In every run: once the engine has forgotten a connector while its node is connecting under it, as
   `close` does to one that has not come up, the node stays connecting under that uid in all later
   states, its uid never becomes zero, and so no sweep of the timer ever dials it again.
   */
  lemma AbandonedForever(states: seq<World>, steps: seq<Step>, k: nat, n: nat, i: nat, u: UInt32, c: UInt32)
    requires Runs.IsRun(states, steps) && k <= n <= |steps|
    requires i < |states[k].engines| && Abandoned(states[k].engines[i], u, c)
    ensures i < |states[n].engines| && Abandoned(states[n].engines[i], u, c)
    ensures var x := states[n].engines[i];
            && u in x.connecting && x.connecting[u] == c && c in x.directory && x.directory[c].uid == u != 0
            && forall answer :: Reconnect(x, c, answer) == x
  {
    StaysAbandoned(states, steps, k, n, i, u, c);
    Runs.RunKeepsInv(states, steps, n);
    AbandonedIsNotDialled(states[n].engines[i], u, c);
  }

  /**
   And a connecting node is abandoned by closing its connector exactly when the connector has not
   come up; otherwise it is free to be dialled again.
   */
  lemma AbandonedIffNotUp(x: Engine, u: UInt32)
    requires Consistent(x) && u in x.connecting && u in x.protocols
    ensures Abandoned(Close(x, u).engine, u, x.connecting[u]) <==> !x.protocols[u].available
  {
    if x.protocols[u].available {
      assert u !in Close(x, u).engine.connecting;
    }
  }

  /** Two calls of the owner are enough for that. */
  lemma AbandonedIsReachable(code: UInt32, typ: UInt32, u: UInt32) returns (w: World)
    requires u != 0
    ensures Runs.Reachable(w) && |w.engines| == 1 && Abandoned(w.engines[0], u, code)
  {
    var v := World([START], []);
    var x := ConnectNode(START, code, typ, u);
    Runs.ReachableStart(v);
    Runs.ReachableNext(v, DoConnectNode(0, code, typ, u));
    assert [START][0 := x] == [x];
    assert Next(v, DoConnectNode(0, code, typ, u)) == World([x], []);
    Runs.ReachableNext(World([x], []), DoClose(0, u));
    w := Next(World([x], []), DoClose(0, u));
  }
}
