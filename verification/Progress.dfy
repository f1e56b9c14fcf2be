/** A handshake whose packets are delivered: when it makes both engines peers, and when it does not. */
module Progress {
  import opened Types
  import opened Handshake
  import opened Engine
  import opened EngineFacts
  import opened World
  import opened WorldFacts
  import Runs

  /** What engine `x` sends for the connector `uid` once it is connected. */
  function PingOf(x: Engine, uid: UInt32): Hello
    requires uid in x.connecting && x.connecting[uid] in x.directory
  {
    var node := x.directory[x.connecting[uid]];
    Hello(x.nodeCode, x.nodeType, x.nodeInfo, node.code, node.typ)
  }

  /** What engine `x` answers to `p`. */
  function PongOf(x: Engine, p: Hello): Hello { Hello(x.nodeCode, x.nodeType, x.nodeInfo, p.fromCode, p.fromType) }

  lemma EngineAsks(x: Engine, l: Link)
    requires Consistent(x) && Traffic(l) && EndA(x, l) && l.aSide == Idle && !l.cut && l.cu in x.connecting
    ensures x.connecting[l.cu] in x.directory
    ensures var r, h := OnConnected(x, l.cu), PingOf(x, l.cu);
            && r.engine == x.(protocols := x.protocols[l.cu := Protocol(Connector, true)])
            && Affect(l.(aSide := Up), l.a, r.effect) == l.(aSide := Up, asked := Some(h), toB := [PingPacket(h)])
  {
    assert At(x, l.cu).protocol == Some(Protocol(Connector, false));
    UnpackPack(PingOf(x, l.cu));
  }

  /** A connecting node's link that comes up carries the Ping for it. */
  lemma Asked(w: World, i: nat)
    requires Inv(w) && InRange(w) && Enabled(w, ReportConnected(i))
    requires !w.links[i].cut && w.links[i].cu in w.engines[w.links[i].a].connecting
    ensures var l := w.links[i];
            var x := w.engines[l.a];
            var v := Next(w, ReportConnected(i));
            && x.connecting[l.cu] in x.directory
            && v.engines == w.engines[l.a := x.(protocols := x.protocols[l.cu := Protocol(Connector, true)])]
            && v.links == w.links[i := l.(aSide := Up, asked := Some(PingOf(x, l.cu)), toB := [PingPacket(PingOf(x, l.cu))])]
  {
    var l := w.links[i];
    assert Sound(w, l);
    EngineAsks(w.engines[l.a], l);
    var r := OnConnected(w.engines[l.a], l.cu);
    OneEnd(w, i, l.a, l.cu);
    ConnectedHandled(w.engines[l.a], l, r, Affect(l.(aSide := Up), l.a, r.effect));
    RanReaches(w, i, l.(aSide := Up), l.a, l.cu, r);
  }

  predicate SameIdentity(x: Engine, y: Engine) {
    y.nodeCode == x.nodeCode && y.nodeType == x.nodeType
  }

  lemma EngineAnswers(x: Engine, l: Link)
    requires Consistent(x) && Traffic(l) && EndB(x, l) && l.bSide == Up && l.toB != [] && !OwnsA(l, l.b, l.su)
    ensures l.asked.Some? && ReadHello(l.toB[0]) == l.asked
    ensures var p := l.asked.value;
            PingBranch(x, l.su, l.toB[0]) == Registers <==>
            l.su in x.accepted && p.toCode == x.nodeCode && p.toType == x.nodeType
    ensures var r := OnPacket(x, l.su, l.toB[0]);
            var m := Affect(l.(toB := l.toB[1..]), l.b, r.effect);
            if PingBranch(x, l.su, l.toB[0]) == Registers then SessionRegistered(x, l, r, m) else m == l.(toB := [], bSide := Down)
    ensures PingBranch(x, l.su, l.toB[0]) != Registers ==> l.su !in OnPacket(x, l.su, l.toB[0]).engine.peers
    ensures PingBranch(x, l.su, l.toB[0]) == Registers ==> SameIdentity(x, OnPacket(x, l.su, l.toB[0]).engine)
  {
    PingArrives(x, l);
    var r := HandlePing(x, l.su, l.toB[0]);
    var m := Affect(l.(toB := l.toB[1..]), l.b, r.effect);
    if PingBranch(x, l.su, l.toB[0]) == Registers {
      PingRegisters(x, l, r, m);
    } else {
      PingRejected(x, l, r, m);
      ClosedAt(x, l.su);
      assert At(r.engine, l.su).peer.None?;
    }
  }

  /** A Ping that arrives makes a peer exactly when the session was accepted for the node that was asked for. */
  lemma Answered(w: World, i: nat)
    requires Inv(w) && InRange(w) && Enabled(w, DeliverToB(i))
    ensures w.links[i].asked.Some?
    ensures var l := w.links[i];
            var p := l.asked.value;
            var x, v := w.engines[l.b], Next(w, DeliverToB(i));
            && |v.engines| == |w.engines| && |v.links| == |w.links|
            && (l.su in v.engines[l.b].peers <==> l.su in x.accepted && p.toCode == x.nodeCode && p.toType == x.nodeType)
            && (l.su in v.engines[l.b].peers ==>
                  && SameIdentity(w.engines[l.a], v.engines[l.a])
                  && v.engines[l.b].peers[l.su] == Own(Node(l.su, p.fromCode, p.fromType, p.info))
                  && v.links[i] == l.(toB := [], answered := Some(PongOf(x, p)),
                                      toA := if l.cut then [] else [PongPacket(PongOf(x, p))]))
            && (l.su !in v.engines[l.b].peers ==> v.links[i] == l.(toB := [], bSide := Down))
  {
    var l := w.links[i];
    assert Sound(w, l);
    OneEnd(w, i, l.b, l.su);
    EngineAnswers(w.engines[l.b], l);
    var r := OnPacket(w.engines[l.b], l.su, l.toB[0]);
    assert PingBranch(w.engines[l.b], l.su, l.toB[0]) == Registers ==> At(r.engine, l.su).peer.Some?;
    assert Next(w, DeliverToB(i)) == Ran(Relinked(w, i, l.(toB := l.toB[1..])), l.b, r);
  }

  lemma EngineConcludes(x: Engine, l: Link)
    requires Consistent(x) && Traffic(l) && EndA(x, l) && l.aSide == Up && l.toA != []
    ensures l.asked.Some? && l.answered.Some?
    ensures var q := l.answered.value;
            PongBranch(x, l.cu, l.toA[0]) == Registers <==> q.toCode == x.nodeCode && q.toType == x.nodeType
    ensures var r := OnPacket(x, l.cu, l.toA[0]);
            if PongBranch(x, l.cu, l.toA[0]) == Registers then PeerRegistered(x, l, r) else l.cu !in r.engine.peers
  {
    PongArrives(x, l);
    var r := HandlePong(x, l.cu, l.toA[0]);
    PongHandled(x, l, r, Affect(l.(toA := l.toA[1..]), l.a, r.effect));
    if PongBranch(x, l.cu, l.toA[0]) != Registers {
      assert At(x, l.cu).protocol.Some?;
      ClosedAt(x, l.cu);
      assert At(r.engine, l.cu).peer.None?;
    }
  }

  /** A Pong that arrives makes a peer exactly when the asker still is who it was when it asked. */
  lemma Concluded(w: World, i: nat)
    requires Inv(w) && InRange(w) && Enabled(w, DeliverToA(i))
    ensures w.links[i].asked.Some? && w.links[i].answered.Some?
    ensures var l := w.links[i];
            var p, q := l.asked.value, l.answered.value;
            var x, y := w.engines[l.a], Next(w, DeliverToA(i)).engines[l.a];
            && (l.cu in y.peers <==> p.fromCode == x.nodeCode && p.fromType == x.nodeType)
            && (l.cu in y.peers ==>
                  y.peers[l.cu] == Shared(p.toCode) && p.toCode in y.directory &&
                  y.directory[p.toCode] == Node(l.cu, q.fromCode, q.fromType, q.info))
  {
    var l := w.links[i];
    assert Sound(w, l);
    EngineConcludes(w.engines[l.a], l);
    var r := OnPacket(w.engines[l.a], l.cu, l.toA[0]);
    assert PongBranch(w.engines[l.a], l.cu, l.toA[0]) == Registers ==> At(r.engine, l.cu).peer.Some?;
    assert Next(w, DeliverToA(i)).engines[l.a] == r.engine;
  }

  /** Link `i` is up at its accepted session and about to be reported to the engine connecting with it. */
  ghost predicate Ready(w: World, i: nat) {
    && Inv(w) && InRange(w) && i < |w.links|
    && w.links[i].aSide == Idle && w.links[i].bSide == Up && !w.links[i].cut
    && w.links[i].cu in w.engines[w.links[i].a].connecting
    && w.links[i].su in w.engines[w.links[i].b].accepted
  }

  /** The world after the report and after the Ping's arrival. */
  lemma AskedAndAnswered(w: World, i: nat) returns (v: World, u: World)
    requires Ready(w, i)
    ensures Enabled(w, ReportConnected(i)) && v == Next(w, ReportConnected(i)) && Inv(v) && InRange(v)
    ensures Enabled(v, DeliverToB(i)) && u == Next(v, DeliverToB(i)) && Inv(u) && InRange(u)
    ensures |w.links| == |u.links| && |w.engines| == |u.engines|
    ensures var l := w.links[i];
            var x, y := w.engines[l.a], w.engines[l.b];
            && x.connecting[l.cu] in x.directory
            && (l.su in u.engines[l.b].peers <==>
                  y.nodeCode == PingOf(x, l.cu).toCode && y.nodeType == PingOf(x, l.cu).toType)
            && (l.su !in u.engines[l.b].peers ==> u.links[i].bSide == Down)
            && (l.su in u.engines[l.b].peers ==>
                  && SameIdentity(x, u.engines[l.a])
                  && u.engines[l.b].peers[l.su] == Own(Node(l.su, x.nodeCode, x.nodeType, x.nodeInfo))
                  && u.links[i].asked == Some(PingOf(x, l.cu)) && u.links[i].answered == Some(PongOf(y, PingOf(x, l.cu)))
                  && u.links[i].toA == [PongPacket(PongOf(y, PingOf(x, l.cu)))]
                  && u.links[i].aSide == Up && u.links[i].a == l.a && u.links[i].cu == l.cu && u.links[i].b == l.b && u.links[i].su == l.su)
  {
    Asked(w, i);
    StepKeeps(w, ReportConnected(i));
    v := Next(w, ReportConnected(i));
    LinkedInRange(v);
    Answered(v, i);
    StepKeeps(v, DeliverToB(i));
    u := Next(v, DeliverToB(i));
    LinkedInRange(u);
  }

  /**
   The handshake completes exactly when the accepted session's engine is the node the connector was
   made for: then the next two deliveries make each engine a peer of the other, under the code, type
   and info the other has; otherwise the session is closed at once.
   */
  lemma HandshakeCompletes(w: World, i: nat) returns (v: World, u: World)
    requires Ready(w, i)
    ensures Enabled(w, ReportConnected(i)) && v == Next(w, ReportConnected(i)) && InRange(v)
    ensures Enabled(v, DeliverToB(i)) && u == Next(v, DeliverToB(i)) && InRange(u)
    ensures |w.engines| == |u.engines|
    ensures var l := w.links[i];
            var x, y := w.engines[l.a], w.engines[l.b];
            x.connecting[l.cu] in x.directory &&
            var node := x.directory[x.connecting[l.cu]];
            if node.code == y.nodeCode && node.typ == y.nodeType then
              Enabled(u, DeliverToA(i)) &&
              var t := Next(u, DeliverToA(i));
              && |t.engines| == |u.engines|
              && l.su in u.engines[l.b].peers
              && u.engines[l.b].peers[l.su] == Own(Node(l.su, x.nodeCode, x.nodeType, x.nodeInfo))
              && l.cu in t.engines[l.a].peers && t.engines[l.a].peers[l.cu] == Shared(node.code)
              && node.code in t.engines[l.a].directory
              && t.engines[l.a].directory[node.code] == Node(l.cu, y.nodeCode, y.nodeType, y.nodeInfo)
            else l.su !in u.engines[l.b].peers && u.links[i].bSide == Down
  {
    v, u := AskedAndAnswered(w, i);
    var l := w.links[i];
    if l.su in u.engines[l.b].peers {
      Concluded(u, i);
    }
  }

  // ---- such a link can be reached ---------------------------------------------------------

  /** Engine 0 lists node `code`, which engine 1 is; uids 5, 6 and 9 are the network's answers. */
  function Lister(code: UInt32, typ: UInt32): Engine { ConnectNode(START, code, typ, 9) }

  function Listed(code: UInt32, typ: UInt32, info: Text): Engine { SetupNode(START, code, typ, info, 5, true) }

  lemma Listens(code: UInt32, typ: UInt32, info: Text)
    ensures var w, s := World([START, START], []), DoSetupNode(1, code, typ, info, 5, true);
            Initial(w) && InRange(w) && Enabled(w, s) && Next(w, s) == World([START, Listed(code, typ, info)], [])
  {
    assert [START, START][1 := Listed(code, typ, info)] == [START, Listed(code, typ, info)];
  }

  lemma Lists(code: UInt32, typ: UInt32, x: Engine)
    ensures var w, s := World([START, x], []), DoConnectNode(0, code, typ, 9);
            InRange(w) && Enabled(w, s) && Next(w, s) == World([Lister(code, typ), x], [])
  {
    assert [START, x][0 := Lister(code, typ)] == [Lister(code, typ), x];
  }

  lemma Establishes(code: UInt32, typ: UInt32, y: Engine, code': UInt32, typ': UInt32, info': Text)
    requires y == Listed(code', typ', info')
    ensures var w, s := World([Lister(code, typ), y], []), Establish(0, 9, 1, 5, 6);
            InRange(w) && Enabled(w, s) &&
            Next(w, s) == w.(links := [Link(0, 9, Idle, 1, 6, Idle, 5, [], [], false, None, None)])
  {
    assert y.protocols == map[5 := Protocol(Listener, true)];
    assert Unused(y, 6);
  }

  lemma Accepts(code: UInt32, typ: UInt32, code': UInt32, typ': UInt32, info': Text)
    ensures var y := Listed(code', typ', info');
            var w := World([Lister(code, typ), y], [Link(0, 9, Idle, 1, 6, Idle, 5, [], [], false, None, None)]);
            InRange(w) && Enabled(w, ReportAccepted(0)) &&
            Next(w, ReportAccepted(0)) == World([Lister(code, typ), OnAccept(y, 6, 5).engine], [w.links[0].(bSide := Up)])
  {
    var y := Listed(code', typ', info');
    assert y.protocols == map[5 := Protocol(Listener, true)];
    var r := OnAccept(y, 6, 5);
    assert r.effect == Nothing && 6 in r.engine.protocols;
    assert [Lister(code, typ), y][1 := r.engine] == [Lister(code, typ), r.engine];
  }

  lemma AcceptedIsReachable(code: UInt32, typ: UInt32, code': UInt32, typ': UInt32, info': Text) returns (w: World)
    ensures Runs.Reachable(w)
    ensures w == World([Lister(code, typ), OnAccept(Listed(code', typ', info'), 6, 5).engine],
                       [Link(0, 9, Idle, 1, 6, Up, 5, [], [], false, None, None)])
  {
    var x, y := Lister(code, typ), Listed(code', typ', info');
    var l := Link(0, 9, Idle, 1, 6, Idle, 5, [], [], false, None, None);
    Listens(code', typ', info');
    Lists(code, typ, y);
    Establishes(code, typ, y, code', typ', info');
    Accepts(code, typ, code', typ', info');
    Runs.ReachableStart(World([START, START], []));
    Runs.ReachableNext(World([START, START], []), DoSetupNode(1, code', typ', info', 5, true));
    Runs.ReachableNext(World([START, y], []), DoConnectNode(0, code, typ, 9));
    Runs.ReachableNext(World([x, y], []), Establish(0, 9, 1, 5, 6));
    Runs.ReachableNext(World([x, y], [l]), ReportAccepted(0));
    w := Next(World([x, y], [l]), ReportAccepted(0));
  }

  /** For any node there is a run to a link on which the handshake is about to start, and will complete. */
  lemma ReadyIsReachable(code: UInt32, typ: UInt32, info: Text) returns (w: World)
    ensures Runs.Reachable(w) && Ready(w, 0)
    ensures var x, y := w.engines[w.links[0].a], w.engines[w.links[0].b];
            w.links[0].cu in x.connecting && x.connecting[w.links[0].cu] in x.directory &&
            var node := x.directory[x.connecting[w.links[0].cu]];
            node.code == y.nodeCode == code && node.typ == y.nodeType == typ && y.nodeInfo == info
  {
    w := AcceptedIsReachable(code, typ, code, typ, info);
    Runs.ReachableKeepsInv(w);
  }

  // ---- a listener is not needed to be a node ----------------------------------------------

  /** The engine of the listed node after it has accepted session 6 and closed its listener. */
  function Unlistened(code: UInt32, typ: UInt32, info: Text): Engine {
    Close(OnAccept(Listed(code, typ, info), 6, 5).engine, 5).engine
  }

  lemma Closes(x: Engine, code: UInt32, typ: UInt32, info: Text, l: Link)
    requires l.a == 0 && l.b == 1 && l.su == 6
    ensures var w := World([x, OnAccept(Listed(code, typ, info), 6, 5).engine], [l]);
            InRange(w) && Enabled(w, DoClose(1, 5)) &&
            Next(w, DoClose(1, 5)) == World([x, Unlistened(code, typ, info)], [l])
    ensures Unlistened(code, typ, info).nodeUid == 0 && 6 in Unlistened(code, typ, info).accepted
    ensures Unlistened(code, typ, info).protocols == map[6 := Protocol(Session, true)]
  {
    var y := OnAccept(Listed(code, typ, info), 6, 5).engine;
    assert Listed(code, typ, info).protocols == map[5 := Protocol(Listener, true)];
    assert y.protocols == map[5 := Protocol(Listener, true), 6 := Protocol(Session, true)];
    assert y.nodeUid == 5 && y.accepted == {6};
    var r := Close(y, 5);
    assert r.effect == Closed(5) && Affect(l, 1, r.effect) == l;
    assert [x, y][1 := r.engine] == [x, r.engine];
  }

  /** What a failed `setupNode` makes of an engine without a listener. */
  function Renamed(y: Engine, code: UInt32, typ: UInt32, info: Text): Engine {
    SetupNode(y, code, typ, info, 0, false)
  }

  lemma FailsToListen(x: Engine, y: Engine, code: UInt32, typ: UInt32, info: Text, l: Link)
    requires l.a == 0 && l.b == 1
    ensures var w, s := World([x, y], [l]), DoSetupNode(1, code, typ, info, 0, false);
            InRange(w) && Enabled(w, s) && Next(w, s) == World([x, Renamed(y, code, typ, info)], [l])
  {
    assert [x, y][1 := Renamed(y, code, typ, info)] == [x, Renamed(y, code, typ, info)];
  }

  /**
   A listener is not needed to be a node. A run leads to an engine that has accepted a session and
   closed its listener; a `setupNode` for any node then fails to listen there, and all the same the
   Ping for that node registers.
   */
  lemma FailedSetupBecomesNode(code: UInt32, typ: UInt32, info: Text, code': UInt32, typ': UInt32, info': Text)
    returns (w: World, v: World)
    ensures Runs.Reachable(w) && |w.engines| == 2 && w.engines[1] == Unlistened(code, typ, info)
    ensures w.engines[1].nodeUid == 0 && w.engines[1].protocols == map[6 := Protocol(Session, true)]
    ensures InRange(w) && Enabled(w, DoSetupNode(1, code', typ', info', 0, false))
    ensures v == Next(w, DoSetupNode(1, code', typ', info', 0, false))
    ensures InRange(v) && Enabled(v, ReportConnected(0))
    ensures var t := Next(v, ReportConnected(0));
            InRange(t) && Enabled(t, DeliverToB(0)) &&
            var u := Next(t, DeliverToB(0));
            |u.engines| == 2 && 6 in u.engines[1].peers
  {
    var was := AcceptedIsReachable(code', typ', code, typ, info);
    var x, l := was.engines[0], was.links[0];
    Closes(x, code, typ, info, l);
    Runs.ReachableNext(was, DoClose(1, 5));
    w := World([x, Unlistened(code, typ, info)], [l]);
    FailsToListen(x, w.engines[1], code', typ', info', l);
    v := World([x, Renamed(w.engines[1], code', typ', info')], [l]);
    Runs.ReachableNext(w, DoSetupNode(1, code', typ', info', 0, false));
    Runs.ReachableKeepsInv(v);
    var t, u := HandshakeCompletes(v, 0);
  }
}
