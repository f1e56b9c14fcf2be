/** Every call keeps an engine consistent, and touches the tables at no uid but its own. */
module EngineFacts {
  import opened Types
  import opened Engine

  // ---- the callback log -------------------------------------------------------------------

  lemma OpenAfter(log: seq<Callback>, c: Callback, u: UInt32)
    ensures Open(log + [c], u) <==> if c.uid == u then c.Connected? else Open(log, u)
  {
    assert (log + [c])[..|log|] == log;
  }

  lemma AlternatesAfter(log: seq<Callback>, c: Callback)
    requires Alternates(log) && c.Connected? != Open(log, c.uid)
    ensures Alternates(log + [c])
  {
    assert (log + [c])[..|log|] == log;
  }

  lemma LogConnect(e: Engine, u: UInt32, peer: Peer, code: UInt32, typ: UInt32)
    requires CallbacksAgree(e) && u !in e.peers
    ensures CallbacksAgree(e.(peers := e.peers[u := peer], log := e.log + [Connected(u, code, typ)]))
  {
    var c := Connected(u, code, typ);
    AlternatesAfter(e.log, c);
    forall v: UInt32 ensures v in e.peers[u := peer] <==> Open(e.log + [c], v) { OpenAfter(e.log, c, v); }
  }

  lemma LogDisconnect(e: Engine, u: UInt32)
    requires CallbacksAgree(e)
    ensures CallbacksAgree(DropPeer(e, u))
  {
    if u in e.peers {
      var c := Disconnected(u);
      AlternatesAfter(e.log, c);
      forall v: UInt32 ensures v in e.peers - {u} <==> Open(e.log + [c], v) { OpenAfter(e.log, c, v); }
    }
  }

  // ---- counting callbacks -----------------------------------------------------------------

  ghost function Connects(log: seq<Callback>, u: UInt32): nat {
    if log == [] then 0 else
    Connects(log[..|log| - 1], u) + if log[|log| - 1].Connected? && log[|log| - 1].uid == u then 1 else 0
  }

  ghost function Disconnects(log: seq<Callback>, u: UInt32): nat {
    if log == [] then 0 else
    Disconnects(log[..|log| - 1], u) + if log[|log| - 1].Disconnected? && log[|log| - 1].uid == u then 1 else 0
  }

  /** In an alternating log a uid has been connected once more than disconnected, or as often. */
  lemma {:induction false} AlternationCounts(log: seq<Callback>, u: UInt32)
    requires Alternates(log)
    ensures Connects(log, u) == Disconnects(log, u) + if Open(log, u) then 1 else 0
  {
    if log != [] {
      AlternationCounts(log[..|log| - 1], u);
    }
  }

  /** `_peersByUid` holds exactly the uids whose last callback was a connect, all of them accepted or connecting. */
  lemma PeersAreOpen(e: Engine, u: UInt32)
    requires Consistent(e)
    ensures u in e.peers <==> Open(e.log, u)
    ensures u in e.peers <==> Connects(e.log, u) == Disconnects(e.log, u) + 1
    ensures u in e.peers ==> u in e.accepted || u in e.connecting
  {
    AlternationCounts(e.log, u);
  }

  // ---- consistency ------------------------------------------------------------------------

  lemma OnCloseKeeps(e: Engine, u: UInt32)
    requires Consistent(e) && u !in e.connecting
    ensures Consistent(SessionClosed(e, u))
  {
    var f := e.(accepted := e.accepted - {u});
    LogDisconnect(f, u);
  }

  lemma SameCallbacks(e: Engine, f: Engine)
    requires CallbacksAgree(e) && f.peers == e.peers && f.log == e.log
    ensures CallbacksAgree(f)
  {
  }

  lemma DisconnectCallbacks(e: Engine, u: UInt32)
    requires CallbacksAgree(e)
    ensures CallbacksAgree(RemoveProtocol(OnDisconnect(e, u), u))
  {
    hide CallbacksAgree;
    var f := if u !in e.connecting then e else
             e.(connecting := e.connecting - {u}, directory := ZeroUid(e.directory, e.connecting[u]));
    SameCallbacks(e, f);
    LogDisconnect(f, u);
    SameCallbacks(DropPeer(f, u), RemoveProtocol(OnDisconnect(e, u), u));
  }

  /** The peer's node, if it is shared, is the connecting one, whose uid is zero already. */
  lemma DisconnectTables(e: Engine, u: UInt32)
    requires DirectoryBijection(e) && PeerPartition(e) && u !in e.accepted
    ensures var f := OnDisconnect(e, u);
            && f.connecting == e.connecting - {u} && f.peers == e.peers - {u}
            && f.accepted == e.accepted && f.protocols == e.protocols
    ensures OnDisconnect(e, u).directory ==
            if u in e.connecting then ZeroUid(e.directory, e.connecting[u]) else e.directory
  {
  }

  lemma OnDisconnectKeeps(e: Engine, u: UInt32)
    requires Consistent(e) && u !in e.accepted
    ensures Consistent(RemoveProtocol(OnDisconnect(e, u), u))
  {
    hide CallbacksAgree, OnDisconnect;
    DisconnectCallbacks(e, u);
    DisconnectTables(e, u);
  }

  lemma CloseKeeps(e: Engine, u: UInt32)
    requires Consistent(e)
    ensures Consistent(Close(e, u).engine)
  {
    if u in e.protocols && e.protocols[u].available {
      match e.protocols[u].kind
      case Listener =>
      case Session => OnCloseKeeps(e, u);
      case Connector => OnDisconnectKeeps(e, u);
    }
  }

  lemma ConnectorLostKeeps(e: Engine, u: UInt32)
    requires Consistent(e) && u !in e.accepted
    ensures Consistent(ConnectorLost(e, u))
  {
    OnDisconnectKeeps(e, u);
  }

  lemma SetupNodeKeeps(e: Engine, code: UInt32, typ: UInt32, info: Text, answer: UInt32, confirmed: bool)
    requires Consistent(e) && (answer == 0 || Unused(e, answer))
    ensures Consistent(SetupNode(e, code, typ, info, answer, confirmed))
  {
  }

  lemma OpeningKeeps(e: Engine, answer: UInt32)
    requires Consistent(e) && (answer == 0 || Unused(e, answer))
    ensures Consistent(Listen(e, answer)) && Consistent(Connect(e, answer))
  {
  }

  lemma ConnectNodeKeeps(e: Engine, code: UInt32, typ: UInt32, answer: UInt32)
    requires Consistent(e) && (answer == 0 || Unused(e, answer))
    ensures Consistent(ConnectNode(e, code, typ, answer))
  {
  }

  lemma ReconnectKeeps(e: Engine, code: UInt32, answer: UInt32)
    requires Consistent(e) && (answer == 0 || Unused(e, answer))
    ensures Consistent(Reconnect(e, code, answer))
  {
  }

  lemma OnConnectedKeeps(e: Engine, u: UInt32)
    requires Consistent(e)
    ensures Consistent(OnConnected(e, u).engine)
  {
  }

  lemma OnAcceptKeeps(e: Engine, u: UInt32, from: UInt32)
    requires Consistent(e) && Unused(e, u)
    ensures Consistent(OnAccept(e, u, from).engine)
  {
  }

  lemma HandlePingKeeps(e: Engine, u: UInt32, p: Packet)
    requires Consistent(e)
    ensures Consistent(HandlePing(e, u, p).engine)
  {
    if PingBranch(e, u, p) != Registers {
      CloseKeeps(e, u);
    } else {
      var h := ReadHello(p).value;
      LogConnect(e, u, Own(Node(u, h.fromCode, h.fromType, h.info)), h.fromCode, h.fromType);
    }
  }

  /** A Pong that gets as far as a connecting node finds nothing to remove from `accepted`. */
  lemma PongRemovesNothing(e: Engine, u: UInt32)
    requires Consistent(e) && u in e.connecting
    ensures e.accepted - {u} == e.accepted
    ensures e.(accepted := e.accepted - {u}) == e
  {
    assert u in e.connecting.Keys;
  }

  lemma HandlePongKeeps(e: Engine, u: UInt32, p: Packet)
    requires Consistent(e) && u in e.protocols && e.protocols[u].available
    ensures Consistent(HandlePong(e, u, p).engine)
  {
    if PongBranch(e, u, p) == Registers {
      PongRemovesNothing(e, u);
      PongRegistersKeeps(e, u, p);
    } else {
      CloseKeeps(e, u);
      if PongBranch(e, u, p) in {WrongNode, Duplicate} {
        PongRemovesNothing(e, u);
      }
    }
  }

  lemma PongRegistersKeeps(e: Engine, u: UInt32, p: Packet)
    requires Consistent(e) && u in e.protocols && e.protocols[u].available
    requires PongBranch(e, u, p) == Registers && e.accepted - {u} == e.accepted
    ensures Consistent(HandlePong(e, u, p).engine)
  {
    var code := e.connecting[u];
    var node := e.directory[code];
    LogConnect(e, u, Shared(code), node.code, node.typ);
  }

  lemma OnPacketKeeps(e: Engine, u: UInt32, p: Packet)
    requires Consistent(e)
    ensures Consistent(OnPacket(e, u, p).engine)
  {
    if u in e.protocols && e.protocols[u].available {
      HandlePingKeeps(e, u, p);
      HandlePongKeeps(e, u, p);
    }
  }

  // ---- frames -----------------------------------------------------------------------------

  /** Everything the tables of an engine say about one uid. */
  datatype Slot = Slot(protocol: Option<Protocol>, connecting: Option<UInt32>, accepted: bool, peer: Option<Peer>)

  function Lookup<V>(m: map<UInt32, V>, u: UInt32): Option<V> { if u in m then Some(m[u]) else None }

  function At(e: Engine, u: UInt32): Slot {
    Slot(Lookup(e.protocols, u), Lookup(e.connecting, u), u in e.accepted, Lookup(e.peers, u))
  }

  /** Nodes are never dropped from the directory, and keep their code and type. */
  ghost predicate DirectoryKept(e: Engine, f: Engine) {
    forall c | c in e.directory ::
      c in f.directory && f.directory[c].code == e.directory[c].code && f.directory[c].typ == e.directory[c].typ
  }

  /** From `e` to `f` nothing changed in the tables except at uid `u`. */
  ghost predicate OnlyTouches(e: Engine, f: Engine, u: UInt32) {
    DirectoryKept(e, f) && forall v: UInt32 | v != u :: At(e, v) == At(f, v)
  }

  lemma TouchesCompose(e: Engine, f: Engine, g: Engine, u: UInt32)
    requires OnlyTouches(e, f, u) && OnlyTouches(f, g, u)
    ensures OnlyTouches(e, g, u)
  {
    forall v: UInt32 | v != u ensures At(e, v) == At(g, v) { assert At(e, v) == At(f, v); }
  }

  lemma DropPeerTouches(e: Engine, u: UInt32)
    ensures OnlyTouches(e, DropPeer(e, u), u)
    ensures OnlyTouches(e, RemoveProtocol(e, u), u)
    ensures OnlyTouches(e, OnUnlisten(e, u), u)
  {
  }

  lemma CallbacksTouch(e: Engine, u: UInt32)
    ensures OnlyTouches(e, OnClose(e, u), u)
    ensures OnlyTouches(e, OnDisconnect(e, u), u)
  {
    var f := e.(accepted := e.accepted - {u});
    DropPeerTouches(f, u);
    TouchesCompose(e, f, OnClose(e, u), u);
    var g := if u !in e.connecting then e else
             e.(connecting := e.connecting - {u}, directory := ZeroUid(e.directory, e.connecting[u]));
    DropPeerTouches(g, u);
    TouchesCompose(e, g, OnDisconnect(e, u), u);
  }

  lemma RemoveTouches(e: Engine, f: Engine, u: UInt32)
    requires OnlyTouches(e, f, u)
    ensures OnlyTouches(e, RemoveProtocol(f, u), u)
  {
    DropPeerTouches(f, u);
    TouchesCompose(e, f, RemoveProtocol(f, u), u);
  }

  lemma ClosingTouches(e: Engine, u: UInt32)
    ensures OnlyTouches(e, SessionClosed(e, u), u)
    ensures OnlyTouches(e, ConnectorLost(e, u), u)
    ensures OnlyTouches(e, Close(e, u).engine, u)
  {
    CallbacksTouch(e, u);
    DropPeerTouches(e, u);
    RemoveTouches(e, OnClose(e, u), u);
    RemoveTouches(e, OnDisconnect(e, u), u);
    RemoveTouches(e, OnUnlisten(e, u), u);
  }

  lemma IdentityTouches(e: Engine, code: UInt32, typ: UInt32, info: Text, answer: UInt32, confirmed: bool)
    ensures OnlyTouches(e, SetupNode(e, code, typ, info, answer, confirmed), answer)
    ensures OnlyTouches(e, Listen(e, answer), answer)
    ensures OnlyTouches(e, Connect(e, answer), answer)
  {
  }

  lemma ConnectNodeTouches(e: Engine, code: UInt32, typ: UInt32, answer: UInt32)
    ensures OnlyTouches(e, ConnectNode(e, code, typ, answer), answer)
  {
  }

  lemma ReconnectTouches(e: Engine, code: UInt32, answer: UInt32)
    ensures OnlyTouches(e, Reconnect(e, code, answer), answer)
  {
  }

  lemma OnConnectedTouches(e: Engine, u: UInt32)
    ensures OnlyTouches(e, OnConnected(e, u).engine, u)
  {
  }

  lemma OnAcceptTouches(e: Engine, u: UInt32, from: UInt32)
    ensures OnlyTouches(e, OnAccept(e, u, from).engine, u)
  {
    var f := e.(protocols := e.protocols[u := Protocol(Session, true)]);
    ClosingTouches(f, u);
    TouchesCompose(e, f, Close(f, u).engine, u);
  }

  lemma HandlePingTouches(e: Engine, u: UInt32, p: Packet)
    ensures OnlyTouches(e, HandlePing(e, u, p).engine, u)
  {
    ClosingTouches(e, u);
  }

  lemma HandlePongTouches(e: Engine, u: UInt32, p: Packet)
    ensures OnlyTouches(e, HandlePong(e, u, p).engine, u)
  {
    var f := e.(accepted := e.accepted - {u});
    ClosingTouches(e, u);
    ClosingTouches(f, u);
    TouchesCompose(e, f, Close(f, u).engine, u);
  }

  lemma OnPacketTouches(e: Engine, u: UInt32, p: Packet)
    ensures OnlyTouches(e, OnPacket(e, u, p).engine, u)
  {
    HandlePingTouches(e, u, p);
    HandlePongTouches(e, u, p);
  }

  // ---- the timer's sweep ------------------------------------------------------------------

  /** The answers the network may give to one sweep: 0, or uids that are unused and distinct. */
  ghost predicate NewUids(e: Engine, answers: seq<UInt32>) {
    && (forall i | 0 <= i < |answers| && answers[i] != 0 :: Unused(e, answers[i]))
    && (forall i, j | 0 <= i < j < |answers| && answers[i] == answers[j] :: answers[i] == 0)
  }

  /** After the sweep: every swept node is connecting, unless its `connect` returned 0. */
  ghost predicate Swept(e: Engine, f: Engine, codes: seq<UInt32>, answers: seq<UInt32>)
    requires |codes| == |answers|
  {
    forall i | 0 <= i < |codes| && codes[i] in e.directory ::
      codes[i] in f.directory &&
      f.directory[codes[i]] == e.directory[codes[i]].(uid :=
        if e.directory[codes[i]].uid != 0 then e.directory[codes[i]].uid else answers[i])
  }

  lemma StillUnused(e: Engine, f: Engine, v: UInt32, u: UInt32)
    requires OnlyTouches(e, f, v) && Unused(e, u) && u != v
    ensures Unused(f, u)
  {
    assert At(e, u) == At(f, u);
  }

  lemma ReconnectOne(e: Engine, code: UInt32, answer: UInt32)
    ensures var f := Reconnect(e, code, answer);
            && f.directory.Keys == e.directory.Keys
            && (forall c | c in e.directory && (c != code || e.directory[c].uid != 0) ::
                  f.directory[c] == e.directory[c])
            && (code in e.directory && e.directory[code].uid == 0 ==> f.directory[code] == e.directory[code].(uid := answer))
  {
  }

  lemma {:induction false} SweepNodes(e: Engine, codes: seq<UInt32>, answers: seq<UInt32>)
    requires |codes| == |answers|
    requires forall i, j | 0 <= i < j < |codes| :: codes[i] != codes[j]
    ensures var f := Sweep(e, codes, answers);
            && f.directory.Keys == e.directory.Keys
            && (forall c | c in e.directory && c !in codes :: f.directory[c] == e.directory[c])
            && Swept(e, f, codes, answers)
  {
    if codes != [] {
      var n := |codes| - 1;
      var f := Sweep(e, codes[..n], answers[..n]);
      SweepNodes(e, codes[..n], answers[..n]);
      ReconnectOne(f, codes[n], answers[n]);
      assert codes[n] !in codes[..n];
      assert codes[n] in e.directory ==> f.directory[codes[n]] == e.directory[codes[n]];
      var g := Reconnect(f, codes[n], answers[n]);
      forall i | 0 <= i < n && codes[i] in e.directory
        ensures codes[i] in g.directory && g.directory[codes[i]] == f.directory[codes[i]]
      {
      }
      forall i | 0 <= i < n ensures codes[i] == codes[..n][i] && answers[i] == answers[..n][i] {}
    }
  }

  lemma {:induction false} SweepTouchesOnly(e: Engine, codes: seq<UInt32>, answers: seq<UInt32>, u: UInt32)
    requires |codes| == |answers| && Unused(e, u) && u !in answers
    ensures Unused(Sweep(e, codes, answers), u)
  {
    if codes != [] {
      var n := |codes| - 1;
      var f := Sweep(e, codes[..n], answers[..n]);
      SweepTouchesOnly(e, codes[..n], answers[..n], u);
      ReconnectTouches(f, codes[n], answers[n]);
      StillUnused(f, Reconnect(f, codes[n], answers[n]), answers[n], u);
    }
  }

  lemma {:induction false} SweepConsistent(e: Engine, codes: seq<UInt32>, answers: seq<UInt32>)
    requires Consistent(e) && |codes| == |answers| && NewUids(e, answers)
    ensures Consistent(Sweep(e, codes, answers))
  {
    if codes != [] {
      var n := |codes| - 1;
      SweepConsistent(e, codes[..n], answers[..n]);
      if answers[n] != 0 {
        SweepTouchesOnly(e, codes[..n], answers[..n], answers[n]);
      }
      ReconnectKeeps(Sweep(e, codes[..n], answers[..n]), codes[n], answers[n]);
    }
  }

  lemma {:induction false} SweepTouchesNoDialled(e: Engine, codes: seq<UInt32>, answers: seq<UInt32>)
    requires |codes| == |answers|
    ensures var f := Sweep(e, codes, answers);
            forall c | c in e.directory && e.directory[c].uid != 0 :: c in f.directory && f.directory[c] == e.directory[c]
  {
    if codes != [] {
      var n := |codes| - 1;
      SweepTouchesNoDialled(e, codes[..n], answers[..n]);
      ReconnectOne(Sweep(e, codes[..n], answers[..n]), codes[n], answers[n]);
    }
  }

  /**
   The timer sweep keeps the directory in bijection with the connecting uids, touches no node that
   has a uid, and leaves a node at uid 0 only if its `connect` returned 0.
   */
  lemma SweepKeeps(e: Engine, codes: seq<UInt32>, answers: seq<UInt32>)
    requires Consistent(e) && |codes| == |answers| && NewUids(e, answers)
    requires forall i, j | 0 <= i < j < |codes| :: codes[i] != codes[j]
    requires forall c | c in e.directory :: c in codes
    ensures var f := Sweep(e, codes, answers);
            && DirectoryBijection(f) && Consistent(f)
            && (forall c | c in e.directory && e.directory[c].uid != 0 ::
                  c in f.directory && f.directory[c] == e.directory[c])
            && (forall i | 0 <= i < |codes| && codes[i] in f.directory && f.directory[codes[i]].uid == 0 :: answers[i] == 0)
  {
    SweepConsistent(e, codes, answers);
    SweepNodes(e, codes, answers);
    SweepTouchesNoDialled(e, codes, answers);
  }

  // ---- what undoes what -------------------------------------------------------------------

  /** Closing the listener undoes a `setupNode` exactly when the engine had no identity left over from before. */
  lemma CloseUndoesSetup(e: Engine, code: UInt32, typ: UInt32, info: Text, answer: UInt32)
    requires e.nodeUid == 0 && answer != 0 && answer !in e.protocols
    ensures Close(SetupNode(e, code, typ, info, answer, true), answer).engine == e <==>
            e.nodeCode == 0 && e.nodeType == 0 && e.nodeInfo == []
  {
    assert e.protocols[answer := Protocol(Listener, true)] - {answer} == e.protocols;
  }

  /**
   A `setupNode` that fails leaves the engine as it was exactly when a node was set up already, or it
   asked for the identity the engine has anyway; it never sets a listener up.
   */
  lemma FailedSetupKeepsEngine(e: Engine, code: UInt32, typ: UInt32, info: Text, answer: UInt32, confirmed: bool)
    requires answer == 0 || !confirmed
    ensures var f := SetupNode(e, code, typ, info, answer, confirmed);
            && (f == e <==> e.nodeUid != 0 || (code == e.nodeCode && typ == e.nodeType && info == e.nodeInfo))
            && f.nodeUid == e.nodeUid && f.protocols == e.protocols
  {
  }

  /**
   After it a readable Ping on an accepted session without a peer registers exactly when it asks for
   the code and type of the failed call, or of the node that was set up before.
   */
  lemma FailedSetupAnswers(e: Engine, code: UInt32, typ: UInt32, info: Text, answer: UInt32, confirmed: bool,
                           u: UInt32, p: Packet)
    requires answer == 0 || !confirmed
    requires ReadHello(p).Some? && u in e.accepted && u !in e.peers
    ensures var h := ReadHello(p).value;
            PingBranch(SetupNode(e, code, typ, info, answer, confirmed), u, p) == Registers <==>
            if e.nodeUid == 0 then h.toCode == code && h.toType == typ
            else h.toCode == e.nodeCode && h.toType == e.nodeType
  {
  }

  /** A connecting node whose connection is lost gets a new connector by the next sweep that gets a uid for it. */
  lemma LostNodeIsRedialled(e: Engine, u: UInt32, answer: UInt32)
    requires Consistent(e) && u in e.connecting && answer != 0
    ensures e.connecting[u] in OnDisconnect(e, u).directory
    ensures var c := e.connecting[u];
            var f := Reconnect(OnDisconnect(e, u), c, answer);
            && c in f.directory && f.directory[c] == e.directory[c].(uid := answer)
            && f.connecting == (e.connecting - {u})[answer := c]
            && answer in f.protocols && f.protocols[answer] == Protocol(Connector, false)
  {
    var d := OnDisconnect(e, u);
    var c := e.connecting[u];
    assert d.connecting == e.connecting - {u};
    assert c in d.directory && d.directory[c] == e.directory[c].(uid := 0);
  }

  /**
   A connecting node whose connector the owner closes is dialled again exactly when the connector
   had come up: `close` forgets one that had not without telling the directory.
   */
  lemma ClosedNodeIsRedialled(e: Engine, u: UInt32, answer: UInt32)
    requires Consistent(e) && u in e.connecting && u in e.protocols && answer != 0
    ensures e.connecting[u] in Close(e, u).engine.directory
    ensures var c := e.connecting[u];
            var f := Close(e, u).engine;
            && (e.protocols[u].available ==> Reconnect(f, c, answer).directory[c].uid == answer)
            && (!e.protocols[u].available ==> Reconnect(f, c, answer) == f && f.directory[c].uid == u)
  {
    if e.protocols[u].available {
      LostNodeIsRedialled(e, u, answer);
    }
  }
}
