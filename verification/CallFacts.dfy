/** What single calls of an engine come to, said of the tables before and after, without the handlers' own branches. */
module CallFacts {
  import opened Types
  import opened Handshake
  import opened Engine
  import opened EngineFacts

  // ---- sessions ---------------------------------------------------------------------------

  /** A new session is held when its listener is available, and accepted only when that is the node's own. */
  lemma AcceptsNodesSessions(e: Engine, u: UInt32, from: UInt32)
    requires Unused(e, u)
    ensures var r := OnAccept(e, u, from);
            var open := from in e.protocols && e.protocols[from].available;
            && r.effect == Nothing
            && (u in r.engine.accepted <==> open && from == e.nodeUid)
            && r.engine == e.(protocols := if open then e.protocols[u := Protocol(Session, true)] else e.protocols,
                              accepted := if open && from == e.nodeUid then e.accepted + {u} else e.accepted)
  {
  }

  /** A listener besides the node's takes sessions that are held but not accepted; closing it undoes `listen`. */
  lemma ListensAndCloses(e: Engine, u: UInt32, s: UInt32)
    requires Unused(e, u) && u != e.nodeUid && Unused(e, s) && s != u
    ensures var f := OnAccept(Listen(e, u), s, u).engine;
            && s in f.protocols && f.protocols[s] == Protocol(Session, true) && s !in f.accepted
            && f.nodeUid == e.nodeUid && f.directory == e.directory
    ensures Close(Listen(e, u), u) == Result(e, Closed(u))
    ensures Listen(e, 0) == e
  {
    assert e.protocols[u := Protocol(Listener, true)] - {u} == e.protocols;
  }

  /** Closing an open listener clears the identity if it is the node's, and otherwise changes nothing else. */
  lemma ClosedListener(e: Engine, u: UInt32)
    requires u in e.protocols && e.protocols[u] == Protocol(Listener, true)
    ensures Close(e, u) ==
            Result(if u == e.nodeUid
                   then Engine(0, 0, 0, [], e.protocols - {u}, e.directory, e.connecting, e.accepted, e.peers, e.log)
                   else e.(protocols := e.protocols - {u}),
                   Closed(u))
  {
  }

  /** Closing a session takes it out of every table, with the callback iff it was a peer. */
  lemma ClosedSession(e: Engine, u: UInt32)
    requires Consistent(e) && u in e.protocols && e.protocols[u] == Protocol(Session, true)
    ensures Close(e, u) ==
            Result(e.(protocols := e.protocols - {u}, accepted := e.accepted - {u}, peers := e.peers - {u},
                      log := if u in e.peers then e.log + [Disconnected(u)] else e.log),
                   Closed(u))
  {
    assert u !in e.peers ==> e.peers - {u} == e.peers;
  }

  /** So does closing a connector that is up; its node then has no uid, and all else of it stays. */
  lemma ClosedConnector(e: Engine, u: UInt32)
    requires Consistent(e) && u in e.protocols && e.protocols[u] == Protocol(Connector, true)
    ensures Close(e, u) ==
            Result(e.(protocols := e.protocols - {u}, connecting := e.connecting - {u}, peers := e.peers - {u},
                      directory := if u !in e.connecting then e.directory else
                                   e.directory[e.connecting[u] := e.directory[e.connecting[u]].(uid := 0)],
                      log := if u in e.peers then e.log + [Disconnected(u)] else e.log),
                   Closed(u))
  {
    DisconnectTables(e, u);
    assert u !in e.connecting ==> e.connecting - {u} == e.connecting;
    assert u !in e.peers ==> e.peers - {u} == e.peers;
  }

  /** Closing what has not come up takes its protocol away and nothing else. */
  lemma ClosedEarly(e: Engine, u: UInt32)
    requires u in e.protocols && !e.protocols[u].available
    ensures Close(e, u) == Result(e.(protocols := e.protocols - {u}), Closed(u))
  {
  }

  // ---- reports that come late -------------------------------------------------------------

  /** The report of a loss after the engine closed the uid itself, or before it was up, changes nothing. */
  lemma LateReports(e: Engine, u: UInt32)
    requires Consistent(e)
    ensures ConnectorLost(Close(e, u).engine, u) == Close(e, u).engine
    ensures u in e.protocols && !e.protocols[u].available ==> ConnectorLost(e, u) == e
    ensures u in e.protocols && e.protocols[u].kind == Session ==>
              SessionClosed(Close(e, u).engine, u) == Close(e, u).engine
  {
    ClosedForgets(e, u);
    var f := Close(e, u).engine;
    assert f.accepted - {u} == f.accepted || u in f.accepted;
    assert f.protocols - {u} == f.protocols || u in f.protocols;
  }

  lemma ClosedForgets(e: Engine, u: UInt32)
    requires Consistent(e)
    ensures var f := Close(e, u).engine; u !in f.protocols && u !in f.accepted && u !in f.peers
  {
  }

  // ---- packets ----------------------------------------------------------------------------

  /**
   A Ping, whatever it holds: the session becomes a peer, under the sender's data, exactly if the
   payload starts with a Hello for this node's code and type and the session is accepted; then the
   Pong goes out if the session is available. Otherwise, or if the session is a peer already, the
   session is closed.
   */
  lemma PingOutcome(e: Engine, u: UInt32, p: Packet, h: Hello)
    requires p.message.Some? && Pack(h) <= p.message.value
    ensures HandlePing(e, u, p) ==
            if h.toCode == e.nodeCode && h.toType == e.nodeType && u in e.accepted && u !in e.peers then
              Result(e.(peers := e.peers[u := Own(Node(u, h.fromCode, h.fromType, h.info))],
                        log := e.log + [Connected(u, h.fromCode, h.fromType)]),
                     if u in e.protocols && e.protocols[u].available then
                       Send(u, Packet(3, Some(Pack(Hello(e.nodeCode, e.nodeType, e.nodeInfo, h.fromCode, h.fromType)))))
                     else Nothing)
            else Close(e, u)
  {
    UnpackIff(p.message.value, h);
  }

  /** A Pong: its connecting node becomes the peer exactly if it comes from that node and is for this one. */
  lemma PongOutcome(e: Engine, u: UInt32, p: Packet, h: Hello)
    requires Consistent(e) && p.message.Some? && Pack(h) <= p.message.value
    ensures HandlePong(e, u, p) ==
            if h.toCode == e.nodeCode && h.toType == e.nodeType && u !in e.peers && u in e.connecting &&
               e.connecting[u] == h.fromCode && e.directory[h.fromCode].typ == h.fromType then
              Result(e.(peers := e.peers[u := Shared(h.fromCode)],
                        directory := e.directory[h.fromCode := Node(u, h.fromCode, h.fromType, h.info)],
                        log := e.log + [Connected(u, h.fromCode, h.fromType)]),
                     Nothing)
            else Close(e, u)
  {
    hide Close, Pack, Unpack, CallbacksAgree, KindsAgree;
    UnpackIff(p.message.value, h);
    assert u in e.connecting ==> u !in e.accepted && e.accepted - {u} == e.accepted;
    assert e.(accepted := e.accepted) == e;
  }

  /** A payload that starts with no Hello closes the uid. */
  lemma MalformedOutcome(e: Engine, u: UInt32, p: Packet)
    requires p.message.None? || forall h :: !(Pack(h) <= p.message.value)
    ensures HandlePing(e, u, p) == HandlePong(e, u, p) == Close(e, u)
  {
    if p.message.Some? && Unpack(p.message.value).Some? {
      UnpackIff(p.message.value, Unpack(p.message.value).value);
    }
  }

  /** A packet is ignored if its uid is not held as available, or if it is neither Ping nor Pong. */
  lemma IgnoredPackets(e: Engine, u: UInt32, p: Packet)
    requires u !in e.protocols || !e.protocols[u].available || p.cmd !in {2, 3}
    ensures OnPacket(e, u, p) == Result(e, Nothing)
  {
  }

  /** Whatever a call about `u` sends goes to `u`, which the engine then holds as available. */
  lemma SendsToAvailable(e: Engine, u: UInt32, p: Packet)
    requires Consistent(e)
    ensures OnPacket(e, u, p).effect.Send? ==>
              var r := OnPacket(e, u, p); r.effect.uid == u && u in r.engine.protocols && r.engine.protocols[u].available
    ensures OnConnected(e, u).effect.Send? ==>
              var r := OnConnected(e, u); r.effect.uid == u && u in r.engine.protocols && r.engine.protocols[u].available
  {
  }

  // ---- dialling ---------------------------------------------------------------------------

  /** Node `c` is connecting under `u`, with a connector that has not come up yet. */
  predicate Dialling(e: Engine, c: UInt32, u: UInt32) {
    && c in e.directory && e.directory[c].uid == u
    && u in e.connecting && e.connecting[u] == c
    && u in e.protocols && e.protocols[u] == Protocol(Connector, false)
  }

  /** A new node, and a node without a uid, are dialled with a connector of their own. */
  lemma Dialled(e: Engine, code: UInt32, typ: UInt32, answer: UInt32)
    requires Unused(e, answer)
    ensures code !in e.directory ==> Dialling(ConnectNode(e, code, typ, answer), code, answer)
    ensures code in e.directory && e.directory[code].uid == 0 ==> Dialling(Reconnect(e, code, answer), code, answer)
  {
  }

  lemma StaysDialling(e: Engine, c: UInt32, u: UInt32, code: UInt32, answer: UInt32)
    requires Dialling(e, c, u) && u != 0 && answer != u
    ensures Dialling(Reconnect(e, code, answer), c, u)
  {
  }

  /** Node `codes[i]` has no uid, and `connect` will give it a new one. */
  ghost predicate Due(e: Engine, codes: seq<UInt32>, answers: seq<UInt32>, i: nat)
    requires |codes| == |answers| && i < |codes|
  {
    && NewUids(e, answers) && (forall j, k | 0 <= j < k < |codes| :: codes[j] != codes[k])
    && codes[i] in e.directory && e.directory[codes[i]].uid == 0 && answers[i] != 0
  }

  /** After the timer's sweep every node that had no uid and got one is dialled. */
  lemma {:induction false} SweepDials(e: Engine, codes: seq<UInt32>, answers: seq<UInt32>, i: nat)
    requires |codes| == |answers| && i < |codes| && Due(e, codes, answers, i)
    ensures Dialling(Sweep(e, codes, answers), codes[i], answers[i])
  {
    var n := |codes| - 1;
    var f := Sweep(e, codes[..n], answers[..n]);
    if i < n {
      SweepDials(e, codes[..n], answers[..n], i);
      StaysDialling(f, codes[i], answers[i], codes[n], answers[n]);
    } else {
      SweepNodes(e, codes[..n], answers[..n]);
      assert codes[n] !in codes[..n];
      SweepTouchesOnly(e, codes[..n], answers[..n], answers[n]);
      Dialled(f, codes[n], 0, answers[n]);
    }
  }
}
