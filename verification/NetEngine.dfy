/**
 `NetEngine` as the source has it: an object whose tables share `Node` objects. Every method is
 proved to do to the tables exactly what the function of the same name in `Engine` does to their
 values, so everything proved about those functions holds of the objects.
 */
module NetEngineObjects {
  import opened Types
  import opened Handshake
  import CallFacts
  import E = Engine

  /** What a node object was made for: an entry of the directory, or one session's peer. */
  datatype Role = ForCode(code: UInt32) | ForSession(uid: UInt32)

  class Node {
    ghost const role: Role
    var uid: UInt32
    var code: UInt32
    var typ: UInt32
    var info: Text

    constructor (uid: UInt32, code: UInt32, typ: UInt32, info: Text, ghost role: Role)
      ensures Value() == E.Node(uid, code, typ, info) && this.role == role
    {
      this.role := role;
      this.uid, this.code, this.typ, this.info := uid, code, typ, info;
    }

    function Value(): E.Node
      reads this
    {
      E.Node(uid, code, typ, info)
    }
  }

  /** A listed node's connector is opened: its uid is stored, and it becomes connecting. */
  ghost function Dialled(e: E.Engine, code: UInt32, answer: UInt32): E.Engine
    requires code in e.directory
  {
    var f := E.Connect(e, answer);
    var g := f.(directory := f.directory[code := f.directory[code].(uid := answer)]);
    if answer == 0 || answer in e.connecting then g else g.(connecting := g.connecting[answer := code])
  }

  lemma ConnectNodeInSteps(e: E.Engine, code: UInt32, typ: UInt32, answer: UInt32)
    requires code !in e.directory
    ensures E.ConnectNode(e, code, typ, answer) ==
            Dialled(e.(directory := e.directory[code := E.Node(0, code, typ, [])]), code, answer)
  {
    assert e.directory[code := E.Node(0, code, typ, [])][code := E.Node(answer, code, typ, [])]
        == e.directory[code := E.Node(answer, code, typ, [])];
  }

  // ---- what the tables say about the objects in them --------------------------------------

  /** The tables that refer to nodes, and what each of the nodes holds. */
  datatype Tables = Tables(listed: map<UInt32, Node>, connecting: map<UInt32, Node>, peers: map<UInt32, Node>,
                           values: map<Node, E.Node>)

  /** The tables of values. */
  datatype Values = Values(directory: map<UInt32, E.Node>, connecting: map<UInt32, UInt32>, peers: map<UInt32, E.Peer>)

  /** The directory holds one object per code. */
  ghost predicate DirectoryAgrees(t: Tables, directory: map<UInt32, E.Node>) {
    && directory.Keys == t.listed.Keys
    && forall c | c in t.listed ::
         t.listed[c] in t.values && t.listed[c].role == ForCode(c) &&
         t.values[t.listed[c]] == directory[c] && directory[c].code == c
  }

  /** A connecting uid refers to an object of the directory. */
  ghost predicate ConnectingAgrees(t: Tables, connecting: map<UInt32, UInt32>) {
    && connecting.Keys == t.connecting.Keys
    && forall u | u in t.connecting :: connecting[u] in t.listed && t.connecting[u] == t.listed[connecting[u]]
  }

  /** A peer is the directory's object itself, or an object made for its session. */
  ghost predicate PeersAgree(t: Tables, peers: map<UInt32, E.Peer>) {
    && peers.Keys == t.peers.Keys
    && (forall u | u in t.peers && peers[u].Shared? ::
          peers[u].code in t.listed && t.peers[u] == t.listed[peers[u].code])
    && (forall u | u in t.peers && peers[u].Own? ::
          t.peers[u] in t.values && t.peers[u].role == ForSession(u) && t.values[t.peers[u]] == peers[u].node)
  }

  /** The tables of objects are what the tables of values say. Methods hide this and go by the lemmas below. */
  ghost predicate Agree(t: Tables, values: Values) {
    && DirectoryAgrees(t, values.directory)
    && ConnectingAgrees(t, values.connecting)
    && PeersAgree(t, values.peers)
  }

  /** A change of a directory node is seen under its code in the directory, and nowhere else. */
  lemma ListedChanges(t: Tables, w: Values, c: UInt32, v: E.Node)
    requires Agree(t, w) && c in t.listed && v.code == c
    ensures Agree(t.(values := t.values[t.listed[c] := v]), w.(directory := w.directory[c := v]))
  {
  }

  /** A change of a session's own node is seen in its peer, and nowhere else. */
  lemma OwnChanges(t: Tables, w: Values, u: UInt32, v: E.Node)
    requires Agree(t, w) && u in t.peers && w.peers[u].Own?
    ensures Agree(t.(values := t.values[t.peers[u] := v]), w.(peers := w.peers[u := E.Own(v)]))
  {
  }

  /** A node made for a new code. */
  lemma EntryAdded(t: Tables, w: Values, c: UInt32, n: Node, v: E.Node)
    requires Agree(t, w) && c !in t.listed && n !in t.values && n.role == ForCode(c) && v.code == c
    ensures Agree(t.(listed := t.listed[c := n], values := t.values[n := v]), w.(directory := w.directory[c := v]))
  {
  }

  /** A node made for a session that has no peer. */
  lemma OwnPeerAdded(t: Tables, w: Values, u: UInt32, n: Node, v: E.Node)
    requires Agree(t, w) && u !in t.peers && n !in t.values && n.role == ForSession(u)
    ensures Agree(t.(peers := t.peers[u := n], values := t.values[n := v]), w.(peers := w.peers[u := E.Own(v)]))
  {
  }

  lemma SharedPeerAdded(t: Tables, w: Values, u: UInt32, c: UInt32)
    requires Agree(t, w) && c in t.listed
    ensures Agree(t.(peers := t.peers[u := t.listed[c]]), w.(peers := w.peers[u := E.Shared(c)]))
  {
  }

  lemma PeerRemoved(t: Tables, w: Values, u: UInt32)
    requires Agree(t, w)
    ensures Agree(t.(peers := t.peers - {u}), w.(peers := w.peers - {u}))
  {
  }

  lemma Attached(t: Tables, w: Values, u: UInt32, c: UInt32)
    requires Agree(t, w) && c in t.listed
    ensures Agree(t.(connecting := t.connecting[u := t.listed[c]]), w.(connecting := w.connecting[u := c]))
  {
  }

  lemma Detached(t: Tables, w: Values, u: UInt32)
    requires Agree(t, w)
    ensures Agree(t.(connecting := t.connecting - {u}), w.(connecting := w.connecting - {u}))
  {
  }

  /** What a directory node and a connecting node look like from both sides. */
  lemma ListedNode(t: Tables, w: Values, c: UInt32)
    requires Agree(t, w) && c in t.listed
    ensures c in w.directory && t.listed[c] in t.values && t.values[t.listed[c]] == w.directory[c] && w.directory[c].code == c
  {
  }

  lemma ConnectingNode(t: Tables, w: Values, u: UInt32)
    requires Agree(t, w)
    ensures u in t.connecting <==> u in w.connecting
    ensures u in t.connecting ==> w.connecting[u] in t.listed && t.connecting[u] == t.listed[w.connecting[u]]
  {
  }

  lemma PeerNode(t: Tables, w: Values, u: UInt32)
    requires Agree(t, w)
    ensures u in t.peers <==> u in w.peers
    ensures u in t.peers ==> t.peers[u] in t.values
    ensures u in t.peers && w.peers[u].Own? ==> t.values[t.peers[u]] == w.peers[u].node
    ensures u in t.peers && w.peers[u].Shared? ==>
              var c := w.peers[u].code;
              c in t.listed && t.peers[u] == t.listed[c] && c in w.directory &&
              t.values[t.peers[u]] == w.directory[c] && w.directory[c].code == c
  {
  }

  class NetEngine {
    var nodeUid: UInt32
    var nodeCode: UInt32
    var nodeType: UInt32
    var nodeInfo: Text
    var protocols: map<UInt32, E.Protocol>
    var connectNodes: map<UInt32, Node>
    var connectingNodes: map<UInt32, Node>
    var acceptedNodes: set<UInt32>
    var peersByUid: map<UInt32, Node>
    /** The engine as a value; `Valid` ties it to the fields. */
    ghost var model: E.Engine
    /** The nodes the tables refer to, and what each of them holds. */
    ghost var nodes: set<Node>
    ghost var values: map<Node, E.Node>

    /** The fields that refer to no node. */
    ghost predicate PlainAgree()
      reads this
    {
      && model.nodeUid == nodeUid && model.nodeCode == nodeCode
      && model.nodeType == nodeType && model.nodeInfo == nodeInfo
      && model.protocols == protocols && model.accepted == acceptedNodes
    }

    ghost predicate ValuesAgree()
      reads this`nodes, this`values, nodes
    {
      values.Keys == nodes && forall n | n in nodes :: n.Value() == values[n]
    }

    ghost function Table(): Tables
      reads this
    {
      Tables(connectNodes, connectingNodes, peersByUid, values)
    }

    ghost function View(): Values
      reads this
    {
      Values(model.directory, model.connecting, model.peers)
    }

    ghost predicate Valid()
      reads this, nodes
    {
      PlainAgree() && ValuesAgree() && Agree(Table(), View())
    }

    constructor ()
      ensures Valid() && model == E.START && nodes == {}
    {
      nodeUid, nodeCode, nodeType, nodeInfo := 0, 0, 0, [];
      protocols, connectNodes, connectingNodes, acceptedNodes, peersByUid := map[], map[], map[], {}, map[];
      model, nodes, values := E.START, {}, map[];
    }

    // ---- nodes ----------------------------------------------------------------------------

    /** A node of the directory, on the object and on the value side. */
    lemma Listed(c: UInt32)
      requires Valid()
      ensures c in connectNodes <==> c in model.directory
      ensures c in connectNodes ==>
                connectNodes[c] in nodes && connectNodes[c].code == c && connectNodes[c].Value() == model.directory[c]
    {
      if c in connectNodes {
        ListedNode(Table(), View(), c);
      }
    }

    /** The same for the node that is connecting under a uid. */
    lemma Connecting(uid: UInt32)
      requires Valid()
      ensures uid in connectingNodes <==> uid in model.connecting
      ensures uid in connectingNodes ==>
                var c := model.connecting[uid];
                c in connectNodes && connectNodes[c] == connectingNodes[uid] && connectNodes[c].code == c &&
                connectNodes[c] in nodes && c in model.directory && connectNodes[c].Value() == model.directory[c]
    {
      ConnectingNode(Table(), View(), uid);
      if uid in connectingNodes {
        ListedNode(Table(), View(), model.connecting[uid]);
      }
    }

    /** `node->_uid = uid`. */
    method StoreUid(node: Node, uid: UInt32, ghost v: E.Node)
      requires ValuesAgree() && node in nodes && v == values[node].(uid := uid)
      modifies this`values, node`uid
      ensures ValuesAgree() && node.uid == uid && values == old(values)[node := v]
    {
      node.uid := uid;
      values := values[node := v];
    }

    /** `node->_info = info`. */
    method StoreInfo(node: Node, info: Text, ghost v: E.Node)
      requires ValuesAgree() && node in nodes && v == values[node].(info := info)
      modifies this`values, node`info
      ensures ValuesAgree() && values == old(values)[node := v]
    {
      node.info := info;
      values := values[node := v];
    }

    /** `std::make_shared<Node>`. */
    method MakeNode(uid: UInt32, code: UInt32, typ: UInt32, info: Text, ghost role: Role) returns (node: Node)
      requires ValuesAgree()
      modifies this`nodes, this`values
      ensures ValuesAgree() && fresh(node) && node.role == role && node.code == code
      ensures nodes == old(nodes) + {node} && values == old(values)[node := E.Node(uid, code, typ, info)]
    {
      node := new Node(uid, code, typ, info, role);
      nodes, values := nodes + {node}, values[node := node.Value()];
    }

    // ---- closing --------------------------------------------------------------------------

    /** `node->_uid = uid` for a node of the directory. */
    method SetUid(node: Node, uid: UInt32)
      requires Valid() && node.code in connectNodes && connectNodes[node.code] == node
      modifies this`model, this`values, node`uid
      ensures Valid() && node.uid == uid
      ensures var was := old(model).directory;
              model == old(model).(directory := was[node.code := was[node.code].(uid := uid)])
    {
      hide Agree;
      ListedNode(Table(), View(), node.code);
      ghost var v := model.directory[node.code].(uid := uid);
      ghost var t := Table().(values := values[node := v]);
      ghost var w := View().(directory := model.directory[node.code := v]);
      assert Agree(t, w) by {
        ListedChanges(Table(), View(), node.code, v);
      }
      StoreUid(node, uid, v);
      model := model.(directory := model.directory[node.code := v]);
      assert Table() == t && View() == w;
    }

    /** `node->_uid = 0` for the node of a peer: the directory sees it if the node is shared. */
    method ZeroPeer(uid: UInt32)
      requires Valid() && uid in peersByUid
      modifies this`model, this`values, nodes
      ensures Valid()
      ensures var was := old(model);
              model == match was.peers[uid]
                       case Shared(code) => was.(directory := E.ZeroUid(was.directory, code))
                       case Own(node) => was.(peers := was.peers[uid := E.Own(node.(uid := 0))])
    {
      hide Agree;
      PeerNode(Table(), View(), uid);
      var node := peersByUid[uid];
      ghost var v, e := values[node].(uid := 0), model;
      if model.peers[uid].Shared? {
        ListedChanges(Table(), View(), e.peers[uid].code, v);
        e := e.(directory := e.directory[e.peers[uid].code := v]);
      } else {
        OwnChanges(Table(), View(), uid, v);
        e := e.(peers := e.peers[uid := E.Own(v)]);
      }
      ghost var t, w := Table().(values := values[node := v]), Values(e.directory, e.connecting, e.peers);
      assert Agree(t, w);
      StoreUid(node, 0, v);
      model := e;
      assert Table() == t && View() == w;
    }

    /** `_peersByUid.erase(uid)`, with the callback before it. */
    method Forget(uid: UInt32)
      requires Valid()
      modifies this`peersByUid, this`model
      ensures Valid()
      ensures model == old(model).(peers := old(model).peers - {uid}, log := old(model).log + [E.Disconnected(uid)])
    {
      hide Agree;
      PeerRemoved(Table(), View(), uid);
      peersByUid := peersByUid - {uid};
      model := model.(peers := model.peers - {uid}, log := model.log + [E.Disconnected(uid)]);
    }

    /** The shared last block of `onClose` and `onDisconnect`. */
    method DropPeer(uid: UInt32)
      requires Valid()
      modifies this`peersByUid, this`model, this`values, nodes
      ensures Valid() && model == E.DropPeer(old(model), uid)
    {
      hide Agree;
      PeerNode(Table(), View(), uid);
      if uid in peersByUid {
        ZeroPeer(uid);
        assert model.peers - {uid} == old(model).peers - {uid};
        Forget(uid);
      }
    }

    method OnClose(uid: UInt32)
      requires Valid()
      modifies this`acceptedNodes, this`peersByUid, this`model, this`values, nodes
      ensures Valid() && model == E.OnClose(old(model), uid)
    {
      if uid in acceptedNodes {
        acceptedNodes := acceptedNodes - {uid};
      }
      model := model.(accepted := model.accepted - {uid});
      DropPeer(uid);
    }

    /** The first block of `onDisconnect`: the node is no longer connecting, and has no uid. */
    method Detach(uid: UInt32)
      requires Valid() && uid in connectingNodes
      modifies this`connectingNodes, this`model, this`values, nodes
      ensures Valid()
      ensures model == old(model).(connecting := old(model).connecting - {uid},
                                   directory := E.ZeroUid(old(model).directory, old(model).connecting[uid]))
    {
      hide Agree;
      Connecting(uid);
      Detached(Table(), View(), uid);
      var node := connectingNodes[uid];
      connectingNodes := connectingNodes - {uid};
      model := model.(connecting := model.connecting - {uid});
      SetUid(node, 0);
    }

    method OnDisconnect(uid: UInt32)
      requires Valid()
      modifies this`connectingNodes, this`peersByUid, this`model, this`values, nodes
      ensures Valid() && model == E.OnDisconnect(old(model), uid)
    {
      if uid in connectingNodes {
        Detach(uid);
      }
      DropPeer(uid);
    }

    method OnUnlisten(uid: UInt32)
      requires Valid()
      modifies this`nodeUid, this`nodeCode, this`nodeType, this`nodeInfo, this`model
      ensures Valid() && model == E.OnUnlisten(old(model), uid)
    {
      if uid == nodeUid {
        nodeUid, nodeCode, nodeType, nodeInfo := 0, 0, 0, [];
      }
      model := E.OnUnlisten(model, uid);
    }

    method RemoveProtocol(uid: UInt32)
      requires Valid()
      modifies this`protocols, this`model
      ensures Valid() && model == E.RemoveProtocol(old(model), uid)
    {
      protocols := protocols - {uid};
      model := E.RemoveProtocol(model, uid);
    }

    /** `core::remove(_accpetedNodes, uid)`. */
    method RemoveAccepted(uid: UInt32)
      requires Valid()
      modifies this`acceptedNodes, this`model
      ensures Valid() && model == old(model).(accepted := old(model).accepted - {uid})
    {
      acceptedNodes := acceptedNodes - {uid};
      model := model.(accepted := acceptedNodes);
    }

    /** `IOEngine::close`. */
    method Close(uid: UInt32) returns (effect: E.Effect)
      requires Valid()
      modifies this, nodes
      ensures Valid() && nodes == old(nodes)
      ensures E.Result(model, effect) == E.Close(old(model), uid)
    {
      effect := E.Nothing;
      if uid in protocols {
        effect := E.Closed(uid);
        if protocols[uid].available {
          match protocols[uid].kind
          case Listener => OnUnlisten(uid);
          case Session => OnClose(uid);
          case Connector => OnDisconnect(uid);
        }
        RemoveProtocol(uid);
      }
    }

    // ---- identity and directory -----------------------------------------------------------

    method SetupNode(code: UInt32, typ: UInt32, info: Text, answer: UInt32, confirmed: bool) returns (uid: UInt32)
      requires Valid()
      modifies this`nodeUid, this`nodeCode, this`nodeType, this`nodeInfo, this`protocols, this`model
      ensures Valid() && model == E.SetupNode(old(model), code, typ, info, answer, confirmed)
      ensures uid == if old(nodeUid) == 0 && confirmed then answer else 0
    {
      if nodeUid != 0 {
        return 0;
      }
      SetIdentity(answer, code, typ, info);
      if nodeUid == 0 {
        return 0;
      }
      if !confirmed {
        SetIdentity(0, code, typ, info);
        return 0;
      }
      AddListener(answer);
      return nodeUid;
    }

    method SetIdentity(uid: UInt32, code: UInt32, typ: UInt32, info: Text)
      requires Valid()
      modifies this`nodeUid, this`nodeCode, this`nodeType, this`nodeInfo, this`model
      ensures Valid() && nodeUid == uid
      ensures model == old(model).(nodeUid := uid, nodeCode := code, nodeType := typ, nodeInfo := info)
    {
      nodeUid, nodeCode, nodeType, nodeInfo := uid, code, typ, info;
      model := model.(nodeUid := uid, nodeCode := code, nodeType := typ, nodeInfo := info);
    }

    method AddListener(uid: UInt32)
      requires Valid()
      modifies this`protocols, this`model
      ensures Valid() && model == old(model).(protocols := old(model).protocols[uid := E.Protocol(E.Listener, true)])
    {
      protocols := protocols[uid := E.Protocol(E.Listener, true)];
      model := model.(protocols := protocols);
    }

    /** `IOEngine::connect`; `answer` is the uid the network gives. */
    method Connect(answer: UInt32) returns (uid: UInt32)
      requires Valid()
      modifies this`protocols, this`model
      ensures Valid() && uid == answer && model == E.Connect(old(model), answer)
    {
      if answer != 0 {
        protocols := protocols[answer := E.Protocol(E.Connector, false)];
      }
      model := E.Connect(model, answer);
      uid := answer;
    }

    /** Makes a node and inserts it into the directory. */
    method List(code: UInt32, typ: UInt32) returns (node: Node)
      requires Valid() && code !in connectNodes
      modifies this`connectNodes, this`model, this`nodes, this`values
      ensures Valid() && fresh(node) && nodes == old(nodes) + {node}
      ensures node.code == code && connectNodes == old(connectNodes)[code := node]
      ensures model == old(model).(directory := old(model).directory[code := E.Node(0, code, typ, [])])
    {
      hide Agree;
      ghost var was := values;
      node := MakeNode(0, code, typ, [], ForCode(code));
      EntryAdded(Table().(values := was), View(), code, node, E.Node(0, code, typ, []));
      connectNodes := connectNodes[code := node];
      model := model.(directory := model.directory[code := E.Node(0, code, typ, [])]);
    }

    /** A directory node is connecting under `uid`. */
    method Attach(uid: UInt32, node: Node)
      requires Valid() && node.code in connectNodes && connectNodes[node.code] == node
      modifies this`connectingNodes, this`model
      ensures Valid() && model == old(model).(connecting := old(model).connecting[uid := node.code])
    {
      hide Agree;
      Attached(Table(), View(), uid, node.code);
      connectingNodes := connectingNodes[uid := node];
      model := model.(connecting := model.connecting[uid := node.code]);
    }

    method Dial(node: Node, answer: UInt32) returns (uid: UInt32)
      requires Valid() && node.code in connectNodes && connectNodes[node.code] == node
      modifies this`protocols, this`connectingNodes, this`model, this`values, node`uid
      ensures Valid() && uid == answer && model == Dialled(old(model), node.code, answer)
    {
      uid := Connect(answer);
      SetUid(node, uid);
      if node.uid != 0 && node.uid !in connectingNodes {
        Attach(node.uid, node);
      }
    }

    method ConnectNode(code: UInt32, typ: UInt32, answer: UInt32) returns (uid: UInt32)
      requires Valid()
      modifies this`protocols, this`connectNodes, this`connectingNodes, this`model, this`nodes, this`values
      ensures Valid() && fresh(nodes - old(nodes))
      ensures model == E.ConnectNode(old(model), code, typ, answer)
      ensures uid == if code in old(connectNodes) then 0 else answer
    {
      hide Agree;
      Listed(code);
      if code in connectNodes {
        return 0;
      }
      ConnectNodeInSteps(model, code, typ, answer);
      var node := List(code, typ);
      uid := Dial(node, answer);
    }

    /** The loop of `onTimer1000ms` over the directory, in the order of `codes`. */
    method OnTimer1000ms(codes: seq<UInt32>, answers: seq<UInt32>)
      requires Valid() && |codes| == |answers|
      requires forall c :: c in codes <==> c in connectNodes
      modifies this`protocols, this`connectingNodes, this`model, this`values, nodes
      ensures Valid() && model == E.Sweep(old(model), codes, answers)
      ensures forall i | 0 <= i < |codes| && CallFacts.Due(old(model), codes, answers, i) ::
                CallFacts.Dialling(model, codes[i], answers[i])
    {
      hide Agree;
      var i := 0;
      while i < |codes|
        invariant 0 <= i <= |codes| && Valid() && nodes == old(nodes) && connectNodes == old(connectNodes)
        invariant model == E.Sweep(old(model), codes[..i], answers[..i])
      {
        assert codes[..i + 1][..i] == codes[..i] && answers[..i + 1][..i] == answers[..i];
        ReconnectNode(codes[i], answers[i]);
        i := i + 1;
      }
      assert codes[..i] == codes && answers[..i] == answers;
      forall j | 0 <= j < |codes| && CallFacts.Due(old(model), codes, answers, j)
        ensures CallFacts.Dialling(model, codes[j], answers[j])
      {
        CallFacts.SweepDials(old(model), codes, answers, j);
      }
    }

    /** The body of that loop. */
    method ReconnectNode(code: UInt32, answer: UInt32)
      requires Valid() && code in connectNodes
      modifies this`protocols, this`connectingNodes, this`model, this`values, nodes
      ensures Valid() && model == E.Reconnect(old(model), code, answer)
      ensures old(connectNodes[code].uid) == 0 && answer != 0 ==>
                answer in protocols && protocols[answer] == E.Protocol(E.Connector, false)
    {
      var node := connectNodes[code];
      if node.uid == 0 {
        var uid := Connect(answer);
        SetUid(node, uid);
        if node.uid != 0 {
          Attach(node.uid, node);
        }
      }
    }

    // ---- connections ----------------------------------------------------------------------

    /** `IOEngine::send` to an available protocol. */
    method Send(uid: UInt32, packet: E.Packet) returns (effect: E.Effect)
      requires Valid()
      ensures effect == E.SendTo(model, uid, packet)
    {
      if uid in protocols && protocols[uid].available {
        effect := E.Send(uid, packet);
      } else {
        effect := E.Nothing;
      }
    }

    /** `onIOConnect` and `onConnect`. */
    method OnConnect(uid: UInt32, success: bool) returns (effect: E.Effect)
      requires Valid()
      modifies this`protocols, this`model
      ensures Valid()
      ensures E.Result(model, effect) == if success then E.OnConnected(old(model), uid) else E.Result(old(model), E.Nothing)
    {
      hide Agree;
      effect := E.Nothing;
      if uid !in protocols || !success {
        return;
      }
      Connecting(uid);
      protocols := protocols[uid := protocols[uid].(available := true)];
      model := model.(protocols := protocols);
      if uid in connectingNodes {
        var node := connectingNodes[uid];
        effect := Send(node.uid, E.PingPacket(Hello(nodeCode, nodeType, nodeInfo, node.code, node.typ)));
      }
    }

    /** `onIOAccept` and `onAccept`. */
    method OnAccept(uid: UInt32, fromUid: UInt32) returns (effect: E.Effect)
      requires Valid()
      modifies this, nodes
      ensures Valid() && E.Result(model, effect) == E.OnAccept(old(model), uid, fromUid)
      ensures uid !in old(protocols) && uid !in old(acceptedNodes) ==>
                (uid in acceptedNodes <==>
                   fromUid in old(protocols) && old(protocols)[fromUid].available && fromUid == old(nodeUid))
    {
      effect := E.Nothing;
      if fromUid !in protocols || !protocols[fromUid].available || uid in protocols {
        return;
      }
      protocols := protocols[uid := E.Protocol(E.Session, true)];
      model := model.(protocols := protocols);
      if nodeUid == fromUid {
        if uid in acceptedNodes {
          effect := Close(uid);
        } else {
          acceptedNodes := acceptedNodes + {uid};
          model := model.(accepted := acceptedNodes);
        }
      }
    }

    /** `onIOClose` and `onClose`; the report is ignored when the session's protocol object is not available. */
    method SessionClosed(uid: UInt32, available: bool)
      requires Valid()
      modifies this, nodes
      ensures Valid() && model == if available then E.SessionClosed(old(model), uid) else old(model)
    {
      if !available {
        return;
      }
      OnClose(uid);
      RemoveProtocol(uid);
    }

    /** `onIODisconnect` and `onDisconnect`. */
    method ConnectorLost(uid: UInt32)
      requires Valid()
      modifies this, nodes
      ensures Valid() && model == E.ConnectorLost(old(model), uid)
    {
      if uid in protocols && protocols[uid].available {
        OnDisconnect(uid);
        RemoveProtocol(uid);
      }
    }

    // ---- Ping and Pong --------------------------------------------------------------------

    /** A new node becomes the peer under `uid`, with the callback. */
    method AddSessionPeer(uid: UInt32, h: Hello)
      requires Valid() && uid !in peersByUid
      modifies this`peersByUid, this`nodes, this`values, this`model
      ensures Valid() && fresh(nodes - old(nodes))
      ensures var peer := E.Own(E.Node(uid, h.fromCode, h.fromType, h.info));
              model == old(model).(peers := old(model).peers[uid := peer],
                                   log := old(model).log + [E.Connected(uid, h.fromCode, h.fromType)])
    {
      hide Agree;
      ghost var was, v := values, E.Node(uid, h.fromCode, h.fromType, h.info);
      var node := MakeNode(uid, h.fromCode, h.fromType, h.info, ForSession(uid));
      OwnPeerAdded(Table().(values := was), View(), uid, node, v);
      peersByUid := peersByUid[uid := node];
      model := model.(peers := model.peers[uid := E.Own(v)],
                      log := model.log + [E.Connected(uid, h.fromCode, h.fromType)]);
    }

    method HandlerNodePing(uid: UInt32, packet: E.Packet) returns (effect: E.Effect)
      requires Valid()
      modifies this, nodes
      ensures Valid() && fresh(nodes - old(nodes))
      ensures E.Result(model, effect) == E.HandlePing(old(model), uid, packet)
    {
      var hello := E.ReadHello(packet);
      if hello.None? {
        effect := Close(uid);
        return;
      }
      var h := hello.value;
      if h.toCode != nodeCode || h.toType != nodeType {
        effect := Close(uid);
        return;
      }
      if uid !in acceptedNodes {
        effect := Close(uid);
        return;
      }
      if uid in peersByUid {
        effect := Close(uid);
        return;
      }
      AddSessionPeer(uid, h);
      effect := Send(uid, E.PongPacket(Hello(nodeCode, nodeType, nodeInfo, h.fromCode, h.fromType)));
    }

    /** `node->_info = info` for a node of the directory. */
    method SetInfo(node: Node, info: Text)
      requires Valid() && node.code in connectNodes && connectNodes[node.code] == node
      modifies this`model, this`values, node`info
      ensures Valid()
      ensures var was := old(model).directory;
              model == old(model).(directory := was[node.code := was[node.code].(info := info)])
    {
      hide Agree;
      ListedNode(Table(), View(), node.code);
      ghost var v := model.directory[node.code].(info := info);
      ghost var t := Table().(values := values[node := v]);
      ghost var w := View().(directory := model.directory[node.code := v]);
      assert Agree(t, w) by {
        ListedChanges(Table(), View(), node.code, v);
      }
      StoreInfo(node, info, v);
      model := model.(directory := model.directory[node.code := v]);
      assert Table() == t && View() == w;
    }

    /** A directory node becomes the peer under `uid`, with the callback. */
    method InsertPeer(uid: UInt32, node: Node)
      requires Valid() && uid !in peersByUid && node.code in connectNodes && connectNodes[node.code] == node
      modifies this`peersByUid, this`model
      ensures Valid()
      ensures model == old(model).(peers := old(model).peers[uid := E.Shared(node.code)],
                                   log := old(model).log + [E.Connected(uid, node.code, node.typ)])
    {
      hide Agree;
      Listed(node.code);
      SharedPeerAdded(Table(), View(), uid, node.code);
      peersByUid := peersByUid[uid := node];
      model := model.(peers := model.peers[uid := E.Shared(node.code)],
                      log := model.log + [E.Connected(uid, node.code, node.typ)]);
    }

    /** A directory node becomes the peer under `uid` and keeps the info it was sent. */
    method AddConnectorPeer(uid: UInt32, node: Node, info: Text)
      requires Valid() && uid !in peersByUid && node.code in connectNodes && connectNodes[node.code] == node
      modifies this`peersByUid, this`model, this`values, node`info
      ensures Valid()
      ensures var was := old(model);
              var n := was.directory[node.code];
              model == was.(peers := was.peers[uid := E.Shared(node.code)],
                            directory := was.directory[node.code := n.(info := info)],
                            log := was.log + [E.Connected(uid, n.code, n.typ)])
    {
      InsertPeer(uid, node);
      SetInfo(node, info);
    }

    /** The handler's second half, once a connecting node has been found. */
    method FinishPong(uid: UInt32, h: Hello) returns (effect: E.Effect)
      requires Valid() && uid in connectingNodes
      modifies this, nodes
      ensures Valid() && nodes == old(nodes)
      ensures var was := old(model).(accepted := old(model).accepted - {uid});
              var node := was.directory[was.connecting[uid]];
              E.Result(model, effect) ==
              if node.code != h.fromCode || node.typ != h.fromType || uid in was.peers then E.Close(was, uid)
              else E.Result(was.(peers := was.peers[uid := E.Shared(node.code)],
                                 directory := was.directory[node.code := node.(info := h.info)],
                                 log := was.log + [E.Connected(uid, node.code, node.typ)]), E.Nothing)
    {
      hide Agree;
      effect := E.Nothing;
      Connecting(uid);
      PeerNode(Table(), View(), uid);
      var node := connectingNodes[uid];
      RemoveAccepted(uid);
      if node.code != h.fromCode || node.typ != h.fromType {
        effect := Close(uid);
        return;
      }
      if uid in peersByUid {
        effect := Close(uid);
        return;
      }
      AddConnectorPeer(uid, node, h.info);
    }

    method HandlerNodePong(uid: UInt32, packet: E.Packet) returns (effect: E.Effect)
      requires Valid()
      modifies this, nodes
      ensures Valid() && nodes == old(nodes)
      ensures E.Result(model, effect) == E.HandlePong(old(model), uid, packet)
    {
      hide Agree;
      var hello := E.ReadHello(packet);
      if hello.None? {
        effect := Close(uid);
        return;
      }
      var h := hello.value;
      if h.toCode != nodeCode || h.toType != nodeType {
        effect := Close(uid);
        return;
      }
      Connecting(uid);
      if uid !in connectingNodes {
        effect := Close(uid);
        return;
      }
      effect := FinishPong(uid, h);
    }

    /** `onIOPacket`, for the two commands `onInit` binds. */
    method OnPacket(uid: UInt32, packet: E.Packet) returns (effect: E.Effect)
      requires Valid()
      modifies this, nodes
      ensures Valid() && fresh(nodes - old(nodes))
      ensures E.Result(model, effect) == E.OnPacket(old(model), uid, packet)
    {
      effect := E.Nothing;
      if uid in protocols && protocols[uid].available {
        if packet.cmd == E.PING {
          effect := HandlerNodePing(uid, packet);
        } else if packet.cmd == E.PONG {
          effect := HandlerNodePong(uid, packet);
        }
      }
    }
  }
}
