/**
 One engine (`NetEngine` on top of `IOEngine`) as a value: its tables and, for each handler, the
 new tables and what the handler hands to the network. Nodes are shared between three tables of
 the source; here the directory holds the shared node and the other tables refer to it by code.
 */
module Engine {
  import opened Types
  import opened Handshake

  // ---- state ------------------------------------------------------------------------------

  datatype Kind = Listener | Connector | Session

  datatype Protocol = Protocol(kind: Kind, available: bool)

  datatype Node = Node(uid: UInt32, code: UInt32, typ: UInt32, info: Text)

  /** A peer is the directory's own node, or a node made for an accepted session. */
  datatype Peer = Shared(code: UInt32) | Own(node: Node)

  /** A call of `onNodeConnect` or `onNodeDisConnect`. */
  datatype Callback = Connected(uid: UInt32, code: UInt32, typ: UInt32) | Disconnected(uid: UInt32)

  datatype Engine = Engine(
    nodeUid: UInt32,
    nodeCode: UInt32,
    nodeType: UInt32,
    nodeInfo: Text,
    protocols: map<UInt32, Protocol>,
    directory: map<UInt32, Node>,
    connecting: map<UInt32, UInt32>,
    accepted: set<UInt32>,
    peers: map<UInt32, Peer>,
    log: seq<Callback>)

  const START := Engine(0, 0, 0, [], map[], map[], map[], {}, map[], [])

  const PING: UInt32 := 2
  const PONG: UInt32 := 3

  /** A packet; `message` is `None` when it carries no serialized message. */
  datatype Packet = Packet(cmd: UInt32, message: Option<Bytes>)

  /** What one call hands to the network: at most one packet, or the request to close a uid. */
  datatype Effect = Nothing | Send(uid: UInt32, packet: Packet) | Closed(uid: UInt32)

  datatype Result = Result(engine: Engine, effect: Effect)

  function PingPacket(h: Hello): Packet { Packet(PING, Some(Pack(h))) }

  function PongPacket(h: Hello): Packet { Packet(PONG, Some(Pack(h))) }

  function ReadHello(p: Packet): Option<Hello> {
    if p.message.None? then None else Unpack(p.message.value)
  }

  // ---- closing ----------------------------------------------------------------------------

  function ZeroUid(directory: map<UInt32, Node>, code: UInt32): map<UInt32, Node> {
    if code in directory then directory[code := directory[code].(uid := 0)] else directory
  }

  /** The last block of `onClose` and `onDisconnect`: forget the peer, and say so. */
  function DropPeer(e: Engine, uid: UInt32): Engine {
    if uid !in e.peers then e else
    e.(peers := e.peers - {uid},
       directory := if e.peers[uid].Shared? then ZeroUid(e.directory, e.peers[uid].code) else e.directory,
       log := e.log + [Disconnected(uid)])
  }

  function OnClose(e: Engine, uid: UInt32): Engine {
    DropPeer(e.(accepted := e.accepted - {uid}), uid)
  }

  function OnDisconnect(e: Engine, uid: UInt32): Engine {
    var f := if uid !in e.connecting then e else
             e.(connecting := e.connecting - {uid}, directory := ZeroUid(e.directory, e.connecting[uid]));
    DropPeer(f, uid)
  }

  function OnUnlisten(e: Engine, uid: UInt32): Engine {
    if uid == e.nodeUid then e.(nodeUid := 0, nodeCode := 0, nodeType := 0, nodeInfo := []) else e
  }

  function RemoveProtocol(e: Engine, uid: UInt32): Engine { e.(protocols := e.protocols - {uid}) }

  /** `IOEngine::close`: the callback for the kind of uid runs inside the call. */
  function Close(e: Engine, uid: UInt32): Result {
    if uid !in e.protocols then Result(e, Nothing) else
    var f := if !e.protocols[uid].available then e else
             match e.protocols[uid].kind
             case Listener => OnUnlisten(e, uid)
             case Session => OnClose(e, uid)
             case Connector => OnDisconnect(e, uid);
    Result(RemoveProtocol(f, uid), Closed(uid))
  }

  /** The network reports a session closed; also once more after the engine closed it itself. */
  function SessionClosed(e: Engine, uid: UInt32): Engine { RemoveProtocol(OnClose(e, uid), uid) }

  /** The network reports a connector's loss; ignored unless the engine still holds it. */
  function ConnectorLost(e: Engine, uid: UInt32): Engine {
    if uid !in e.protocols || !e.protocols[uid].available then e
    else RemoveProtocol(OnDisconnect(e, uid), uid)
  }

  // ---- the identity of this node, and the directory ---------------------------------------

  /** `answer` is what `listen` returned, `confirmed` what `confirmListen` did. */
  function SetupNode(e: Engine, code: UInt32, typ: UInt32, info: Text, answer: UInt32, confirmed: bool): Engine {
    if e.nodeUid != 0 then e else
    var f := e.(nodeUid := answer, nodeCode := code, nodeType := typ, nodeInfo := info);
    if answer == 0 then f
    else if !confirmed then f.(nodeUid := 0)
    else f.(protocols := f.protocols[answer := Protocol(Listener, true)])
  }

  function Listen(e: Engine, answer: UInt32): Engine {
    if answer == 0 then e else e.(protocols := e.protocols[answer := Protocol(Listener, true)])
  }

  /** `IOEngine::connect` with the uid the network gave, 0 when it gave none. */
  function Connect(e: Engine, answer: UInt32): Engine {
    if answer == 0 then e else e.(protocols := e.protocols[answer := Protocol(Connector, false)])
  }

  function ConnectNode(e: Engine, code: UInt32, typ: UInt32, answer: UInt32): Engine {
    if code in e.directory then e else
    var f := Connect(e, answer).(directory := e.directory[code := Node(answer, code, typ, [])]);
    if answer == 0 || answer in e.connecting then f
    else f.(connecting := f.connecting[answer := code])
  }

  /** One round of the loop in `onTimer1000ms`; `answer` is what `connect` returned. */
  function Reconnect(e: Engine, code: UInt32, answer: UInt32): Engine {
    if code !in e.directory || e.directory[code].uid != 0 then e else
    var f := Connect(e, answer).(directory := e.directory[code := e.directory[code].(uid := answer)]);
    if answer == 0 then f else f.(connecting := f.connecting[answer := code])
  }

  /** The loop of `onTimer1000ms`: `answers[i]` is what `connect` returns for node `codes[i]`. */
  function Sweep(e: Engine, codes: seq<UInt32>, answers: seq<UInt32>): Engine
    requires |codes| == |answers|
  {
    if codes == [] then e else
    var n := |codes| - 1;
    Reconnect(Sweep(e, codes[..n], answers[..n]), codes[n], answers[n])
  }

  // ---- connections ------------------------------------------------------------------------

  /** `IOEngine::send` drops a packet for a uid that is not an available protocol. */
  function SendTo(e: Engine, uid: UInt32, packet: Packet): Effect {
    if uid in e.protocols && e.protocols[uid].available then Send(uid, packet) else Nothing
  }

  /** The network reports that connector `uid` is connected. */
  function OnConnected(e: Engine, uid: UInt32): Result {
    if uid !in e.protocols then Result(e, Nothing) else
    var f := e.(protocols := e.protocols[uid := e.protocols[uid].(available := true)]);
    if uid !in e.connecting || e.connecting[uid] !in e.directory then Result(f, Nothing) else
    var node := e.directory[e.connecting[uid]];
    Result(f, SendTo(f, node.uid, PingPacket(Hello(e.nodeCode, e.nodeType, e.nodeInfo, node.code, node.typ))))
  }

  /** The network reports session `uid`, accepted by listener `from`. */
  function OnAccept(e: Engine, uid: UInt32, from: UInt32): Result {
    if from !in e.protocols || !e.protocols[from].available then Result(e, Nothing)
    else if uid in e.protocols then Result(e, Nothing) else
    var f := e.(protocols := e.protocols[uid := Protocol(Session, true)]);
    if e.nodeUid != from then Result(f, Nothing)
    else if uid in e.accepted then Close(f, uid)
    else Result(f.(accepted := f.accepted + {uid}), Nothing)
  }

  // ---- Ping and Pong ----------------------------------------------------------------------

  /** The branch a handler takes. */
  datatype Branch = Malformed | NotForMe | Unexpected | WrongNode | Duplicate | Registers

  function PingBranch(e: Engine, uid: UInt32, p: Packet): Branch {
    if ReadHello(p).None? then Malformed else
    var h := ReadHello(p).value;
    if h.toCode != e.nodeCode || h.toType != e.nodeType then NotForMe
    else if uid !in e.accepted then Unexpected
    else if uid in e.peers then Duplicate
    else Registers
  }

  function HandlePing(e: Engine, uid: UInt32, p: Packet): Result {
    if PingBranch(e, uid, p) != Registers then Close(e, uid) else
    var h := ReadHello(p).value;
    var node := Node(uid, h.fromCode, h.fromType, h.info);
    var f := e.(peers := e.peers[uid := Own(node)], log := e.log + [Connected(uid, h.fromCode, h.fromType)]);
    Result(f, SendTo(f, uid, PongPacket(Hello(e.nodeCode, e.nodeType, e.nodeInfo, h.fromCode, h.fromType))))
  }

  function PongBranch(e: Engine, uid: UInt32, p: Packet): Branch {
    if ReadHello(p).None? then Malformed else
    var h := ReadHello(p).value;
    if h.toCode != e.nodeCode || h.toType != e.nodeType then NotForMe
    else if uid !in e.connecting || e.connecting[uid] !in e.directory then Unexpected else
    var node := e.directory[e.connecting[uid]];
    if node.code != h.fromCode || node.typ != h.fromType then WrongNode
    else if uid in e.peers then Duplicate
    else Registers
  }

  function HandlePong(e: Engine, uid: UInt32, p: Packet): Result {
    match PongBranch(e, uid, p)
    case Malformed => Close(e, uid)
    case NotForMe => Close(e, uid)
    case Unexpected => Close(e, uid)
    case WrongNode => Close(e.(accepted := e.accepted - {uid}), uid)
    case Duplicate => Close(e.(accepted := e.accepted - {uid}), uid)
    case Registers =>
      var h := ReadHello(p).value;
      var code := e.connecting[uid];
      var node := e.directory[code];
      Result(e.(accepted := e.accepted - {uid},
                peers := e.peers[uid := Shared(code)],
                directory := e.directory[code := node.(info := h.info)],
                log := e.log + [Connected(uid, node.code, node.typ)]), Nothing)
  }

  /** A packet reaches its handler only while the engine holds its uid as available. */
  function OnPacket(e: Engine, uid: UInt32, p: Packet): Result {
    if uid !in e.protocols || !e.protocols[uid].available then Result(e, Nothing)
    else if p.cmd == PING then HandlePing(e, uid, p)
    else if p.cmd == PONG then HandlePong(e, uid, p)
    else Result(e, Nothing)
  }

  // ---- what every call keeps --------------------------------------------------------------

  /**
   `connecting` is exactly the inverse of the non-zero uids of the directory's nodes: one live
   uid per code, one code per uid.
   */
  ghost predicate DirectoryBijection(e: Engine) {
    && (forall c | c in e.directory :: e.directory[c].code == c)
    && (forall u | u in e.connecting ::
          u != 0 && e.connecting[u] in e.directory && e.directory[e.connecting[u]].uid == u)
    && (forall c | c in e.directory && e.directory[c].uid != 0 ::
          e.directory[c].uid in e.connecting && e.connecting[e.directory[c].uid] == c)
  }

  /** No uid is both accepted and connecting, and every peer's uid is one or the other. */
  ghost predicate PeerPartition(e: Engine) {
    && e.accepted !! e.connecting.Keys
    && (forall u | u in e.peers && e.peers[u].Shared? ::
          u in e.connecting && e.connecting[u] == e.peers[u].code)
    && (forall u | u in e.peers && e.peers[u].Own? :: u in e.accepted && e.peers[u].node.uid == u)
  }

  /** Accepted uids are available sessions; a connecting uid the engine still holds is a connector. */
  ghost predicate KindsAgree(e: Engine) {
    && 0 !in e.protocols
    && (forall u | u in e.accepted :: u in e.protocols && e.protocols[u] == Protocol(Session, true))
    && (forall u | u in e.connecting && u in e.protocols :: e.protocols[u].kind == Connector)
    && (forall u | u in e.peers && e.peers[u].Shared? :: u in e.protocols && e.protocols[u].available)
  }

  /** Was the last callback for `u` a connect? */
  ghost predicate Open(log: seq<Callback>, u: UInt32) {
    log != [] &&
    var c := log[|log| - 1];
    if c.uid == u then c.Connected? else Open(log[..|log| - 1], u)
  }

  /** For every uid the callbacks alternate, starting with a connect. */
  ghost predicate Alternates(log: seq<Callback>) {
    log == [] ||
    var c := log[|log| - 1];
    Alternates(log[..|log| - 1]) && c.Connected? != Open(log[..|log| - 1], c.uid)
  }

  /** The peers are exactly the uids whose last callback was a connect. */
  ghost predicate CallbacksAgree(e: Engine) {
    Alternates(e.log) && forall u: UInt32 :: u in e.peers <==> Open(e.log, u)
  }

  ghost predicate Consistent(e: Engine) {
    DirectoryBijection(e) && PeerPartition(e) && KindsAgree(e) && CallbacksAgree(e)
  }

  /** A uid the network may hand out: it names nothing the engine holds. */
  predicate Unused(e: Engine, u: UInt32) {
    u != 0 && u !in e.protocols && u !in e.connecting && u !in e.accepted && u !in e.peers
  }
}
