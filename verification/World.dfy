/**
 Any number of engines and the TCP connections between them. A connection is a link with one FIFO
 queue per direction. Each step is one event an engine handles, or one thing the network does.
 */
module World {
  import opened Types
  import opened Handshake
  import opened Engine
  import opened EngineFacts

  /**
   One end of a link. `Idle`: the engine has not been told that the connection is up. `Up`: it has.
   `Down`: the engine closed it or was told of its loss. `Free`: the network has taken the uid back.
   */
  datatype Side = Idle | Up | Down | Free

  /**
   A connection from connector `cu` of engine `a` to session `su` of engine `b`, accepted by
   listener `via`. `asked` and `answered` record the Ping and the Pong that were sent on it; they
   only say what happened, no step depends on them.
   */
  datatype Link = Link(
    a: nat, cu: UInt32, aSide: Side,
    b: nat, su: UInt32, bSide: Side, via: UInt32,
    toB: seq<Packet>, toA: seq<Packet>, cut: bool,
    asked: Option<Hello>, answered: Option<Hello>)

  datatype World = World(engines: seq<Engine>, links: seq<Link>)

  datatype Step =
    // what the owner of engine `e` does
    | DoSetupNode(e: nat, code: UInt32, typ: UInt32, info: Text, answer: UInt32, confirmed: bool)
    | DoListen(e: nat, answer: UInt32)
    | DoConnect(e: nat, answer: UInt32)
    | DoConnectNode(e: nat, code: UInt32, typ: UInt32, answer: UInt32)
    | DoClose(e: nat, uid: UInt32)
    // one node of the timer's sweep
    | DoReconnect(e: nat, code: UInt32, answer: UInt32)
    // the network connects connector `uid` of `e` to listener `via` of `b`; the session is `su`
    | Establish(e: nat, uid: UInt32, b: nat, via: UInt32, su: UInt32)
    // what the network reports about link `l`
    | ReportConnected(l: nat)
    | ReportFailed(l: nat)
    | ReportAccepted(l: nat)
    | ReportLost(l: nat)
    | ReportClosed(l: nat)
    // the oldest packet in flight arrives
    | DeliverToB(l: nat)
    | DeliverToA(l: nat)
    // the connection breaks: only prefixes of what is in flight survive
    | Cut(l: nat, keepB: nat, keepA: nat)
    // the uid of a dead end is taken back
    | Release(l: nat, atA: bool)

  ghost predicate Initial(w: World) {
    w.links == [] && forall i | 0 <= i < |w.engines| :: w.engines[i] == START
  }

  // ---- uids -------------------------------------------------------------------------------

  predicate OwnsA(l: Link, e: nat, u: UInt32) { l.a == e && l.cu == u && l.aSide != Free }

  predicate OwnsB(l: Link, e: nat, u: UInt32) { l.b == e && l.su == u && l.bSide != Free }

  /** The network may give `u` to engine `e`: it is in no table and no link still uses it. */
  ghost predicate Fresh(w: World, e: nat, u: UInt32)
    requires e < |w.engines|
  {
    Unused(w.engines[e], u) &&
    forall l | l in w.links ::
      !OwnsA(l, e, u) && !OwnsB(l, e, u) && !(l.b == e && l.bSide == Idle && l.via == u)
  }

  // ---- steps ------------------------------------------------------------------------------

  /** What an effect of engine `e` does to a link: packets are queued unless the link is cut. */
  function Affect(l: Link, e: nat, effect: Effect): Link {
    match effect
    case Nothing => l
    case Send(u, p) =>
      if OwnsA(l, e, u) && l.aSide == Up then
        l.(asked := ReadHello(p), toB := if l.cut then l.toB else l.toB + [p])
      else if OwnsB(l, e, u) && l.bSide == Up then
        l.(answered := ReadHello(p), toA := if l.cut then l.toA else l.toA + [p])
      else l
    case Closed(u) =>
      if OwnsA(l, e, u) then l.(aSide := Down) else if OwnsB(l, e, u) then l.(bSide := Down) else l
  }

  /** Engine `e` has run a call with result `r`. */
  function Ran(w: World, e: nat, r: Result): World
    requires e < |w.engines|
  {
    World(w.engines[e := r.engine], seq(|w.links|, i requires 0 <= i < |w.links| => Affect(w.links[i], e, r.effect)))
  }

  function Moved(w: World, e: nat, f: Engine): World
    requires e < |w.engines|
  {
    w.(engines := w.engines[e := f])
  }

  function Relinked(w: World, i: nat, l: Link): World
    requires i < |w.links|
  {
    w.(links := w.links[i := l])
  }

  ghost predicate Enabled(w: World, s: Step) {
    match s
    case DoSetupNode(e, _, _, _, u, _) => e < |w.engines| && (u == 0 || Fresh(w, e, u))
    case DoListen(e, u) => e < |w.engines| && (u == 0 || Fresh(w, e, u))
    case DoConnect(e, u) => e < |w.engines| && (u == 0 || Fresh(w, e, u))
    case DoConnectNode(e, _, _, u) => e < |w.engines| && (u == 0 || Fresh(w, e, u))
    case DoReconnect(e, _, u) => e < |w.engines| && (u == 0 || Fresh(w, e, u))
    case DoClose(e, _) => e < |w.engines|
    case Establish(e, u, b, via, su) =>
      && e < |w.engines| && b < |w.engines|
      && u in w.engines[e].protocols && w.engines[e].protocols[u] == Protocol(Connector, false)
      && (forall l | l in w.links :: !OwnsA(l, e, u))
      && via in w.engines[b].protocols && w.engines[b].protocols[via].kind == Listener
      && Fresh(w, b, su)
    case ReportConnected(l) => l < |w.links| && w.links[l].aSide == Idle
    case ReportFailed(l) => l < |w.links| && w.links[l].aSide == Idle
    case ReportAccepted(l) => l < |w.links| && w.links[l].bSide == Idle
    case ReportLost(l) => l < |w.links| && w.links[l].aSide == Up
    case ReportClosed(l) => l < |w.links| && (w.links[l].bSide == Up || w.links[l].bSide == Down)
    case DeliverToB(l) => l < |w.links| && w.links[l].bSide == Up && w.links[l].toB != []
    case DeliverToA(l) => l < |w.links| && w.links[l].aSide == Up && w.links[l].toA != []
    case Cut(l, i, j) => l < |w.links| && i <= |w.links[l].toB| && j <= |w.links[l].toA|
    case Release(l, atA) =>
      l < |w.links| && if atA then w.links[l].aSide == Down else w.links[l].bSide == Down
  }

  ghost predicate InRange(w: World) {
    forall l | l in w.links :: l.a < |w.engines| && l.b < |w.engines|
  }

  function Next(w: World, s: Step): (v: World)
    requires InRange(w) && Enabled(w, s)
  {
    match s
    case DoSetupNode(e, code, typ, info, u, ok) => Moved(w, e, SetupNode(w.engines[e], code, typ, info, u, ok))
    case DoListen(e, u) => Moved(w, e, Listen(w.engines[e], u))
    case DoConnect(e, u) => Moved(w, e, Connect(w.engines[e], u))
    case DoConnectNode(e, code, typ, u) => Moved(w, e, ConnectNode(w.engines[e], code, typ, u))
    case DoReconnect(e, code, u) => Moved(w, e, Reconnect(w.engines[e], code, u))
    case DoClose(e, u) => Ran(w, e, Close(w.engines[e], u))
    case Establish(e, u, b, via, su) =>
      w.(links := w.links + [Link(e, u, Idle, b, su, Idle, via, [], [], false, None, None)])
    case ReportConnected(i) =>
      var l := w.links[i];
      Ran(Relinked(w, i, l.(aSide := Up)), l.a, OnConnected(w.engines[l.a], l.cu))
    case ReportFailed(i) => Relinked(w, i, w.links[i].(aSide := Free))
    case ReportAccepted(i) =>
      var l := w.links[i];
      var r := OnAccept(w.engines[l.b], l.su, l.via);
      Ran(Relinked(w, i, l.(bSide := if l.su in r.engine.protocols then Up else Down)), l.b, r)
    case ReportLost(i) =>
      var l := w.links[i];
      Moved(Relinked(w, i, l.(aSide := Down)), l.a, ConnectorLost(w.engines[l.a], l.cu))
    case ReportClosed(i) =>
      var l := w.links[i];
      Moved(Relinked(w, i, l.(bSide := Down)), l.b, SessionClosed(w.engines[l.b], l.su))
    case DeliverToB(i) =>
      var l := w.links[i];
      Ran(Relinked(w, i, l.(toB := l.toB[1..])), l.b, OnPacket(w.engines[l.b], l.su, l.toB[0]))
    case DeliverToA(i) =>
      var l := w.links[i];
      Ran(Relinked(w, i, l.(toA := l.toA[1..])), l.a, OnPacket(w.engines[l.a], l.cu, l.toA[0]))
    case Cut(i, keepB, keepA) =>
      var l := w.links[i];
      Relinked(w, i, l.(cut := true, toB := l.toB[..keepB], toA := l.toA[..keepA]))
    case Release(i, atA) =>
      Relinked(w, i, if atA then w.links[i].(aSide := Free) else w.links[i].(bSide := Free))
  }

  // ---- the invariant ----------------------------------------------------------------------

  /** What has been sent on a link and what is in flight. */
  ghost predicate Traffic(l: Link) {
    && (l.aSide == Idle ==> l.asked.None?)
    && (l.asked.None? ==> l.toB == [] && l.answered.None?)
    && (l.answered.None? ==> l.toA == [])
    && (l.asked.Some? ==> l.toB == [] || (l.answered.None? && l.toB == [PingPacket(l.asked.value)]))
    && (l.answered.Some? ==>
          && Reply(l.asked.value, l.answered.value)
          && (l.toA == [] || l.toA == [PongPacket(l.answered.value)]))
  }

  /** `q` answers `p`: it comes from the node `p` asked for and goes to the node that asked. */
  predicate Reply(p: Hello, q: Hello) {
    q.fromCode == p.toCode && q.fromType == p.toType && q.toCode == p.fromCode && q.toType == p.fromType
  }

  /** The connector's engine. */
  ghost predicate EndA(e: Engine, l: Link) {
    var at := At(e, l.cu);
    match l.aSide
    case Idle => at.protocol == Some(Protocol(Connector, false)) && at.peer.None?
    case Up =>
      && at.protocol == Some(Protocol(Connector, true))
      && (l.asked.Some? ==>
            var c := l.asked.value.toCode;
            && at.connecting == Some(c) && c in e.directory
            && e.directory[c].code == c && e.directory[c].typ == l.asked.value.toType)
      && (at.peer.Some? ==> l.asked.Some? && l.answered.Some? && l.toA == [] && at.peer.value == Shared(l.asked.value.toCode))
      && (l.answered.Some? && !l.cut && l.toA == [] ==> at.peer.Some?)
    case Down => at.protocol.None? && at.peer.None? && !at.accepted
    case Free => true
  }

  /** The session's engine. */
  ghost predicate EndB(e: Engine, l: Link) {
    var at := At(e, l.su);
    match l.bSide
    case Idle => at == Slot(None, None, false, None) && l.answered.None?
    case Up =>
      && at.protocol == Some(Protocol(Session, true))
      && (l.answered.None? ==> at.peer.None?)
      && (l.asked.Some? && l.answered.Some? ==>
            var p := l.asked.value;
            at.peer == Some(Own(Node(l.su, p.fromCode, p.fromType, p.info))))
    case Down => at == Slot(None, None, false, None)
    case Free => true
  }

  ghost predicate Sound(w: World, l: Link) {
    && l.a < |w.engines| && l.b < |w.engines| && l.cu != 0 && l.su != 0
    && Traffic(l) && EndA(w.engines[l.a], l) && EndB(w.engines[l.b], l)
  }

  /** No uid of an engine is used by two ends. */
  ghost predicate Disjoint(k: Link, l: Link) {
    && !(k.a == l.a && k.cu == l.cu && k.aSide != Free && l.aSide != Free)
    && !(k.b == l.b && k.su == l.su && k.bSide != Free && l.bSide != Free)
    && !Crossed(k, l) && !Crossed(l, k)
  }

  ghost predicate Crossed(k: Link, l: Link) {
    k.a == l.b && k.cu == l.su && k.aSide != Free && l.bSide != Free
  }

  ghost predicate Ends(w: World) {
    && (forall i, j | 0 <= i < j < |w.links| :: Disjoint(w.links[i], w.links[j]))
    && (forall i | 0 <= i < |w.links| :: !Crossed(w.links[i], w.links[i]))
  }

  /** The links agree with the engines at their ends and with each other. */
  ghost predicate Linked(w: World) {
    (forall i | 0 <= i < |w.links| :: Sound(w, w.links[i])) && Ends(w)
  }

  ghost predicate Healthy(w: World) {
    forall i | 0 <= i < |w.engines| :: Consistent(w.engines[i])
  }

  ghost predicate Inv(w: World) { Healthy(w) && Linked(w) }
}
