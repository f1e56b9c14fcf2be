/** Every enabled step keeps the invariant of the world. */
module WorldFacts {
  import opened Types
  import opened Handshake
  import opened Engine
  import opened EngineFacts
  import opened World

  // ---- frames -----------------------------------------------------------------------------

  predicate Owns(l: Link, e: nat, u: UInt32) { OwnsA(l, e, u) || OwnsB(l, e, u) }

  predicate Concerns(effect: Effect, u: UInt32) { effect == Nothing || effect.uid == u }

  lemma EndAFrame(e: Engine, f: Engine, l: Link, u: UInt32)
    requires EndA(e, l) && OnlyTouches(e, f, u) && (l.cu != u || l.aSide == Free)
    ensures EndA(f, l)
  {
    if l.cu != u { assert At(e, l.cu) == At(f, l.cu); }
  }

  lemma EndBFrame(e: Engine, f: Engine, l: Link, u: UInt32)
    requires EndB(e, l) && OnlyTouches(e, f, u) && (l.su != u || l.bSide == Free)
    ensures EndB(f, l)
  {
    if l.su != u { assert At(e, l.su) == At(f, l.su); }
  }

  /** A call of engine `e` about uid `u` does not disturb a link that does not use `u` there. */
  lemma SoundFrame(w: World, v: World, l: Link, e: nat, u: UInt32)
    requires e < |w.engines| && |v.engines| == |w.engines|
    requires forall i | 0 <= i < |w.engines| && i != e :: v.engines[i] == w.engines[i]
    requires OnlyTouches(w.engines[e], v.engines[e], u)
    requires Sound(w, l) && !Owns(l, e, u)
    ensures Sound(v, l)
  {
    if l.a == e { EndAFrame(w.engines[e], v.engines[e], l, u); }
    if l.b == e { EndBFrame(w.engines[e], v.engines[e], l, u); }
  }

  /** `v` has the links of `w`, at the same uids, and claims no uid that `w` had given up. */
  ghost predicate SameEnds(w: World, v: World) {
    |v.links| == |w.links| &&
    forall i | 0 <= i < |w.links| :: SameEnd(w.links[i], v.links[i])
  }

  ghost predicate SameEnd(k: Link, l: Link) {
    && k.a == l.a && k.cu == l.cu && k.b == l.b && k.su == l.su
    && (k.aSide == Free ==> l.aSide == Free) && (k.bSide == Free ==> l.bSide == Free)
  }

  lemma EndsKept(w: World, v: World)
    requires Ends(w) && SameEnds(w, v)
    ensures Ends(v)
  {
    forall i, j | 0 <= i < j < |v.links| ensures Disjoint(v.links[i], v.links[j]) {
      assert SameEnd(w.links[i], v.links[i]) && SameEnd(w.links[j], v.links[j]);
      assert Disjoint(w.links[i], w.links[j]);
    }
    forall i | 0 <= i < |v.links| ensures !Crossed(v.links[i], v.links[i]) {
      assert SameEnd(w.links[i], v.links[i]) && !Crossed(w.links[i], w.links[i]);
    }
  }

  /** A uid of an engine belongs to at most one link, and to one end of it. */
  lemma OneOwner(w: World, i: nat, j: nat, e: nat, u: UInt32)
    requires Ends(w) && i < |w.links| && j < |w.links| && i != j && Owns(w.links[i], e, u)
    ensures !Owns(w.links[j], e, u)
  {
    var k, l := if i < j then i else j, if i < j then j else i;
    assert Disjoint(w.links[k], w.links[l]);
  }

  lemma OneEnd(w: World, i: nat, e: nat, u: UInt32)
    requires Ends(w) && i < |w.links|
    ensures !(OwnsA(w.links[i], e, u) && OwnsB(w.links[i], e, u))
  {
    assert !Crossed(w.links[i], w.links[i]);
  }

  // ---- an engine acts alone ---------------------------------------------------------------

  /** Engine `e` moved to `f`, touching only a uid that no link uses. */
  lemma MovedKeeps(w: World, e: nat, f: Engine, u: UInt32)
    requires Linked(w) && e < |w.engines| && OnlyTouches(w.engines[e], f, u)
    requires forall l | l in w.links :: !Owns(l, e, u)
    ensures Linked(Moved(w, e, f))
  {
    var v := Moved(w, e, f);
    forall i | 0 <= i < |v.links| ensures Sound(v, v.links[i]) {
      assert w.links[i] in w.links;
      SoundFrame(w, v, w.links[i], e, u);
    }
    EndsKept(w, v);
  }

  lemma NoOwner(w: World, e: nat, u: UInt32)
    requires Linked(w) && e < |w.engines| && (u == 0 || Fresh(w, e, u))
    ensures forall l | l in w.links :: !Owns(l, e, u)
  {
    forall l | l in w.links ensures !Owns(l, e, u) {
      var i :| 0 <= i < |w.links| && w.links[i] == l;
      assert Sound(w, l);
    }
  }

  // ---- a call about a uid that belongs to link `i` ----------------------------------------

  lemma MovedWithLinkKeeps(w: World, i: nat, l: Link, e: nat, u: UInt32, f: Engine)
    requires Linked(w) && i < |w.links| && e < |w.engines|
    requires Owns(w.links[i], e, u) && SameEnd(w.links[i], l)
    requires OnlyTouches(w.engines[e], f, u)
    requires Sound(Moved(w, e, f), l)
    ensures Linked(Moved(Relinked(w, i, l), e, f))
  {
    var v := Moved(Relinked(w, i, l), e, f);
    forall j | 0 <= j < |v.links| ensures Sound(v, v.links[j]) && SameEnd(w.links[j], v.links[j]) {
      if j != i {
        OneOwner(w, i, j, e, u);
        assert Sound(w, w.links[j]);
        SoundFrame(w, v, w.links[j], e, u);
      }
    }
    EndsKept(w, v);
  }

  /** An effect about a uid reaches only the link that uses it. */
  lemma RanReaches(w: World, i: nat, l: Link, e: nat, u: UInt32, r: Result)
    requires Linked(w) && i < |w.links| && e < |w.engines|
    requires Owns(w.links[i], e, u) && Concerns(r.effect, u)
    ensures Ran(Relinked(w, i, l), e, r) == Moved(Relinked(w, i, Affect(l, e, r.effect)), e, r.engine)
  {
    var v := Ran(Relinked(w, i, l), e, r);
    var x := Moved(Relinked(w, i, Affect(l, e, r.effect)), e, r.engine);
    forall j | 0 <= j < |v.links| ensures v.links[j] == x.links[j] {
      if j != i { OneOwner(w, i, j, e, u); }
    }
    assert v.links == x.links;
  }

  /**
   Engine `e` runs a call with result `r` about `u`, which link `i` uses; the network first turns
   that link into `l`. If the link the call leaves behind is sound, so is everything else.
   */
  lemma RanKeeps(w: World, i: nat, l: Link, e: nat, u: UInt32, r: Result)
    requires Linked(w) && i < |w.links| && e < |w.engines|
    requires Owns(w.links[i], e, u) && SameEnd(w.links[i], l)
    requires OnlyTouches(w.engines[e], r.engine, u) && Concerns(r.effect, u)
    requires Sound(Moved(w, e, r.engine), Affect(l, e, r.effect))
    ensures Linked(Ran(Relinked(w, i, l), e, r))
  {
    RanReaches(w, i, l, e, u, r);
    MovedWithLinkKeeps(w, i, Affect(l, e, r.effect), e, u, r.engine);
  }

  /** Only the network's view of link `i` changes. */
  lemma RelinkedKeeps(w: World, i: nat, l: Link)
    requires Linked(w) && i < |w.links| && SameEnd(w.links[i], l) && Sound(w, l)
    ensures Linked(Relinked(w, i, l))
  {
    var v := Relinked(w, i, l);
    forall j | 0 <= j < |v.links| ensures Sound(v, v.links[j]) && SameEnd(w.links[j], v.links[j]) {
      assert Sound(w, w.links[j]);
    }
    EndsKept(w, v);
  }

  /** The engine at the other end after engine `e` moved to `f`. */
  function After(w: World, e: nat, f: Engine, other: nat): Engine
    requires other < |w.engines|
  {
    if other == e then f else w.engines[other]
  }

  lemma ConnectorUndisturbed(w: World, i: nat, f: Engine)
    requires Linked(w) && i < |w.links| && w.links[i].bSide != Free
    requires var k := w.links[i]; Sound(w, k) && OnlyTouches(w.engines[k.b], f, k.su)
    ensures var k := w.links[i]; EndA(After(w, k.b, f, k.a), k)
  {
    var k := w.links[i];
    OneEnd(w, i, k.b, k.su);
    if k.a == k.b { EndAFrame(w.engines[k.b], f, k, k.su); }
  }

  lemma SessionUndisturbed(w: World, i: nat, f: Engine)
    requires Linked(w) && i < |w.links| && w.links[i].aSide != Free
    requires var k := w.links[i]; Sound(w, k) && OnlyTouches(w.engines[k.a], f, k.cu)
    ensures var k := w.links[i]; EndB(After(w, k.a, f, k.b), k)
  {
    var k := w.links[i];
    OneEnd(w, i, k.a, k.cu);
    if k.a == k.b { EndBFrame(w.engines[k.a], f, k, k.cu); }
  }

  /** A link is sound when it is so at either end, after engine `e` moved to `f`. */
  lemma SoundMoved(w: World, e: nat, f: Engine, m: Link)
    requires e < |w.engines| && m.a < |w.engines| && m.b < |w.engines| && m.cu != 0 && m.su != 0
    requires Traffic(m) && EndA(After(w, e, f, m.a), m) && EndB(After(w, e, f, m.b), m)
    ensures Sound(Moved(w, e, f), m)
  {
  }

  /** As `RanKeeps`, for a call about the session of link `i`. */
  lemma SessionCallKeeps(w: World, i: nat, l: Link, r: Result, m: Link)
    requires Linked(w) && i < |w.links| && w.links[i].bSide != Free && Sound(w, w.links[i])
    requires SameEnd(w.links[i], l) && m == Affect(l, l.b, r.effect)
    requires OnlyTouches(w.engines[l.b], r.engine, l.su) && Concerns(r.effect, l.su)
    requires Traffic(m) && EndB(r.engine, m) && EndA(After(w, l.b, r.engine, l.a), m)
    ensures Linked(Ran(Relinked(w, i, l), l.b, r))
  {
    SoundMoved(w, l.b, r.engine, m);
    RanKeeps(w, i, l, l.b, l.su, r);
  }

  /** The same for a call about the connector of link `i`. */
  lemma ConnectorCallKeeps(w: World, i: nat, l: Link, r: Result, m: Link)
    requires Linked(w) && i < |w.links| && w.links[i].aSide != Free && Sound(w, w.links[i])
    requires SameEnd(w.links[i], l) && m == Affect(l, l.a, r.effect)
    requires OnlyTouches(w.engines[l.a], r.engine, l.cu) && Concerns(r.effect, l.cu)
    requires Traffic(m) && EndA(r.engine, m) && EndB(After(w, l.a, r.engine, l.b), m)
    ensures Linked(Ran(Relinked(w, i, l), l.a, r))
  {
    SoundMoved(w, l.a, r.engine, m);
    RanKeeps(w, i, l, l.a, l.cu, r);
  }

  // ---- closing ----------------------------------------------------------------------------

  const NOWHERE := Slot(None, None, false, None)

  /** A closed uid is gone from the tables; only an attempt that never connected stays `connecting`. */
  lemma ClosedAt(e: Engine, u: UInt32)
    requires Consistent(e) && u in e.protocols
    ensures var at := At(Close(e, u).engine, u); at.protocol.None? && at.peer.None? && !at.accepted
    ensures e.protocols[u].kind == Session ==> At(Close(e, u).engine, u) == NOWHERE
    ensures Close(e, u).effect == Closed(u)
  {
  }

  lemma LostAt(e: Engine, u: UInt32)
    requires Consistent(e) && u in e.protocols && e.protocols[u] == Protocol(Connector, true)
    ensures At(ConnectorLost(e, u), u) == NOWHERE
  {
  }

  lemma SessionClosedAt(e: Engine, u: UInt32)
    requires Consistent(e) && u !in e.connecting
    ensures At(SessionClosed(e, u), u) == NOWHERE
  {
  }

  // ---- what each call does to the link it is about ----------------------------------------

  lemma ConnectedHandled(x: Engine, l: Link, r: Result, m: Link)
    requires Consistent(x) && Traffic(l) && EndA(x, l) && l.aSide == Idle && !OwnsB(l, l.a, l.cu)
    requires r == OnConnected(x, l.cu) && m == Affect(l.(aSide := Up), l.a, r.effect)
    ensures Concerns(r.effect, l.cu) && Traffic(m) && EndA(r.engine, m)
    ensures m.bSide == l.bSide && m.su == l.su && m.answered == l.answered == None
  {
    assert At(x, l.cu).protocol == Some(Protocol(Connector, false));
    if l.cu in x.connecting {
      var node := x.directory[x.connecting[l.cu]];
      UnpackPack(Hello(x.nodeCode, x.nodeType, x.nodeInfo, node.code, node.typ));
    }
  }

  lemma AcceptedHandled(x: Engine, l: Link, r: Result, m: Link)
    requires Consistent(x) && EndB(x, l) && l.bSide == Idle
    requires r == OnAccept(x, l.su, l.via) && m == l.(bSide := if l.su in r.engine.protocols then Up else Down)
    ensures r.effect == Nothing && EndB(r.engine, m)
  {
    assert At(x, l.su) == NOWHERE;
  }

  lemma LostHandled(x: Engine, l: Link)
    requires Consistent(x) && EndA(x, l) && l.aSide == Up
    ensures l.cu !in x.accepted && EndA(ConnectorLost(x, l.cu), l.(aSide := Down))
  {
    assert At(x, l.cu).protocol == Some(Protocol(Connector, true));
    LostAt(x, l.cu);
  }

  lemma ClosedHandled(x: Engine, l: Link)
    requires Consistent(x) && EndB(x, l) && (l.bSide == Up || l.bSide == Down)
    ensures l.su !in x.connecting && EndB(SessionClosed(x, l.su), l.(bSide := Down))
  {
    assert At(x, l.su) == NOWHERE || At(x, l.su).protocol == Some(Protocol(Session, true));
    SessionClosedAt(x, l.su);
  }

  /** A Ping on its way finds a session that has no peer yet. */
  lemma PingArrives(x: Engine, l: Link)
    requires Traffic(l) && EndB(x, l) && l.bSide == Up && l.toB != []
    ensures l.asked.Some? && l.answered.None? && l.toB == [PingPacket(l.asked.value)]
    ensures ReadHello(l.toB[0]) == l.asked
    ensures PingBranch(x, l.su, l.toB[0]) in {NotForMe, Unexpected, Registers}
    ensures OnPacket(x, l.su, l.toB[0]) == HandlePing(x, l.su, l.toB[0])
  {
    UnpackPack(l.asked.value);
    assert At(x, l.su).peer.None? && At(x, l.su).protocol == Some(Protocol(Session, true));
  }

  /** Engine `x` takes the asker of `l` as a peer under the asker's own data, and answers as the node it is. */
  ghost predicate SessionRegistered(x: Engine, l: Link, r: Result, m: Link)
    requires l.asked.Some?
  {
    var p := l.asked.value;
    var q := Hello(x.nodeCode, x.nodeType, x.nodeInfo, p.fromCode, p.fromType);
    && p.toCode == x.nodeCode && p.toType == x.nodeType
    && At(x, l.su).peer == None && At(r.engine, l.su).peer == Some(Own(Node(l.su, p.fromCode, p.fromType, p.info)))
    && m == l.(toB := [], answered := Some(q), toA := if l.cut then [] else [PongPacket(q)])
  }

  lemma PingRejected(x: Engine, l: Link, r: Result, m: Link)
    requires Consistent(x) && Traffic(l) && EndB(x, l)
    requires l.bSide == Up && |l.toB| == 1 && !OwnsA(l, l.b, l.su)
    requires r == Close(x, l.su) && m == Affect(l.(toB := l.toB[1..]), l.b, r.effect)
    ensures Concerns(r.effect, l.su) && Traffic(m) && EndB(r.engine, m)
    ensures m == l.(toB := [], bSide := Down)
  {
    assert At(x, l.su).protocol == Some(Protocol(Session, true));
    ClosedAt(x, l.su);
  }

  lemma PingRegisters(x: Engine, l: Link, r: Result, m: Link)
    requires Traffic(l) && EndB(x, l) && l.asked.Some? && l.answered.None?
    requires l.bSide == Up && |l.toB| == 1 && !OwnsA(l, l.b, l.su)
    requires ReadHello(l.toB[0]) == l.asked && PingBranch(x, l.su, l.toB[0]) == Registers
    requires r == HandlePing(x, l.su, l.toB[0]) && m == Affect(l.(toB := l.toB[1..]), l.b, r.effect)
    ensures Concerns(r.effect, l.su) && Traffic(m) && EndB(r.engine, m)
    ensures SessionRegistered(x, l, r, m)
  {
    var h := l.asked.value;
    assert At(x, l.su).protocol == Some(Protocol(Session, true));
    UnpackPack(Hello(x.nodeCode, x.nodeType, x.nodeInfo, h.fromCode, h.fromType));
  }

  /** What is left of a link, and of the engine at its session, once a Ping has been handled. */
  lemma PingHandled(x: Engine, l: Link, r: Result, m: Link)
    requires Consistent(x) && Traffic(l) && EndB(x, l)
    requires l.bSide == Up && l.toB != [] && !OwnsA(l, l.b, l.su)
    requires r == HandlePing(x, l.su, l.toB[0]) && m == Affect(l.(toB := l.toB[1..]), l.b, r.effect)
    ensures Concerns(r.effect, l.su) && Traffic(m) && EndB(r.engine, m) && l.asked.Some? && l.answered.None?
    ensures m == l.(toB := [], bSide := Down) || SessionRegistered(x, l, r, m)
  {
    PingArrives(x, l);
    if PingBranch(x, l.su, l.toB[0]) == Registers {
      PingRegisters(x, l, r, m);
    } else {
      PingRejected(x, l, r, m);
    }
  }

  /** The connector's engine finds its end of the link as the Ping's handling left it. */
  lemma PingLeavesA(x: Engine, y: Engine, l: Link, r: Result, m: Link)
    requires EndA(x, l) && l.asked.Some? && l.answered.None?
    requires m == l.(toB := [], bSide := Down) || SessionRegistered(y, l, r, m)
    ensures EndA(x, m)
  {
  }

  /** A Pong on its way finds the connecting node it answers, and no peer yet. */
  lemma PongArrives(x: Engine, l: Link)
    requires Traffic(l) && EndA(x, l) && l.aSide == Up && l.toA != []
    ensures l.asked.Some? && l.answered.Some? && l.toA == [PongPacket(l.answered.value)]
    ensures ReadHello(l.toA[0]) == l.answered
    ensures PongBranch(x, l.cu, l.toA[0]) in {NotForMe, Registers}
    ensures OnPacket(x, l.cu, l.toA[0]) == HandlePong(x, l.cu, l.toA[0])
    ensures l.cu in x.connecting && x.connecting[l.cu] == l.asked.value.toCode
  {
    UnpackPack(l.answered.value);
    assert At(x, l.cu).peer.None? && At(x, l.cu).connecting == Some(l.asked.value.toCode);
    assert At(x, l.cu).protocol == Some(Protocol(Connector, true));
  }

  /** Engine `x` takes the node its connector was made for as a peer, and keeps the info it was sent. */
  ghost predicate PeerRegistered(x: Engine, l: Link, r: Result) {
    l.asked.Some? && l.answered.Some? &&
    var p, q := l.asked.value, l.answered.value;
    && q.toCode == x.nodeCode && q.toType == x.nodeType
    && At(x, l.cu).peer == None && At(r.engine, l.cu).peer == Some(Shared(p.toCode))
    && p.toCode in r.engine.directory && r.engine.directory[p.toCode] == Node(l.cu, q.fromCode, q.fromType, q.info)
  }

  /** What is left of a link, and of the engine at its connector, once a Pong has been handled. */
  lemma PongHandled(x: Engine, l: Link, r: Result, m: Link)
    requires Consistent(x) && Traffic(l) && EndA(x, l)
    requires l.aSide == Up && l.toA != []
    requires r == HandlePong(x, l.cu, l.toA[0]) && m == Affect(l.(toA := l.toA[1..]), l.a, r.effect)
    ensures Concerns(r.effect, l.cu) && Traffic(m) && EndA(r.engine, m)
    ensures m == l.(toA := [], aSide := Down) || (m == l.(toA := []) && PeerRegistered(x, l, r))
  {
    assert At(x, l.cu).protocol == Some(Protocol(Connector, true));
    PongArrives(x, l);
    if PongBranch(x, l.cu, l.toA[0]) == Registers {
      assert m == l.(toA := []);
    } else {
      ClosedAt(x, l.cu);
      assert m == l.(toA := [], aSide := Down);
    }
  }

  lemma EndBSame(x: Engine, l: Link, m: Link)
    requires EndB(x, l)
    requires m.bSide == l.bSide && m.su == l.su && m.answered == l.answered
    requires m.asked == l.asked || l.answered.None?
    ensures EndB(x, m)
  {
  }

  /** Closing a uid the engine holds takes the end that uses it down. */
  lemma CloseHandled(x: Engine, e: nat, u: UInt32, l: Link, r: Result, m: Link)
    requires Consistent(x) && u in x.protocols && Traffic(l)
    requires r == Close(x, u) && m == Affect(l, e, r.effect)
    ensures Concerns(r.effect, u)
    ensures OwnsA(l, e, u) && EndA(x, l) ==> m == l.(aSide := Down) && Traffic(m) && EndA(r.engine, m)
    ensures OwnsB(l, e, u) && !OwnsA(l, e, u) && EndB(x, l) ==> m == l.(bSide := Down) && Traffic(m) && EndB(r.engine, m)
  {
    ClosedAt(x, u);
    if OwnsB(l, e, u) && !OwnsA(l, e, u) && EndB(x, l) {
      assert At(x, u).protocol.Some?;
      assert l.bSide == Up;
    }
  }

  // ---- the steps --------------------------------------------------------------------------

  lemma ConnectedKeeps(w: World, i: nat)
    requires Inv(w) && i < |w.links| && w.links[i].aSide == Idle && Sound(w, w.links[i])
    ensures var l := w.links[i]; Linked(Ran(Relinked(w, i, l.(aSide := Up)), l.a, OnConnected(w.engines[l.a], l.cu)))
  {
    var l := w.links[i];
    var x := w.engines[l.a];
    var r := OnConnected(x, l.cu);
    var m := Affect(l.(aSide := Up), l.a, r.effect);
    OneEnd(w, i, l.a, l.cu);
    ConnectedHandled(x, l, r, m);
    OnConnectedTouches(x, l.cu);
    SessionUndisturbed(w, i, r.engine);
    EndBSame(After(w, l.a, r.engine, l.b), l, m);
    ConnectorCallKeeps(w, i, l.(aSide := Up), r, m);
  }

  lemma AcceptedKeeps(w: World, i: nat)
    requires Inv(w) && i < |w.links| && w.links[i].bSide == Idle && Sound(w, w.links[i])
    ensures var l := w.links[i];
            var r := OnAccept(w.engines[l.b], l.su, l.via);
            Linked(Ran(Relinked(w, i, l.(bSide := if l.su in r.engine.protocols then Up else Down)), l.b, r))
  {
    var l := w.links[i];
    var r := OnAccept(w.engines[l.b], l.su, l.via);
    var m := l.(bSide := if l.su in r.engine.protocols then Up else Down);
    AcceptedHandled(w.engines[l.b], l, r, m);
    OnAcceptTouches(w.engines[l.b], l.su, l.via);
    ConnectorUndisturbed(w, i, r.engine);
    SessionCallKeeps(w, i, m, r, m);
  }

  lemma LostKeeps(w: World, i: nat)
    requires Inv(w) && i < |w.links| && w.links[i].aSide == Up && Sound(w, w.links[i])
    ensures var l := w.links[i]; Linked(Moved(Relinked(w, i, l.(aSide := Down)), l.a, ConnectorLost(w.engines[l.a], l.cu)))
  {
    var l := w.links[i];
    var f := ConnectorLost(w.engines[l.a], l.cu);
    LostHandled(w.engines[l.a], l);
    ClosingTouches(w.engines[l.a], l.cu);
    SessionUndisturbed(w, i, f);
    MovedWithLinkKeeps(w, i, l.(aSide := Down), l.a, l.cu, f);
  }

  lemma ClosedKeeps(w: World, i: nat)
    requires Inv(w) && i < |w.links| && (w.links[i].bSide == Up || w.links[i].bSide == Down) && Sound(w, w.links[i])
    ensures var l := w.links[i]; Linked(Moved(Relinked(w, i, l.(bSide := Down)), l.b, SessionClosed(w.engines[l.b], l.su)))
  {
    var l := w.links[i];
    var f := SessionClosed(w.engines[l.b], l.su);
    ClosedHandled(w.engines[l.b], l);
    ClosingTouches(w.engines[l.b], l.su);
    ConnectorUndisturbed(w, i, f);
    MovedWithLinkKeeps(w, i, l.(bSide := Down), l.b, l.su, f);
  }

  lemma DeliverToBKeeps(w: World, i: nat)
    requires Inv(w) && i < |w.links| && w.links[i].bSide == Up && w.links[i].toB != [] && Sound(w, w.links[i])
    ensures var l := w.links[i];
            Linked(Ran(Relinked(w, i, l.(toB := l.toB[1..])), l.b, OnPacket(w.engines[l.b], l.su, l.toB[0])))
  {
    var l := w.links[i];
    var x := w.engines[l.b];
    var r := HandlePing(x, l.su, l.toB[0]);
    var m := Affect(l.(toB := l.toB[1..]), l.b, r.effect);
    OneEnd(w, i, l.b, l.su);
    PingArrives(x, l);
    PingHandled(x, l, r, m);
    HandlePingTouches(x, l.su, l.toB[0]);
    ConnectorUndisturbed(w, i, r.engine);
    PingLeavesA(After(w, l.b, r.engine, l.a), x, l, r, m);
    SessionCallKeeps(w, i, l.(toB := l.toB[1..]), r, m);
  }

  lemma DeliverToAKeeps(w: World, i: nat)
    requires Inv(w) && i < |w.links| && w.links[i].aSide == Up && w.links[i].toA != [] && Sound(w, w.links[i])
    ensures var l := w.links[i];
            Linked(Ran(Relinked(w, i, l.(toA := l.toA[1..])), l.a, OnPacket(w.engines[l.a], l.cu, l.toA[0])))
  {
    var l := w.links[i];
    var x := w.engines[l.a];
    var r := HandlePong(x, l.cu, l.toA[0]);
    var m := Affect(l.(toA := l.toA[1..]), l.a, r.effect);
    PongArrives(x, l);
    PongHandled(x, l, r, m);
    HandlePongTouches(x, l.cu, l.toA[0]);
    SessionUndisturbed(w, i, r.engine);
    EndBSame(After(w, l.a, r.engine, l.b), l, m);
    ConnectorCallKeeps(w, i, l.(toA := l.toA[1..]), r, m);
  }

  lemma NetworkKeeps(w: World, s: Step)
    requires Linked(w) && Enabled(w, s) && (s.Cut? || s.Release? || s.ReportFailed?) && Sound(w, w.links[s.l])
    ensures InRange(w) ==> Linked(Next(w, s))
  {
    var l := w.links[s.l];
    match s
    case Cut(i, keepB, keepA) =>
      assert l.toB[..keepB] == [] || l.toB[..keepB] == l.toB;
      assert l.toA[..keepA] == [] || l.toA[..keepA] == l.toA;
      RelinkedKeeps(w, i, l.(cut := true, toB := l.toB[..keepB], toA := l.toA[..keepA]));
    case Release(i, atA) => RelinkedKeeps(w, i, if atA then l.(aSide := Free) else l.(bSide := Free));
    case ReportFailed(i) => RelinkedKeeps(w, i, l.(aSide := Free));
  }

  lemma NewLinkSound(w: World, e: nat, u: UInt32, b: nat, via: UInt32, su: UInt32)
    requires e < |w.engines| && b < |w.engines| && Consistent(w.engines[e])
    requires u in w.engines[e].protocols && w.engines[e].protocols[u] == Protocol(Connector, false)
    requires Unused(w.engines[b], su)
    ensures Sound(w, Link(e, u, Idle, b, su, Idle, via, [], [], false, None, None))
  {
  }

  lemma NewLinkDisjoint(w: World, l: Link, k: Link)
    requires Sound(w, l) && Sound(w, k) && k.aSide == Idle && k.bSide == Idle
    requires !OwnsA(l, k.a, k.cu) && !OwnsA(l, k.b, k.su) && !OwnsB(l, k.b, k.su)
    ensures Disjoint(l, k)
  {
    assert At(w.engines[k.a], k.cu).protocol == Some(Protocol(Connector, false));
  }

  lemma LinkAdded(w: World, k: Link)
    requires Linked(w) && Sound(w, k) && !Crossed(k, k)
    requires forall i | 0 <= i < |w.links| :: Disjoint(w.links[i], k)
    ensures Linked(w.(links := w.links + [k]))
  {
    var v := w.(links := w.links + [k]);
    forall i | 0 <= i < |v.links| ensures Sound(v, v.links[i]) && !Crossed(v.links[i], v.links[i]) {
      if i < |w.links| { assert Sound(w, w.links[i]) && !Crossed(w.links[i], w.links[i]); }
    }
    forall i, j | 0 <= i < j < |v.links| ensures Disjoint(v.links[i], v.links[j]) {
      if j < |w.links| { assert Disjoint(w.links[i], w.links[j]); }
    }
  }

  lemma EstablishKeeps(w: World, e: nat, u: UInt32, b: nat, via: UInt32, su: UInt32)
    requires Inv(w) && Enabled(w, Establish(e, u, b, via, su))
    ensures Linked(w.(links := w.links + [Link(e, u, Idle, b, su, Idle, via, [], [], false, None, None)]))
  {
    var k := Link(e, u, Idle, b, su, Idle, via, [], [], false, None, None);
    NewLinkSound(w, e, u, b, via, su);
    forall i | 0 <= i < |w.links| ensures Disjoint(w.links[i], k) {
      assert w.links[i] in w.links && Sound(w, w.links[i]);
      NewLinkDisjoint(w, w.links[i], k);
    }
    LinkAdded(w, k);
  }

  lemma CloseEndKeeps(w: World, i: nat, e: nat, u: UInt32, r: Result)
    requires Linked(w) && e < |w.engines| && Consistent(w.engines[e]) && u in w.engines[e].protocols
    requires i < |w.links| && Owns(w.links[i], e, u) && Sound(w, w.links[i])
    requires r == Close(w.engines[e], u)
    ensures Linked(Ran(w, e, r))
  {
    var l, x := w.links[i], w.engines[e];
    var m := Affect(l, e, r.effect);
    OneEnd(w, i, e, u);
    ClosingTouches(x, u);
    CloseHandled(x, e, u, l, r, m);
    assert w.links[i := l] == w.links;
    if OwnsA(l, e, u) {
      SessionUndisturbed(w, i, r.engine);
      EndBSame(After(w, e, r.engine, l.b), l, m);
      ConnectorCallKeeps(w, i, l, r, m);
    } else {
      ConnectorUndisturbed(w, i, r.engine);
      SessionCallKeeps(w, i, l, r, m);
    }
  }

  lemma CloseStepKeeps(w: World, e: nat, u: UInt32)
    requires Inv(w) && e < |w.engines|
    ensures Linked(Ran(w, e, Close(w.engines[e], u)))
  {
    hide Consistent, OnlyTouches, OnClose, OnDisconnect, OnUnlisten;
    var r := Close(w.engines[e], u);
    var v := Ran(w, e, r);
    if u !in w.engines[e].protocols {
      assert v.links == w.links && v.engines == w.engines;
    } else if i :| 0 <= i < |w.links| && Owns(w.links[i], e, u) {
      assert Sound(w, w.links[i]);
      CloseEndKeeps(w, i, e, u, r);
    } else {
      ClosingTouches(w.engines[e], u);
      ClosedAt(w.engines[e], u);
      assert v.links == w.links;
      MovedKeeps(w, e, r.engine, u);
    }
  }

  lemma OwnerStepKeeps(w: World, s: Step)
    requires Inv(w) && Enabled(w, s)
    requires s.DoSetupNode? || s.DoListen? || s.DoConnect? || s.DoConnectNode? || s.DoReconnect?
    ensures InRange(w) ==> Linked(Next(w, s))
  {
    var e, u := s.e, s.answer;
    var x := w.engines[e];
    NoOwner(w, e, u);
    match s
    case DoSetupNode(_, code, typ, info, _, ok) =>
      IdentityTouches(x, code, typ, info, u, ok);
      MovedKeeps(w, e, SetupNode(x, code, typ, info, u, ok), u);
    case DoListen(_, _) =>
      IdentityTouches(x, 0, 0, [], u, true);
      MovedKeeps(w, e, Listen(x, u), u);
    case DoConnect(_, _) =>
      IdentityTouches(x, 0, 0, [], u, true);
      MovedKeeps(w, e, Connect(x, u), u);
    case DoConnectNode(_, code, typ, _) =>
      ConnectNodeTouches(x, code, typ, u);
      MovedKeeps(w, e, ConnectNode(x, code, typ, u), u);
    case DoReconnect(_, code, _) =>
      ReconnectTouches(x, code, u);
      MovedKeeps(w, e, Reconnect(x, code, u), u);
  }

  /** The links stay in agreement with the engines. */
  lemma StepKeepsLinked(w: World, s: Step)
    requires Inv(w) && Enabled(w, s) && InRange(w)
    ensures Linked(Next(w, s))
  {
    if s.ReportConnected? || s.ReportFailed? || s.ReportAccepted? || s.ReportLost? || s.ReportClosed? ||
       s.DeliverToB? || s.DeliverToA? || s.Cut? || s.Release? {
      assert Sound(w, w.links[s.l]);
    }
    match s
    case DoClose(e, u) => CloseStepKeeps(w, e, u);
    case Establish(e, u, b, via, su) => EstablishKeeps(w, e, u, b, via, su);
    case ReportConnected(i) => ConnectedKeeps(w, i);
    case ReportAccepted(i) => AcceptedKeeps(w, i);
    case ReportLost(i) => LostKeeps(w, i);
    case ReportClosed(i) => ClosedKeeps(w, i);
    case DeliverToB(i) => DeliverToBKeeps(w, i);
    case DeliverToA(i) => DeliverToAKeeps(w, i);
    case Cut(_, _, _) => NetworkKeeps(w, s);
    case Release(_, _) => NetworkKeeps(w, s);
    case ReportFailed(_) => NetworkKeeps(w, s);
    case _ => OwnerStepKeeps(w, s);
  }

  lemma OwnerStepKeepsHealthy(w: World, s: Step)
    requires Healthy(w) && Enabled(w, s) && InRange(w)
    requires s.DoSetupNode? || s.DoListen? || s.DoConnect? || s.DoConnectNode? || s.DoReconnect? || s.DoClose?
    ensures Healthy(Next(w, s))
  {
    match s
    case DoSetupNode(e, code, typ, info, u, ok) => SetupNodeKeeps(w.engines[e], code, typ, info, u, ok);
    case DoListen(e, u) => OpeningKeeps(w.engines[e], u);
    case DoConnect(e, u) => OpeningKeeps(w.engines[e], u);
    case DoConnectNode(e, code, typ, u) => ConnectNodeKeeps(w.engines[e], code, typ, u);
    case DoReconnect(e, code, u) => ReconnectKeeps(w.engines[e], code, u);
    case DoClose(e, u) => CloseKeeps(w.engines[e], u);
  }

  /** The network keeps the promises that the calls it makes rely on. */
  lemma ReportKeepsHealthy(w: World, s: Step)
    requires Healthy(w) && Enabled(w, s) && InRange(w)
    requires s.ReportAccepted? || s.ReportLost? || s.ReportClosed?
    requires Sound(w, w.links[s.l])
    ensures Healthy(Next(w, s))
  {
    hide Consistent, ConnectorLost, SessionClosed, OnAccept;
    var l := w.links[s.l];
    match s
    case ReportAccepted(_) =>
      assert At(w.engines[l.b], l.su) == NOWHERE;
      OnAcceptKeeps(w.engines[l.b], l.su, l.via);
    case ReportLost(_) =>
      LostHandled(w.engines[l.a], l);
      ConnectorLostKeeps(w.engines[l.a], l.cu);
    case ReportClosed(_) =>
      ClosedHandled(w.engines[l.b], l);
      OnCloseKeeps(w.engines[l.b], l.su);
  }

  /** Each engine stays consistent. */
  lemma StepKeepsHealthy(w: World, s: Step)
    requires Inv(w) && Enabled(w, s) && InRange(w)
    ensures Healthy(Next(w, s))
  {
    hide Consistent;
    match s
    case ReportConnected(i) => OnConnectedKeeps(w.engines[w.links[i].a], w.links[i].cu);
    case DeliverToB(i) => OnPacketKeeps(w.engines[w.links[i].b], w.links[i].su, w.links[i].toB[0]);
    case DeliverToA(i) => OnPacketKeeps(w.engines[w.links[i].a], w.links[i].cu, w.links[i].toA[0]);
    case ReportAccepted(i) => ReportKeepsHealthy(w, s);
    case ReportLost(i) => ReportKeepsHealthy(w, s);
    case ReportClosed(i) => ReportKeepsHealthy(w, s);
    case Establish(_, _, _, _, _) =>
    case ReportFailed(_) =>
    case Cut(_, _, _) =>
    case Release(_, _) =>
    case _ => OwnerStepKeepsHealthy(w, s);
  }

  lemma LinkedInRange(w: World)
    requires Linked(w)
    ensures InRange(w)
  {
    forall l | l in w.links ensures l.a < |w.engines| && l.b < |w.engines| {
      var i :| 0 <= i < |w.links| && w.links[i] == l;
      assert Sound(w, w.links[i]);
    }
  }

  /** The invariant is inductive. */
  lemma StepKeeps(w: World, s: Step)
    requires Inv(w) && Enabled(w, s)
    ensures InRange(w) && Inv(Next(w, s))
  {
    LinkedInRange(w);
    StepKeepsLinked(w, s);
    StepKeepsHealthy(w, s);
  }

  // ---- which engine a step runs, and about which uid -----------------------------------------

  /** The network's step `s` makes engine `e` do `f` about uid `v`. */
  ghost predicate Acts(w: World, s: Step, e: nat, f: Engine, v: UInt32)
    requires InRange(w) && Enabled(w, s)
  {
    e < |w.engines| && Next(w, s).engines == w.engines[e := f] && OnlyTouches(w.engines[e], f, v)
  }

  lemma SameEngines(w: World, s: Step)
    requires InRange(w) && Enabled(w, s)
    ensures |Next(w, s).engines| == |w.engines|
  {
  }

  lemma OwnerActs(w: World, s: Step)
    requires InRange(w) && Enabled(w, s)
    requires s.DoSetupNode? || s.DoListen? || s.DoConnect? || s.DoConnectNode? || s.DoReconnect?
    ensures s.e < |w.engines| && (s.answer == 0 || Unused(w.engines[s.e], s.answer))
    ensures var x := w.engines[s.e];
            match s
            case DoSetupNode(e, code, typ, info, u, ok) => Acts(w, s, e, SetupNode(x, code, typ, info, u, ok), u)
            case DoListen(e, u) => Acts(w, s, e, Listen(x, u), u)
            case DoConnect(e, u) => Acts(w, s, e, Connect(x, u), u)
            case DoConnectNode(e, code, typ, u) => Acts(w, s, e, ConnectNode(x, code, typ, u), u)
            case DoReconnect(e, code, u) => Acts(w, s, e, Reconnect(x, code, u), u)
            case _ => true
  {
    hide OnlyTouches, SetupNode, Listen, Connect, ConnectNode, Reconnect;
    var x, u := w.engines[s.e], s.answer;
    match s {
      case DoSetupNode(_, code, typ, info, _, ok) => IdentityTouches(x, code, typ, info, u, ok);
      case DoListen(_, _) => IdentityTouches(x, 0, 0, [], u, true);
      case DoConnect(_, _) => IdentityTouches(x, 0, 0, [], u, true);
      case DoConnectNode(_, code, typ, _) => ConnectNodeTouches(x, code, typ, u);
      case DoReconnect(_, code, _) => ReconnectTouches(x, code, u);
    }
  }

  lemma ReportActs(w: World, s: Step)
    requires InRange(w) && Enabled(w, s)
    requires s.ReportConnected? || s.ReportAccepted? || s.ReportLost? || s.ReportClosed?
    ensures var l := w.links[s.l];
            match s
            case ReportConnected(_) =>
              l.aSide == Idle && Acts(w, s, l.a, OnConnected(w.engines[l.a], l.cu).engine, l.cu)
            case ReportAccepted(_) =>
              l.bSide == Idle && Acts(w, s, l.b, OnAccept(w.engines[l.b], l.su, l.via).engine, l.su)
            case ReportLost(_) => l.aSide == Up && Acts(w, s, l.a, ConnectorLost(w.engines[l.a], l.cu), l.cu)
            case ReportClosed(_) => l.bSide != Free && Acts(w, s, l.b, SessionClosed(w.engines[l.b], l.su), l.su)
            case _ => true
  {
    hide OnlyTouches, OnConnected, OnAccept, ConnectorLost, SessionClosed;
    var l := w.links[s.l];
    match s {
      case ReportConnected(_) => OnConnectedTouches(w.engines[l.a], l.cu);
      case ReportAccepted(_) => OnAcceptTouches(w.engines[l.b], l.su, l.via);
      case ReportLost(_) => ClosingTouches(w.engines[l.a], l.cu);
      case ReportClosed(_) => ClosingTouches(w.engines[l.b], l.su);
    }
  }

  lemma DeliveryActs(w: World, s: Step)
    requires InRange(w) && Enabled(w, s) && (s.DeliverToA? || s.DeliverToB?)
    ensures var l := w.links[s.l];
            if s.DeliverToA? then
              l.aSide == Up && l.toA != [] && Acts(w, s, l.a, OnPacket(w.engines[l.a], l.cu, l.toA[0]).engine, l.cu)
            else
              l.bSide == Up && l.toB != [] && Acts(w, s, l.b, OnPacket(w.engines[l.b], l.su, l.toB[0]).engine, l.su)
  {
    hide OnlyTouches, OnPacket;
    var l := w.links[s.l];
    if s.DeliverToA? {
      OnPacketTouches(w.engines[l.a], l.cu, l.toA[0]);
    } else {
      OnPacketTouches(w.engines[l.b], l.su, l.toB[0]);
    }
  }
}
