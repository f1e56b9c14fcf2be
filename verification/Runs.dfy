/** What holds in every run of any number of engines, in every interleaving. */
module Runs {
  import opened Types
  import opened Handshake
  import opened Engine
  import opened EngineFacts
  import opened World
  import opened WorldFacts

  /** A run: `states[k]` is the world before step `k`. */
  ghost predicate IsRun(states: seq<World>, steps: seq<Step>) {
    && |states| == |steps| + 1
    && Initial(states[0])
    && forall k | 0 <= k < |steps| ::
         InRange(states[k]) && Enabled(states[k], steps[k]) && states[k + 1] == Next(states[k], steps[k])
  }

  lemma {:induction false} RunKeepsInv(states: seq<World>, steps: seq<Step>, k: nat)
    requires IsRun(states, steps) && k <= |steps|
    ensures Inv(states[k]) && InRange(states[k])
  {
    if k > 0 {
      RunKeepsInv(states, steps, k - 1);
      StepKeeps(states[k - 1], steps[k - 1]);
    }
    LinkedInRange(states[k]);
  }

  /** Some run leads to `w`. */
  ghost predicate Reachable(w: World) {
    exists states: seq<World>, steps: seq<Step> :: IsRun(states, steps) && states[|steps|] == w
  }

  lemma ReachableStart(w: World)
    requires Initial(w)
    ensures Reachable(w)
  {
    assert IsRun([w], []);
  }

  lemma ReachableNext(w: World, s: Step)
    requires Reachable(w) && Enabled(w, s)
    ensures InRange(w) && Reachable(Next(w, s))
  {
    hide Enabled, Next;
    var states: seq<World>, steps: seq<Step> :| IsRun(states, steps) && states[|steps|] == w;
    RunKeepsInv(states, steps, |steps|);
    RunExtends(states, steps, s);
    assert (states + [Next(w, s)])[|steps + [s]|] == Next(w, s);
  }

  lemma RunExtends(states: seq<World>, steps: seq<Step>, s: Step)
    requires IsRun(states, steps) && InRange(states[|steps|]) && Enabled(states[|steps|], s)
    ensures IsRun(states + [Next(states[|steps|], s)], steps + [s])
  {
    var more := states + [Next(states[|steps|], s)];
    forall k | 0 <= k <= |steps| ensures more[k] == states[k] {
    }
  }

  lemma ReachableKeepsInv(w: World)
    requires Reachable(w)
    ensures Inv(w) && InRange(w)
  {
    var states: seq<World>, steps: seq<Step> :| IsRun(states, steps) && states[|steps|] == w;
    RunKeepsInv(states, steps, |steps|);
  }

  // ---- one engine -------------------------------------------------------------------------

  /**
   In every run, at every engine: the directory is in bijection with the connecting uids; accepted
   and connecting uids are disjoint and every peer's uid is one of them; and for every uid the
   callbacks alternate, the peers being those with one more connect than disconnect.
   */
  lemma EngineProperties(states: seq<World>, steps: seq<Step>, k: nat, e: nat, u: UInt32)
    requires IsRun(states, steps) && k <= |steps| && e < |states[k].engines|
    ensures var x := states[k].engines[e];
            && DirectoryBijection(x) && PeerPartition(x) && Alternates(x.log)
            && (u in x.peers ==> u in x.accepted || u in x.connecting)
            && (u in x.peers <==> Connects(x.log, u) == Disconnects(x.log, u) + 1)
            && (u !in x.peers <==> Connects(x.log, u) == Disconnects(x.log, u))
  {
    RunKeepsInv(states, steps, k);
    PeersAreOpen(states[k].engines[e], u);
    AlternationCounts(states[k].engines[e].log, u);
  }

  // ---- branches that no run takes ---------------------------------------------------------

  /**
   Among engines running this code a Ping is never malformed and never a duplicate; a Pong is never
   malformed, never for an unknown connector, never from the wrong node and never a duplicate.
   */
  lemma DeadBranches(states: seq<World>, steps: seq<Step>, k: nat)
    requires IsRun(states, steps) && k < |steps|
    ensures steps[k].DeliverToB? ==>
              var l := states[k].links[steps[k].l];
              l.toB[0].cmd == PING && PingBranch(states[k].engines[l.b], l.su, l.toB[0]) in {NotForMe, Unexpected, Registers}
    ensures steps[k].DeliverToA? ==>
              var l := states[k].links[steps[k].l];
              l.toA[0].cmd == PONG && PongBranch(states[k].engines[l.a], l.cu, l.toA[0]) in {NotForMe, Registers}
  {
    RunKeepsInv(states, steps, k);
    var w := states[k];
    if steps[k].DeliverToB? {
      var l := w.links[steps[k].l];
      assert Sound(w, l);
      PingArrives(w.engines[l.b], l);
    } else if steps[k].DeliverToA? {
      var l := w.links[steps[k].l];
      assert Sound(w, l);
      PongArrives(w.engines[l.a], l);
    }
  }

  // ---- history of a link ------------------------------------------------------------------

  ghost predicate SameLink(k: Link, l: Link) {
    k.a == l.a && k.cu == l.cu && k.b == l.b && k.su == l.su
  }

  /** In state `w` engine `l.a` asks: under its identity of that moment, for the node it connects to. */
  ghost predicate Asks(w: World, l: Link, p: Hello) {
    l.a < |w.engines| &&
    var x := w.engines[l.a];
    && p.fromCode == x.nodeCode && p.fromType == x.nodeType && p.info == x.nodeInfo
    && l.cu in x.connecting && x.connecting[l.cu] == p.toCode
    && p.toCode in x.directory && x.directory[p.toCode].typ == p.toType
  }

  /**
   From `w` to `v` engine `l.b` registers the session as a peer with the code, type and info the
   Ping `p` carried, acting under the code and type `p` asked for, and answers `q`.
   */
  ghost predicate RegistersSession(w: World, v: World, l: Link, p: Hello, q: Hello) {
    l.b < |w.engines| && l.b < |v.engines| &&
    var x, y := w.engines[l.b], v.engines[l.b];
    && l.su !in x.peers
    && l.su in y.peers && y.peers[l.su] == Own(Node(l.su, p.fromCode, p.fromType, p.info))
    && x.nodeCode == p.toCode && x.nodeType == p.toType
    && q == Hello(x.nodeCode, x.nodeType, x.nodeInfo, p.fromCode, p.fromType)
  }

  /** What one step can do to the record of link `i`. */
  ghost predicate HistoryStep(w: World, s: Step, v: World, i: nat) {
    i < |w.links| && i < |v.links| &&
    var k, l := w.links[i], v.links[i];
    && SameLink(k, l)
    && (l.asked == k.asked ||
        (s == ReportConnected(i) && l.asked.Some? && Asks(w, k, l.asked.value)))
    && (l.answered == k.answered ||
        (s == DeliverToB(i) && l.answered.Some? && k.asked.Some? && l.asked == k.asked &&
         RegistersSession(w, v, k, k.asked.value, l.answered.value)))
  }

  /** A call about another link leaves this one's record alone. */
  lemma OtherHistory(w: World, i: nat, j: nat, l: Link, e: nat, u: UInt32, r: Result)
    requires Linked(w) && i < |w.links| && j < |w.links| && i != j && e < |w.engines|
    requires Owns(w.links[j], e, u) && Concerns(r.effect, u)
    ensures Ran(Relinked(w, j, l), e, r).links[i] == w.links[i]
  {
    OneOwner(w, j, i, e, u);
  }

  lemma ConnectedAsks(x: Engine, l: Link, m: Link)
    requires DirectoryBijection(x) && EndA(x, l) && l.aSide == Idle && !OwnsB(l, l.a, l.cu)
    requires m == Affect(l.(aSide := Up), l.a, OnConnected(x, l.cu).effect)
    ensures SameLink(l, m) && m.answered == l.answered
    ensures m.asked == l.asked ||
            (m.asked.Some? &&
             var p := m.asked.value;
             && l.cu in x.connecting && x.connecting[l.cu] in x.directory
             && p.toCode == x.connecting[l.cu] && p.toType == x.directory[p.toCode].typ
             && p.fromCode == x.nodeCode && p.fromType == x.nodeType && p.info == x.nodeInfo)
  {
    assert At(x, l.cu).protocol == Some(Protocol(Connector, false));
    if l.cu in x.connecting {
      var node := x.directory[x.connecting[l.cu]];
      UnpackPack(Hello(x.nodeCode, x.nodeType, x.nodeInfo, node.code, node.typ));
    }
  }

  lemma ConnectedHistory(w: World, i: nat)
    requires Inv(w) && InRange(w) && Enabled(w, ReportConnected(i))
    ensures HistoryStep(w, ReportConnected(i), Next(w, ReportConnected(i)), i)
  {
    var l := w.links[i];
    assert Sound(w, l) && Consistent(w.engines[l.a]);
    OneEnd(w, i, l.a, l.cu);
    var m := Affect(l.(aSide := Up), l.a, OnConnected(w.engines[l.a], l.cu).effect);
    ConnectedAsks(w.engines[l.a], l, m);
    assert Next(w, ReportConnected(i)).links[i] == m;
  }

  lemma RanAt(w: World, i: nat, l: Link, e: nat, r: Result, j: nat)
    requires i < |w.links| && e < |w.engines| && j < |w.links|
    ensures var v := Ran(Relinked(w, i, l), e, r);
            && |v.links| == |w.links| && |v.engines| == |w.engines| && v.engines[e] == r.engine
            && v.links[j] == Affect(if j == i then l else w.links[j], e, r.effect)
  {
  }

  lemma PingHistory(w: World, i: nat)
    requires Inv(w) && InRange(w) && Enabled(w, DeliverToB(i))
    ensures HistoryStep(w, DeliverToB(i), Next(w, DeliverToB(i)), i)
  {
    var l := w.links[i];
    var x := w.engines[l.b];
    assert Sound(w, l);
    OneEnd(w, i, l.b, l.su);
    PingArrives(x, l);
    var r := HandlePing(x, l.su, l.toB[0]);
    var m := Affect(l.(toB := l.toB[1..]), l.b, r.effect);
    PingHandled(x, l, r, m);
    RanAt(w, i, l.(toB := l.toB[1..]), l.b, r, i);
    PingRecord(w, Next(w, DeliverToB(i)), i, r, m);
  }

  lemma PingRecord(w: World, v: World, i: nat, r: Result, m: Link)
    requires i < |w.links| && i < |v.links| && v.links[i] == m && w.links[i].asked.Some?
    requires w.links[i].b < |w.engines| && w.links[i].b < |v.engines| && v.engines[w.links[i].b] == r.engine
    requires m == w.links[i].(toB := [], bSide := Down) || SessionRegistered(w.engines[w.links[i].b], w.links[i], r, m)
    ensures HistoryStep(w, DeliverToB(i), v, i)
  {
  }

  lemma PongHistory(w: World, i: nat)
    requires Inv(w) && InRange(w) && Enabled(w, DeliverToA(i))
    ensures HistoryStep(w, DeliverToA(i), Next(w, DeliverToA(i)), i)
  {
    var l := w.links[i];
    var x := w.engines[l.a];
    assert Sound(w, l);
    PongArrives(x, l);
    var r := HandlePong(x, l.cu, l.toA[0]);
    PongHandled(x, l, r, Affect(l.(toA := l.toA[1..]), l.a, r.effect));
    assert Next(w, DeliverToA(i)) == Ran(Relinked(w, i, l.(toA := l.toA[1..])), l.a, r);
  }

  lemma OtherPingHistory(w: World, i: nat, j: nat)
    requires Inv(w) && InRange(w) && Enabled(w, DeliverToB(j)) && i < |w.links| && i != j
    ensures HistoryStep(w, DeliverToB(j), Next(w, DeliverToB(j)), i)
  {
    var l := w.links[j];
    var x := w.engines[l.b];
    assert Sound(w, l);
    OneEnd(w, j, l.b, l.su);
    PingArrives(x, l);
    var r := HandlePing(x, l.su, l.toB[0]);
    PingHandled(x, l, r, Affect(l.(toB := l.toB[1..]), l.b, r.effect));
    OtherHistory(w, i, j, l.(toB := l.toB[1..]), l.b, l.su, r);
  }

  lemma OtherPongHistory(w: World, i: nat, j: nat)
    requires Inv(w) && InRange(w) && Enabled(w, DeliverToA(j)) && i < |w.links| && i != j
    ensures HistoryStep(w, DeliverToA(j), Next(w, DeliverToA(j)), i)
  {
    var l := w.links[j];
    var x := w.engines[l.a];
    assert Sound(w, l);
    PongArrives(x, l);
    var r := HandlePong(x, l.cu, l.toA[0]);
    PongHandled(x, l, r, Affect(l.(toA := l.toA[1..]), l.a, r.effect));
    OtherHistory(w, i, j, l.(toA := l.toA[1..]), l.a, l.cu, r);
  }

  lemma OtherConnectedHistory(w: World, i: nat, j: nat)
    requires Inv(w) && InRange(w) && Enabled(w, ReportConnected(j)) && i < |w.links| && i != j
    ensures HistoryStep(w, ReportConnected(j), Next(w, ReportConnected(j)), i)
  {
    var l := w.links[j];
    var r := OnConnected(w.engines[l.a], l.cu);
    assert Sound(w, l);
    OneEnd(w, j, l.a, l.cu);
    ConnectedHandled(w.engines[l.a], l, r, Affect(l.(aSide := Up), l.a, r.effect));
    OtherHistory(w, i, j, l.(aSide := Up), l.a, l.cu, r);
  }

  lemma AcceptedHistory(w: World, i: nat, j: nat)
    requires Inv(w) && InRange(w) && Enabled(w, ReportAccepted(j)) && i < |w.links|
    ensures HistoryStep(w, ReportAccepted(j), Next(w, ReportAccepted(j)), i)
  {
    var l := w.links[j];
    var r := OnAccept(w.engines[l.b], l.su, l.via);
    assert Sound(w, l);
    var k := l.(bSide := if l.su in r.engine.protocols then Up else Down);
    AcceptedHandled(w.engines[l.b], l, r, k);
    RanAt(w, j, k, l.b, r, i);
  }

  /** Steps that send nothing. */
  lemma QuietHistory(w: World, s: Step, i: nat)
    requires InRange(w) && Enabled(w, s) && i < |w.links|
    requires !s.ReportConnected? && !s.ReportAccepted? && !s.DeliverToB? && !s.DeliverToA?
    ensures HistoryStep(w, s, Next(w, s), i)
  {
    if s.DoClose? {
      assert Close(w.engines[s.e], s.uid).effect in {Nothing, Closed(s.uid)};
    }
  }

  lemma StepHistory(w: World, s: Step, i: nat)
    requires Inv(w) && InRange(w) && Enabled(w, s) && i < |w.links|
    ensures HistoryStep(w, s, Next(w, s), i)
  {
    match s
    case ReportConnected(j) => if i == j { ConnectedHistory(w, i); } else { OtherConnectedHistory(w, i, j); }
    case ReportAccepted(j) => AcceptedHistory(w, i, j);
    case DeliverToB(j) => if i == j { PingHistory(w, i); } else { OtherPingHistory(w, i, j); }
    case DeliverToA(j) => if i == j { PongHistory(w, i); } else { OtherPongHistory(w, i, j); }
    case _ => QuietHistory(w, s, i);
  }

  lemma NewLinkHistory(w: World, s: Step, i: nat)
    requires InRange(w) && Enabled(w, s) && |w.links| <= i < |Next(w, s).links|
    ensures Next(w, s).links[i].asked == None && Next(w, s).links[i].answered == None
  {
  }

  /** A record is older than the step before, or made by it. */
  lemma RecordStep(states: seq<World>, steps: seq<Step>, n: nat, i: nat)
    requires IsRun(states, steps) && n < |steps| && i < |states[n + 1].links|
    requires states[n + 1].links[i].asked.Some? || states[n + 1].links[i].answered.Some?
    ensures i < |states[n].links| && HistoryStep(states[n], steps[n], states[n + 1], i)
    ensures Sound(states[n], states[n].links[i]) && Sound(states[n + 1], states[n + 1].links[i])
    ensures steps[n] == ReportConnected(i) ==> states[n].links[i].aSide == Idle
  {
    RunKeepsInv(states, steps, n);
    RunKeepsInv(states, steps, n + 1);
    if i >= |states[n].links| {
      NewLinkHistory(states[n], steps[n], i);
    } else {
      StepHistory(states[n], steps[n], i);
    }
  }

  /** Whatever a link records as asked was asked in an earlier step of the run. */
  lemma {:induction false} AskedEarlier(states: seq<World>, steps: seq<Step>, n: nat, i: nat) returns (h: nat)
    requires IsRun(states, steps) && n <= |steps| && i < |states[n].links| && states[n].links[i].asked.Some?
    ensures h < n && steps[h] == ReportConnected(i)
    ensures Asks(states[h], states[n].links[i], states[n].links[i].asked.value)
    decreases n
  {
    hide Next, Enabled;
    if n > 0 {
      RecordStep(states, steps, n - 1, i);
      if states[n].links[i].asked == states[n - 1].links[i].asked {
        h := AskedEarlier(states, steps, n - 1, i);
      } else {
        h := n - 1;
      }
    }
  }

  /** Whatever a link records as answered was answered in an earlier step, after the Ping was sent. */
  lemma {:induction false} AnsweredEarlier(states: seq<World>, steps: seq<Step>, n: nat, i: nat) returns (h: nat, j: nat)
    requires IsRun(states, steps) && n <= |steps| && i < |states[n].links| && states[n].links[i].answered.Some?
    ensures h < j < n && steps[h] == ReportConnected(i) && steps[j] == DeliverToB(i)
    ensures var l := states[n].links[i];
            && l.asked.Some?
            && Asks(states[h], l, l.asked.value)
            && RegistersSession(states[j], states[j + 1], l, l.asked.value, l.answered.value)
    decreases n
  {
    hide Next, Enabled;
    if n > 0 {
      RecordStep(states, steps, n - 1, i);
      if states[n].links[i].answered == states[n - 1].links[i].answered {
        h, j := AnsweredEarlier(states, steps, n - 1, i);
      } else {
        h := AskedEarlier(states, steps, n - 1, i);
        j := n - 1;
      }
    }
  }

  // ---- agreement --------------------------------------------------------------------------

  /** From `w` to `v` engine `l.a` registers the connector of `l` as a peer. */
  ghost predicate RegistersConnector(w: World, v: World, l: Link) {
    && l.a < |w.engines| && l.a < |v.engines|
    && l.cu !in w.engines[l.a].peers && l.cu in v.engines[l.a].peers
  }

  lemma PongRegisters(w: World, i: nat)
    requires Inv(w) && InRange(w) && Enabled(w, DeliverToA(i))
    requires RegistersConnector(w, Next(w, DeliverToA(i)), w.links[i])
    ensures var l := w.links[i];
            PeerRegistered(w.engines[l.a], l, Result(Next(w, DeliverToA(i)).engines[l.a], Nothing))
    ensures w.links[i].asked.Some? && w.links[i].answered.Some? && Reply(w.links[i].asked.value, w.links[i].answered.value)
  {
    var l := w.links[i];
    var x := w.engines[l.a];
    assert Sound(w, l);
    PongArrives(x, l);
    var r := HandlePong(x, l.cu, l.toA[0]);
    PongHandled(x, l, r, Affect(l.(toA := l.toA[1..]), l.a, r.effect));
    assert At(r.engine, l.cu).peer.Some?;
  }

  /**
   Agreement. When engine A registers a peer for the connector of link `i`, in step `k`, there were
   earlier steps `h < j < k`: in `h` A pinged for the node `c` it connects to, and in `j` the far
   engine, being node `c` of the type A wants, registered the paired session with exactly the code
   and type A has in step `k`. The info A keeps is the one the far engine had in step `j`.
   */
  lemma Agreement(states: seq<World>, steps: seq<Step>, k: nat, i: nat) returns (h: nat, j: nat, c: UInt32)
    requires IsRun(states, steps) && k < |steps| && steps[k] == DeliverToA(i)
    requires RegistersConnector(states[k], states[k + 1], states[k].links[i])
    ensures h < j < k && steps[h] == ReportConnected(i) && steps[j] == DeliverToB(i)
    ensures var l := states[k].links[i];
            && l.b < |states[j].engines| && l.b < |states[j + 1].engines|
            && l.a < |states[h].engines| && l.cu in states[h].engines[l.a].connecting
            && states[h].engines[l.a].connecting[l.cu] == c
    ensures var l := states[k].links[i];
            var a, a' := states[k].engines[l.a], states[k + 1].engines[l.a];
            var b, b' := states[j].engines[l.b], states[j + 1].engines[l.b];
            && b.nodeCode == c && l.su !in b.peers && l.su in b'.peers && b'.peers[l.su].Own?
            && b'.peers[l.su].node.code == a.nodeCode && b'.peers[l.su].node.typ == a.nodeType
            && a'.peers[l.cu] == Shared(c) && c in a'.directory
            && a'.directory[c] == Node(l.cu, b.nodeCode, b.nodeType, b.nodeInfo)
            && b'.peers[l.su].node.info == states[h].engines[l.a].nodeInfo
  {
    RunKeepsInv(states, steps, k);
    PongRegisters(states[k], i);
    h, j := AnsweredEarlier(states, steps, k, i);
    c := states[k].links[i].asked.value.toCode;
  }

  // ---- no silent half-open link -----------------------------------------------------------

  ghost predicate UpEnd(l: Link, e: nat, u: UInt32) {
    (l.a == e && l.cu == u && l.aSide == Up) || (l.b == e && l.su == u && l.bSide == Up)
  }

  ghost predicate Held(e: Engine, u: UInt32) {
    u in e.protocols && e.protocols[u].available && e.protocols[u].kind != Listener
  }

  /** Every connection an engine holds as available is an end of a link that is up. */
  ghost predicate Covered(w: World) {
    forall e: nat, u: UInt32 | e < |w.engines| && Held(w.engines[e], u) ::
      exists i :: 0 <= i < |w.links| && UpEnd(w.links[i], e, u)
  }

  /** From `w` to `v` only uid `u` of engine `e` changed hands. */
  ghost predicate ChangesHands(w: World, v: World, e: nat, u: UInt32) {
    && e < |w.engines| == |v.engines| && |w.links| <= |v.links|
    && (forall i | 0 <= i < |w.engines| && i != e :: v.engines[i] == w.engines[i])
    && OnlyTouches(w.engines[e], v.engines[e], u)
    && (forall i, x: nat, y: UInt32 | 0 <= i < |w.links| && UpEnd(w.links[i], x, y) && (x != e || y != u) ::
          UpEnd(v.links[i], x, y))
  }

  lemma CoveredFrame(w: World, v: World, e: nat, u: UInt32)
    requires Covered(w) && ChangesHands(w, v, e, u)
    requires Held(v.engines[e], u) ==> exists i :: 0 <= i < |v.links| && UpEnd(v.links[i], e, u)
    ensures Covered(v)
  {
    forall x: nat, y: UInt32 | x < |v.engines| && Held(v.engines[x], y)
      ensures exists i :: 0 <= i < |v.links| && UpEnd(v.links[i], x, y)
    {
      if x != e || y != u {
        if x == e { assert At(w.engines[x], y) == At(v.engines[x], y); }
        assert Held(w.engines[x], y);
        var i :| 0 <= i < |w.links| && UpEnd(w.links[i], x, y);
        assert UpEnd(v.links[i], x, y);
      }
    }
  }

  /** A call about `u`, which link `i` uses, changes hands of nothing but `u`. */
  lemma CallChangesHands(w: World, i: nat, l: Link, e: nat, u: UInt32, r: Result)
    requires Linked(w) && i < |w.links| && e < |w.engines| && Owns(w.links[i], e, u)
    requires SameEnd(w.links[i], l) && Concerns(r.effect, u) && OnlyTouches(w.engines[e], r.engine, u)
    requires forall x: nat, y: UInt32 | UpEnd(w.links[i], x, y) && (x != e || y != u) :: UpEnd(l, x, y)
    ensures ChangesHands(w, Ran(Relinked(w, i, l), e, r), e, u)
    ensures Ran(Relinked(w, i, l), e, r).links[i] == Affect(l, e, r.effect)
  {
    var v := Ran(Relinked(w, i, l), e, r);
    forall j, x: nat, y: UInt32 | 0 <= j < |w.links| && UpEnd(w.links[j], x, y) && (x != e || y != u)
      ensures UpEnd(v.links[j], x, y)
    {
      if j != i { OtherHistory(w, j, i, l, e, u, r); }
    }
  }

  lemma ConnectedCovers(w: World, i: nat)
    requires Inv(w) && Covered(w) && InRange(w) && Enabled(w, ReportConnected(i))
    ensures Covered(Next(w, ReportConnected(i)))
  {
    var l := w.links[i];
    var r := OnConnected(w.engines[l.a], l.cu);
    assert Sound(w, l);
    OneEnd(w, i, l.a, l.cu);
    ConnectedHandled(w.engines[l.a], l, r, Affect(l.(aSide := Up), l.a, r.effect));
    OnConnectedTouches(w.engines[l.a], l.cu);
    CallChangesHands(w, i, l.(aSide := Up), l.a, l.cu, r);
    var v := Ran(Relinked(w, i, l.(aSide := Up)), l.a, r);
    assert UpEnd(v.links[i], l.a, l.cu);
    CoveredFrame(w, v, l.a, l.cu);
  }

  lemma AcceptedCovers(w: World, i: nat)
    requires Inv(w) && Covered(w) && InRange(w) && Enabled(w, ReportAccepted(i))
    ensures Covered(Next(w, ReportAccepted(i)))
  {
    var l := w.links[i];
    var r := OnAccept(w.engines[l.b], l.su, l.via);
    var m := l.(bSide := if l.su in r.engine.protocols then Up else Down);
    assert Sound(w, l);
    AcceptedHandled(w.engines[l.b], l, r, m);
    OnAcceptTouches(w.engines[l.b], l.su, l.via);
    CallChangesHands(w, i, m, l.b, l.su, r);
    var v := Ran(Relinked(w, i, m), l.b, r);
    assert v.links[i] == m;
    CoveredFrame(w, v, l.b, l.su);
  }

  lemma PingCovers(w: World, i: nat)
    requires Inv(w) && Covered(w) && InRange(w) && Enabled(w, DeliverToB(i))
    ensures Covered(Next(w, DeliverToB(i)))
  {
    var l := w.links[i];
    var x := w.engines[l.b];
    var r := HandlePing(x, l.su, l.toB[0]);
    var m := Affect(l.(toB := l.toB[1..]), l.b, r.effect);
    assert Sound(w, l);
    OneEnd(w, i, l.b, l.su);
    PingArrives(x, l);
    PingHandled(x, l, r, m);
    HandlePingTouches(x, l.su, l.toB[0]);
    CallChangesHands(w, i, l.(toB := l.toB[1..]), l.b, l.su, r);
    var v := Ran(Relinked(w, i, l.(toB := l.toB[1..])), l.b, r);
    assert At(r.engine, l.su).protocol.Some? ==> UpEnd(v.links[i], l.b, l.su);
    CoveredFrame(w, v, l.b, l.su);
  }

  lemma PongCovers(w: World, i: nat)
    requires Inv(w) && Covered(w) && InRange(w) && Enabled(w, DeliverToA(i))
    ensures Covered(Next(w, DeliverToA(i)))
  {
    var l := w.links[i];
    var x := w.engines[l.a];
    var r := HandlePong(x, l.cu, l.toA[0]);
    var m := Affect(l.(toA := l.toA[1..]), l.a, r.effect);
    assert Sound(w, l);
    PongArrives(x, l);
    PongHandled(x, l, r, m);
    HandlePongTouches(x, l.cu, l.toA[0]);
    CallChangesHands(w, i, l.(toA := l.toA[1..]), l.a, l.cu, r);
    var v := Ran(Relinked(w, i, l.(toA := l.toA[1..])), l.a, r);
    assert At(r.engine, l.cu).protocol.Some? ==> UpEnd(v.links[i], l.a, l.cu);
    CoveredFrame(w, v, l.a, l.cu);
  }

  lemma CloseCovers(w: World, e: nat, u: UInt32)
    requires Inv(w) && Covered(w) && InRange(w) && e < |w.engines|
    ensures Covered(Ran(w, e, Close(w.engines[e], u)))
  {
    hide Consistent, Linked, OnlyTouches, OnClose, OnDisconnect, OnUnlisten;
    var r := Close(w.engines[e], u);
    ClosingTouches(w.engines[e], u);
    if u in w.engines[e].protocols {
      ClosedAt(w.engines[e], u);
      assert At(r.engine, u).protocol.None?;
    }
    CoveredFrame(w, Ran(w, e, r), e, u);
  }

  lemma LostCovers(w: World, i: nat)
    requires Inv(w) && Covered(w) && InRange(w) && Enabled(w, ReportLost(i))
    ensures Covered(Next(w, ReportLost(i)))
  {
    hide Consistent, OnlyTouches, ConnectorLost, EndB, Traffic;
    var l := w.links[i];
    assert Sound(w, l);
    OneEnd(w, i, l.a, l.cu);
    ClosingTouches(w.engines[l.a], l.cu);
    LostHandled(w.engines[l.a], l);
    CoveredFrame(w, Moved(Relinked(w, i, l.(aSide := Down)), l.a, ConnectorLost(w.engines[l.a], l.cu)), l.a, l.cu);
  }

  lemma ClosedCovers(w: World, i: nat)
    requires Inv(w) && Covered(w) && InRange(w) && Enabled(w, ReportClosed(i))
    ensures Covered(Next(w, ReportClosed(i)))
  {
    var l := w.links[i];
    assert Sound(w, l);
    OneEnd(w, i, l.b, l.su);
    ClosingTouches(w.engines[l.b], l.su);
    ClosedHandled(w.engines[l.b], l);
    CoveredFrame(w, Moved(Relinked(w, i, l.(bSide := Down)), l.b, SessionClosed(w.engines[l.b], l.su)), l.b, l.su);
  }

  lemma OwnerCovers(w: World, s: Step)
    requires Inv(w) && Covered(w) && InRange(w) && Enabled(w, s)
    requires s.DoSetupNode? || s.DoListen? || s.DoConnect? || s.DoConnectNode? || s.DoReconnect?
    ensures Covered(Next(w, s))
  {
    var x, u := w.engines[s.e], s.answer;
    assert Consistent(x);
    match s {
      case DoSetupNode(_, code, typ, info, _, ok) => IdentityTouches(x, code, typ, info, u, ok);
      case DoListen(_, _) => IdentityTouches(x, 0, 0, [], u, true);
      case DoConnect(_, _) => IdentityTouches(x, 0, 0, [], u, true);
      case DoConnectNode(_, code, typ, _) => ConnectNodeTouches(x, code, typ, u);
      case DoReconnect(_, code, _) => ReconnectTouches(x, code, u);
    }
    CoveredFrame(w, Next(w, s), s.e, u);
  }

  lemma StepCovers(w: World, s: Step)
    requires Inv(w) && Covered(w) && InRange(w) && Enabled(w, s)
    ensures Covered(Next(w, s))
  {
    match s
    case ReportConnected(i) => ConnectedCovers(w, i);
    case ReportAccepted(i) => AcceptedCovers(w, i);
    case DeliverToB(i) => PingCovers(w, i);
    case DeliverToA(i) => PongCovers(w, i);
    case DoClose(e, u) => CloseCovers(w, e, u);
    case ReportLost(i) => LostCovers(w, i);
    case ReportClosed(i) => ClosedCovers(w, i);
    case Establish(_, _, _, _, _) => NetworkCovers(w, s);
    case Cut(_, _, _) => NetworkCovers(w, s);
    case Release(_, _) => NetworkCovers(w, s);
    case ReportFailed(_) => NetworkCovers(w, s);
    case _ => OwnerCovers(w, s);
  }

  lemma NetworkCovers(w: World, s: Step)
    requires Covered(w) && InRange(w) && Enabled(w, s) && (s.Establish? || s.Cut? || s.Release? || s.ReportFailed?)
    ensures Covered(Next(w, s))
  {
    CoveredGrows(w, Next(w, s));
  }

  lemma CoveredGrows(w: World, v: World)
    requires Covered(w) && v.engines == w.engines && |w.links| <= |v.links|
    requires forall i | 0 <= i < |w.links| ::
               && SameLink(w.links[i], v.links[i])
               && (w.links[i].aSide == Up ==> v.links[i].aSide == Up)
               && (w.links[i].bSide == Up ==> v.links[i].bSide == Up)
    ensures Covered(v)
  {
    forall x: nat, y: UInt32 | x < |v.engines| && Held(v.engines[x], y)
      ensures exists i :: 0 <= i < |v.links| && UpEnd(v.links[i], x, y)
    {
      var i :| 0 <= i < |w.links| && UpEnd(w.links[i], x, y);
      assert SameLink(w.links[i], v.links[i]);
      assert UpEnd(v.links[i], x, y);
    }
  }

  lemma StartCovers(w: World)
    requires Initial(w)
    ensures Covered(w)
  {
  }

  lemma {:induction false} RunCovers(states: seq<World>, steps: seq<Step>, k: nat)
    requires IsRun(states, steps) && k <= |steps|
    ensures Covered(states[k])
  {
    hide Covered, Inv, Next, Enabled;
    if k == 0 {
      StartCovers(states[0]);
    } else {
      RunCovers(states, steps, k - 1);
      RunKeepsInv(states, steps, k - 1);
      StepCovers(states[k - 1], steps[k - 1]);
    }
  }

  lemma LinkOfSession(w: World, e: nat, u: UInt32) returns (i: nat)
    requires Inv(w) && Covered(w) && e < |w.engines| && u in w.engines[e].peers && w.engines[e].peers[u].Own?
    ensures i < |w.links| && Sound(w, w.links[i])
    ensures w.links[i].b == e && w.links[i].su == u && w.links[i].bSide == Up
  {
    var x := w.engines[e];
    assert Consistent(x);
    assert At(x, u).protocol == Some(Protocol(Session, true));
    assert Held(x, u);
    i :| 0 <= i < |w.links| && UpEnd(w.links[i], e, u);
    assert Sound(w, w.links[i]);
  }

  lemma SessionPeerLink(x: Engine, l: Link)
    requires Traffic(l) && EndB(x, l) && l.bSide == Up && l.su in x.peers
    ensures l.asked.Some? && l.answered.Some? && Reply(l.asked.value, l.answered.value)
    ensures x.peers[l.su] == Own(Node(l.su, l.answered.value.toCode, l.answered.value.toType, l.asked.value.info))
  {
    assert At(x, l.su).peer == Some(x.peers[l.su]);
  }

  lemma ConnectorOfPeer(x: Engine, l: Link)
    requires Traffic(l) && EndA(x, l) && l.asked.Some? && l.answered.Some? && !l.cut && l.aSide != Down && l.aSide != Free
    requires l.toA == []
    ensures l.cu in x.peers && x.peers[l.cu] == Shared(l.answered.value.fromCode)
  {
    assert At(x, l.cu).peer.Some?;
  }

  /**
   Whenever an engine holds a session as a peer, the session is the end of a link that is up, made
   for the Ping on it; and unless the connection has broken, the far engine has the matching peer,
   or the Pong is still on its way, or the far engine has closed or lost its end.
   */
  lemma NoSilentHalfOpen(states: seq<World>, steps: seq<Step>, k: nat, e: nat, u: UInt32) returns (i: nat)
    requires IsRun(states, steps) && k <= |steps|
    requires e < |states[k].engines| && u in states[k].engines[e].peers && states[k].engines[e].peers[u].Own?
    ensures i < |states[k].links|
    ensures var l := states[k].links[i];
            && l.b == e && l.su == u && l.bSide == Up && l.asked.Some? && l.answered.Some?
            && Reply(l.asked.value, l.answered.value)
            && states[k].engines[e].peers[u].node == Node(u, l.answered.value.toCode, l.answered.value.toType, l.asked.value.info)
    ensures var l := states[k].links[i];
            l.a < |states[k].engines| &&
            var a := states[k].engines[l.a];
            || l.cut
            || (l.cu in a.peers && a.peers[l.cu] == Shared(l.answered.value.fromCode))
            || l.toA == [PongPacket(l.answered.value)]
            || l.aSide == Down || l.aSide == Free
  {
    RunKeepsInv(states, steps, k);
    RunCovers(states, steps, k);
    var w := states[k];
    i := LinkOfSession(w, e, u);
    SessionPeerLink(w.engines[e], w.links[i]);
    var l := w.links[i];
    if !l.cut && l.aSide != Down && l.aSide != Free && l.toA == [] {
      ConnectorOfPeer(w.engines[l.a], l);
    }
  }
}
