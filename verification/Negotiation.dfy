/** Two nodes and the control channel between them. A packet once sent may be
    delivered never, late, repeatedly and in any order. */
module Negotiation {
  import opened Base
  import opened RingDepth
  import opened Handshake

  datatype Pair = Pair(a: Node, b: Node, toA: set<Packet>, toB: set<Packet>)

  datatype Event =
    | SendLogin(atA: bool)
    | Happens(atA: bool, what: NodeEvent)

  /** Packets that no correct peer sends and every node refuses. */
  predicate Junk(p: Packet) {
    match p
    case Login(version, _, depth) => version != PROTOCOL_VER || !LegalDepth(depth)
    case ShortLogin => true
    case LoginRsp(_, _, _) => !AcceptableReply(p)
    case Logout => false
  }

  predicate Deliverable(inbox: set<Packet>, e: NodeEvent) {
    match e
    case GotLogin(p, _) => p in inbox || Junk(p)
    case GotReply(p) => p in inbox || Junk(p)
    case GotLogout => Logout in inbox
    case _ => true
  }

  function Emitted(n: Node, e: NodeEvent): set<Packet> {
    match e
    case GotLogin(p, _) => {LoginReply(n, p)}
    case OwnLogout => {Logout}
    case _ => {}
  }

  /** A step; an impossible one changes nothing. */
  function Step(s: Pair, ev: Event): Pair {
    match ev
    case SendLogin(true) => s.(toB := s.toB + {BuildLogin(s.a)})
    case SendLogin(false) => s.(toA := s.toA + {BuildLogin(s.b)})
    case Happens(true, e) =>
      if !Deliverable(s.toA, e) then s
      else s.(a := NodeStep(s.a, e), toB := s.toB + Emitted(s.a, e))
    case Happens(false, e) =>
      if !Deliverable(s.toB, e) then s
      else s.(b := NodeStep(s.b, e), toA := s.toA + Emitted(s.b, e))
  }

  function Run(s: Pair, evs: seq<Event>): Pair {
    if evs == [] then s else Step(Run(s, evs[..|evs| - 1]), evs[|evs| - 1])
  }

  function Start(depthA: nat, depthB: nat, hopA: int, hopB: int): Pair {
    Pair(Fresh(depthA, hopA), Fresh(depthB, hopB), {}, {})
  }

  function NodeAt(s: Pair, atA: bool): Node {
    if atA then s.a else s.b
  }

  /** A node that has committed itself to a depth. */
  predicate Committed(n: Node) {
    n.connecting || n.conn.Connected? || n.conn.Ready? || n.verifying || n.hw.started
  }

  /** The depths a node of initial depth `init` can have or advertise. Having
      advertised the minimum `m` means being at `m` for good. */
  predicate Advertised(depth: nat, init: nat, m: nat, atMin: bool) {
    (depth == init || depth == m) && (depth == m ==> atMin)
  }

  predicate PacketOk(p: Packet, init: nat, m: nat, atMin: bool) {
    Junk(p) || p.Logout? || Advertised(p.depth, init, m, atMin)
  }

  /** One node's share of the invariant, with the peer reduced to whether it has
      reached the minimum. */
  predicate Side(n: Node, init: nat, peerInit: nat, peerAtMin: bool) {
    var m := Min(init, peerInit);
    && NodeInv(n) && LegalDepth(init) && LegalDepth(peerInit)
    && (n.hw.ring == init || n.hw.ring == m)
    && (n.log.peerRing == 0 || Advertised(n.log.peerRing, peerInit, m, peerAtMin))
    && n.hw.resizes == (if n.hw.ring == init then 0 else 1)
    && (peerInit == m ==> peerAtMin)
    && (Committed(n) ==> n.hw.ring == m && peerAtMin)
  }

  predicate PairInv(s: Pair, a: nat, b: nat) {
    var m := Min(a, b);
    && Side(s.a, a, b, s.b.hw.ring == m)
    && Side(s.b, b, a, s.a.hw.ring == m)
    && (forall p :: p in s.toA ==> PacketOk(p, b, m, s.b.hw.ring == m))
    && (forall p :: p in s.toB ==> PacketOk(p, a, m, s.a.hw.ring == m))
  }

  /** Depths never grow, and change only by one jump to the minimum. */
  lemma DepthSteps(n: Node, e: NodeEvent, init: nat, peerInit: nat, atMin: bool)
    requires Side(n, init, peerInit, atMin)
    ensures var r := NodeStep(n, e); var m := Min(init, peerInit);
            || (r.hw.ring == n.hw.ring && r.hw.resizes == n.hw.resizes)
            || (r.hw.ring == m < n.hw.ring == init && r.hw.resizes == 1)
  {
    if e.ConnectBegin? && MayConnect(n) {
      MinLegal(n.hw.ring, n.log.peerRing);
    }
  }

  lemma PeerDepthSteps(n: Node, e: NodeEvent, peerInit: nat, m: nat, atMin: bool)
    requires e.GotLogin? || e.GotReply? ==> PacketOk(e.p, peerInit, m, atMin)
    ensures var r := NodeStep(n, e).log.peerRing;
            r == n.log.peerRing || r == 0 || Advertised(r, peerInit, m, atMin)
  {
  }

  lemma CommitmentSteps(n: Node, e: NodeEvent, init: nat, peerInit: nat, atMin: bool)
    requires Side(n, init, peerInit, atMin)
    ensures var r := NodeStep(n, e);
            Committed(r) ==> r.hw.ring == Min(init, peerInit) && atMin
  {
    if e.ConnectBegin? && MayConnect(n) {
      MinLegal(n.hw.ring, n.log.peerRing);
    } else {
      assert NodeStep(n, e).hw.ring == n.hw.ring;
      assert Committed(NodeStep(n, e)) ==> Committed(n);
    }
  }

  lemma SideStep(n: Node, e: NodeEvent, init: nat, peerInit: nat, atMin: bool)
    requires Side(n, init, peerInit, atMin)
    requires e.GotLogin? || e.GotReply? ==> PacketOk(e.p, peerInit, Min(init, peerInit), atMin)
    ensures Side(NodeStep(n, e), init, peerInit, atMin)
  {
    NodeStepKeepsInv(n, e);
    DepthSteps(n, e, init, peerInit, atMin);
    PeerDepthSteps(n, e, peerInit, Min(init, peerInit), atMin);
    CommitmentSteps(n, e, init, peerInit, atMin);
  }

  lemma EmittedOk(n: Node, e: NodeEvent, init: nat, peerInit: nat, atMin: bool)
    requires Side(n, init, peerInit, atMin)
    ensures var m := Min(init, peerInit);
            && PacketOk(BuildLogin(n), init, m, n.hw.ring == m)
            && forall p :: p in Emitted(n, e) ==> PacketOk(p, init, m, n.hw.ring == m)
  {
  }

  lemma AtA(s: Pair, e: NodeEvent, a: nat, b: nat)
    requires PairInv(s, a, b) && Deliverable(s.toA, e)
    ensures PairInv(s.(a := NodeStep(s.a, e), toB := s.toB + Emitted(s.a, e)), a, b)
  {
    var m := Min(a, b);
    SideStep(s.a, e, a, b, s.b.hw.ring == m);
    DepthSteps(s.a, e, a, b, s.b.hw.ring == m);
    EmittedOk(s.a, e, a, b, s.b.hw.ring == m);
  }

  function Mirror(s: Pair): Pair {
    Pair(s.b, s.a, s.toB, s.toA)
  }

  lemma StepKeepsPairInv(s: Pair, ev: Event, a: nat, b: nat)
    requires PairInv(s, a, b)
    ensures PairInv(Step(s, ev), a, b)
  {
    match ev
    case SendLogin(true) => EmittedOk(s.a, GotLogout, a, b, s.b.hw.ring == Min(a, b));
    case SendLogin(false) => EmittedOk(s.b, GotLogout, b, a, s.a.hw.ring == Min(a, b));
    case Happens(true, e) =>
      if Deliverable(s.toA, e) {
        AtA(s, e, a, b);
      }
    case Happens(false, e) =>
      if Deliverable(s.toB, e) {
        assert Min(b, a) == Min(a, b);
        AtA(Mirror(s), e, b, a);
      }
  }

  lemma {:induction false} StepsKeepPairInv(s: Pair, evs: seq<Event>, a: nat, b: nat)
    requires PairInv(s, a, b)
    ensures PairInv(Run(s, evs), a, b)
  {
    if evs != [] {
      StepsKeepPairInv(s, evs[..|evs| - 1], a, b);
      StepKeepsPairInv(Run(s, evs[..|evs| - 1]), evs[|evs| - 1], a, b);
    }
  }

  lemma RunKeepsPairInv(a: nat, b: nat, hopA: int, hopB: int, evs: seq<Event>)
    requires LegalDepth(a) && LegalDepth(b)
    ensures PairInv(Run(Start(a, b, hopA, hopB), evs), a, b)
  {
    StepsKeepPairInv(Start(a, b, hopA, hopB), evs, a, b);
  }

  /** Negotiation agreement: in every run, a node that is connecting, CONNECTED or
      READY, or whose rings run, knows that both rings have the smaller of the two
      initial depths. */
  lemma Agreement(a: nat, b: nat, hopA: int, hopB: int, evs: seq<Event>)
    requires LegalDepth(a) && LegalDepth(b)
    ensures var s := Run(Start(a, b, hopA, hopB), evs);
            Committed(s.a) || Committed(s.b) ==> s.a.hw.ring == s.b.hw.ring == Min(a, b)
  {
    RunKeepsPairInv(a, b, hopA, hopB, evs);
  }

  /** Negotiation is never skipped and short: a run makes at most one successful
      resize, at the larger node, straight to the minimum. */
  lemma AtMostOneResize(a: nat, b: nat, hopA: int, hopB: int, evs: seq<Event>)
    requires LegalDepth(a) && LegalDepth(b)
    ensures var s := Run(Start(a, b, hopA, hopB), evs);
            && s.a.hw.resizes + s.b.hw.resizes <= 1
            && (s.a.hw.resizes == 1 <==> s.a.hw.ring != a)
            && (s.b.hw.resizes == 1 <==> s.b.hw.ring != b)
            && (s.a.hw.resizes == 1 ==> s.a.hw.ring == b < a)
            && (s.b.hw.resizes == 1 ==> s.b.hw.ring == a < b)
            && (s.a.log.sent ==> LegalDepth(s.a.log.peerRing))
            && (s.b.log.sent ==> LegalDepth(s.b.log.peerRing))
  {
    RunKeepsPairInv(a, b, hopA, hopB, evs);
  }

  /** Rings run only while the node is connecting, CONNECTED, READY, or
      DISCONNECTED by its own logout, and always with a HopID held. */
  predicate Conserved(n: Node) {
    && n.hw.taken - n.hw.given == (if n.hw.inHopValid then 1 else 0)
    && (n.hw.started ==> n.hw.inHopValid)
    && (n.hw.started ==>
          n.connecting || n.conn.Connected? || n.conn.Ready? || n.conn.Disconnected?)
    && (n.conn.Connected? || n.conn.Ready? ==> n.worker.Restarting? || n.hw.started)
    && (n.conn.Connected? || n.conn.Ready? ==> n.worker.Restarting? || n.hw.paths == {n.hw.inHop})
    && (n.hw.paths != {} ==> n.hw.started && n.hw.paths == {n.hw.inHop})
  }

  /** HopID, ring and path conservation over every run. */
  lemma Conservation(a: nat, b: nat, hopA: int, hopB: int, evs: seq<Event>)
    requires LegalDepth(a) && LegalDepth(b)
    ensures var s := Run(Start(a, b, hopA, hopB), evs); Conserved(s.a) && Conserved(s.b)
  {
    RunKeepsPairInv(a, b, hopA, hopB, evs);
  }

  ghost predicate Reaches(s: Pair, t: Pair) {
    exists evs :: Run(s, evs) == t
  }

  lemma ReachesStep(s: Pair, t: Pair, ev: Event)
    requires Reaches(s, t)
    ensures Reaches(s, Step(t, ev))
  {
    var evs :| Run(s, evs) == t;
    assert (evs + [ev])[..|evs|] == evs;
    assert Run(s, evs + [ev]) == Step(t, ev);
  }

  predicate Waiting(n: Node) {
    n.conn == Handshaking && !n.connecting && n.worker.Idle? && !n.hw.started && !n.hw.inHopValid
  }

  lemma OneStep(s: Pair, t: Pair, ev: Event) returns (u: Pair)
    requires Reaches(s, t)
    ensures Reaches(s, u) && u == Step(t, ev)
  {
    u := Step(t, ev);
    ReachesStep(s, t, ev);
  }

  /** One node logs in to the other; nothing but the login records moves. */
  lemma LogsIn(s0: Pair, s: Pair, atA: bool) returns (t: Pair)
    requires Reaches(s0, s) && s.a.conn == s.b.conn == Handshaking
    requires LegalDepth(s.a.hw.ring) && LegalDepth(s.b.hw.ring)
    ensures Reaches(s0, t)
    ensures t.a == s.a.(log := t.a.log) && t.b == s.b.(log := t.b.log)
    ensures t.a.log.peerRing == s.b.hw.ring && t.b.log.peerRing == s.a.hw.ring
    ensures t.a.log.remoteHop == s.b.hw.localHop && t.b.log.remoteHop == s.a.hw.localHop
    ensures atA ==> t.a.log.sent && t.b.log.received
    ensures atA ==> t.a.log.received == s.a.log.received && t.b.log.sent == s.b.log.sent
    ensures !atA ==> t.b.log.sent && t.a.log.received
    ensures !atA ==> t.b.log.received == s.b.log.received && t.a.log.sent == s.a.log.sent
  {
    var n, peer := if atA then s.a else s.b, if atA then s.b else s.a;
    t := OneStep(s0, s, SendLogin(atA));
    t := OneStep(s0, t, Happens(!atA, GotLogin(BuildLogin(n), true)));
    t := OneStep(s0, t, Happens(atA, GotReply(LoginRsp(Ok, peer.hw.localHop, peer.hw.ring))));
  }

  /** Connected and verified, with exactly the HopID `hop` open. */
  predicate Up(n: Node, hop: int) {
    n.conn.Ready? && n.worker.Idle? && n.hw.started && n.hw.paths == {hop}
  }

  /** One node does something of its own accord; the other and what either has sent before
      are untouched. */
  lemma Does(s0: Pair, s: Pair, atA: bool, e: NodeEvent) returns (t: Pair)
    requires Reaches(s0, s) && !e.GotLogin? && !e.GotReply? && !e.GotLogout?
    ensures Reaches(s0, t) && NodeAt(t, atA) == NodeStep(NodeAt(s, atA), e) && NodeAt(t, !atA) == NodeAt(s, !atA)
  {
    t := OneStep(s0, s, Happens(atA, e));
  }

  /** A connection attempt that succeeds at every point. */
  function Attempted(n: Node): Node {
    var begun := NodeStep(n, ConnectBegin(true, 0));
    NodeStep(NodeStep(NodeStep(begun, ConnectHop(true)), ConnectPrime(true)), ConnectPaths(true))
  }

  lemma AttemptEnds(n: Node)
    requires Waiting(n) && MayConnect(n) && n.hw.ring == n.log.peerRing && n.hw.paths == {}
    ensures var r := Attempted(n);
            && r.worker.Enabled? && StillCurrent(r, r.worker.snap) && r.hw.started
            && r.hw.paths == {n.log.remoteHop} && r.hw.ring == n.hw.ring && r.hw.localHop == n.hw.localHop
  {
  }

  lemma Attempts(s0: Pair, s: Pair, atA: bool) returns (t: Pair)
    requires Reaches(s0, s)
    ensures Reaches(s0, t) && NodeAt(t, atA) == Attempted(NodeAt(s, atA)) && NodeAt(t, !atA) == NodeAt(s, !atA)
  {
    t := Does(s0, s, atA, ConnectBegin(true, 0));
    t := Does(s0, t, atA, ConnectHop(true));
    t := Does(s0, t, atA, ConnectPrime(true));
    t := Does(s0, t, atA, ConnectPaths(true));
  }

  /** One node carries a connection attempt through; the other is untouched. */
  lemma BringsUp(s0: Pair, s: Pair, atA: bool) returns (t: Pair)
    requires Reaches(s0, s)
    requires var n := NodeAt(s, atA);
             Waiting(n) && MayConnect(n) && n.hw.ring == n.log.peerRing && n.hw.paths == {}
    ensures Reaches(s0, t) && NodeAt(t, !atA) == NodeAt(s, !atA)
    ensures var n, r := NodeAt(s, atA), NodeAt(t, atA);
            Up(r, n.log.remoteHop) && r.hw.ring == n.hw.ring && r.hw.localHop == n.hw.localHop
  {
    t := Attempts(s0, s, atA);
    AttemptEnds(NodeAt(s, atA));
    t := Does(s0, t, atA, ConnectCommit);
    t := Does(s0, t, atA, VerifyEnd(true));
  }

  /** The larger node shrinks and the smaller one waits, whichever they are. */
  lemma Settles(s0: Pair, s: Pair, hopA: int, hopB: int) returns (t: Pair)
    requires Reaches(s0, s) && Waiting(s.a) && Waiting(s.b) && s.a.hw.paths == s.b.hw.paths == {}
    requires LegalDepth(s.a.hw.ring) && LegalDepth(s.b.hw.ring) && s.a.hw.ring != s.b.hw.ring
    requires s.a.log.sent && s.a.log.received && s.a.log.peerRing == s.b.hw.ring
    requires s.b.log.sent && s.b.log.received && s.b.log.peerRing == s.a.hw.ring
    ensures Reaches(s0, t) && Waiting(t.a) && Waiting(t.b) && t.a.hw.paths == t.b.hw.paths == {}
    ensures t.a.hw.ring == t.b.hw.ring == Min(s.a.hw.ring, s.b.hw.ring)
  {
    MinLegal(s.a.hw.ring, s.b.hw.ring);
    MinLegal(s.b.hw.ring, s.a.hw.ring);
    t := OneStep(s0, s, Happens(true, ConnectBegin(true, hopA)));
    t := OneStep(s0, t, Happens(false, ConnectBegin(true, hopB)));
  }

  /** Both nodes up at the minimum depth, each with the other's HopID open. */
  predicate BothUp(s: Pair, depth: nat) {
    Up(s.a, s.b.hw.localHop) && Up(s.b, s.a.hw.localHop) && s.a.hw.ring == s.b.hw.ring == depth
  }

  lemma EqualsConnect(s0: Pair, s: Pair) returns (t: Pair)
    requires Reaches(s0, s) && Waiting(s.a) && Waiting(s.b) && s.a.hw.paths == s.b.hw.paths == {}
    requires LegalDepth(s.a.hw.ring) && s.a.hw.ring == s.b.hw.ring
    ensures Reaches(s0, t) && BothUp(t, s.a.hw.ring)
  {
    t := LogsIn(s0, s, true);
    t := LogsIn(s0, t, false);
    t := BringsUp(s0, t, true);
    t := BringsUp(s0, t, false);
  }

  lemma ConnectsFrom(s0: Pair, s: Pair) returns (t: Pair)
    requires Reaches(s0, s) && Waiting(s.a) && Waiting(s.b) && s.a.hw.paths == s.b.hw.paths == {}
    requires LegalDepth(s.a.hw.ring) && LegalDepth(s.b.hw.ring)
    ensures Reaches(s0, t) && BothUp(t, Min(s.a.hw.ring, s.b.hw.ring))
  {
    t := s;
    if s.a.hw.ring != s.b.hw.ring {
      MinLegal(s.a.hw.ring, s.b.hw.ring);
      t := LogsIn(s0, t, true);
      t := LogsIn(s0, t, false);
      t := Settles(s0, t, s.a.hw.localHop, s.b.hw.localHop);
    }
    t := EqualsConnect(s0, t);
  }

  /** What ends the step that a worker is in. */
  function Ending(w: Worker): NodeEvent {
    match w
    case Idle => ConnectRecover
    case Prepared(_) => ConnectHop(false)
    case HopHeld(_) => ConnectPrime(false)
    case Primed(_) => ConnectPaths(false)
    case Enabled(_) => ConnectCommit
    case Failing => ConnectRecover
    case Restarting => RestartReset
  }

  lemma EndingEnds(n: Node)
    ensures NodeStep(NodeStep(n, Ending(n.worker)), ConnectRecover).worker.Idle?
  {
  }

  /** A node's worker comes to rest; the other node is untouched. */
  lemma ComesToRest(s0: Pair, s: Pair, atA: bool) returns (t: Pair)
    requires Reaches(s0, s)
    ensures Reaches(s0, t) && NodeAt(t, atA).worker.Idle? && NodeAt(t, !atA) == NodeAt(s, !atA)
  {
    EndingEnds(NodeAt(s, atA));
    t := Does(s0, s, atA, Ending(NodeAt(s, atA).worker));
    t := Does(s0, t, atA, ConnectRecover);
  }

  lemma ReachedOk(s0: Pair, s: Pair, a: nat, b: nat)
    requires PairInv(s0, a, b) && Reaches(s0, s)
    ensures PairInv(s, a, b)
  {
    var evs :| Run(s0, evs) == s;
    StepsKeepPairInv(s0, evs, a, b);
  }

  /** A node starts the handshake over; the other is untouched. */
  lemma StartsOver(s0: Pair, s: Pair, a: nat, b: nat, atA: bool) returns (t: Pair)
    requires PairInv(s0, a, b) && Reaches(s0, s)
    ensures Reaches(s0, t) && NodeAt(t, !atA) == NodeAt(s, !atA)
    ensures Waiting(NodeAt(t, atA)) && NodeAt(t, atA).hw.paths == {}
  {
    t := ComesToRest(s0, s, atA);
    ReachedOk(s0, t, a, b);
    t := Does(s0, t, atA, RestartTeardown);
    t := Does(s0, t, atA, RestartReset);
  }

  /** Nothing in the protocol stands in the way, whatever has happened before: from every
      state that two nodes of legal depths reach, some further run brings both up, at the
      smaller of the initial depths and each with the other's HopID open. */
  lemma AlwaysRecovers(a: nat, b: nat, hopA: int, hopB: int, evs: seq<Event>) returns (t: Pair)
    requires LegalDepth(a) && LegalDepth(b)
    ensures Reaches(Run(Start(a, b, hopA, hopB), evs), t) && BothUp(t, Min(a, b))
  {
    var s0 := Run(Start(a, b, hopA, hopB), evs);
    RunKeepsPairInv(a, b, hopA, hopB, evs);
    assert Run(s0, []) == s0;
    t := StartsOver(s0, s0, a, b, true);
    t := StartsOver(s0, t, a, b, false);
    ReachedOk(s0, t, a, b);
    t := ConnectsFrom(s0, t);
    ReachedOk(s0, t, a, b);
  }
}
