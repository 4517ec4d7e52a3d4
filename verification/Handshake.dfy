/** One node's side of the XDomain login protocol. Every critical section of the
    driver is one function on `Node`; `Device` performs the same step in place. */
module Handshake {
  import opened Base
  import opened RingDepth

  const PROTOCOL_VER := 3
  const GENERATIONS := 0x1_0000_0000

  datatype Conn = Disconnected | Handshaking | Connected | Error | Ready

  datatype Status = Ok | ProtoMismatch | BadRing | RingUnavailable

  datatype Packet =
    | Login(version: nat, path: int, depth: nat)
    | ShortLogin
    | LoginRsp(status: Status, path: int, depth: nat)
    | Logout

  /** What `odl_tb5_complete_connection` remembers under the state lock. `at` is
      the number of login events seen so far; the driver does not store it. */
  datatype Snap = Snap(path: int, gen: nat, at: nat)

  /** Where the connect and restart workers are, with the connect worker's
      locals. The two workers never overlap. */
  datatype Worker =
    | Idle
    | Prepared(snap: Snap)
    | HopHeld(snap: Snap)
    | Primed(snap: Snap)
    | Enabled(snap: Snap)
    | Failing
    | Restarting

  predicate HasSnap(w: Worker) {
    w.Prepared? || w.HopHeld? || w.Primed? || w.Enabled?
  }

  /** What the login exchange has established. `events` is history: the number
      of login events so far. */
  datatype Logins = Logins(
    sent: bool,
    received: bool,
    generation: nat,
    peerRing: nat,
    remoteHop: int,
    events: nat)

  /** Rings, input HopID and paths. The last four fields are history: HopIDs
      taken and given back, paths open in the Thunderbolt core, resizes made. */
  datatype Hardware = Hardware(
    ring: nat,
    localHop: int,
    inHopValid: bool,
    inHop: int,
    started: bool,
    taken: nat,
    given: nat,
    paths: set<int>,
    resizes: nat)

  datatype Node = Node(
    conn: Conn,
    connecting: bool,
    verifying: bool,
    worker: Worker,
    log: Logins,
    hw: Hardware)

  function Fresh(depth: nat, localHop: int): Node {
    Node(Handshaking, false, false, Idle, Logins(false, false, 0, 0, 0, 0),
         Hardware(depth, localHop, false, 0, false, 0, 0, {}, 0))
  }

  function Bump(l: Logins): Logins {
    l.(generation := (l.generation + 1) % GENERATIONS, events := l.events + 1)
  }

  function BuildLogin(n: Node): Packet {
    Login(PROTOCOL_VER, n.hw.localHop, n.hw.ring)
  }

  /** The refusal a login earns before the state lock, or under it in ERROR. */
  function Refusal(n: Node, p: Packet): Option<Status> {
    if p.Login? && p.version != PROTOCOL_VER then Some(ProtoMismatch)
    else if !p.Login? || !LegalDepth(p.depth) then Some(BadRing)
    else if n.conn == Error then Some(RingUnavailable)
    else None
  }

  function LoginReply(n: Node, p: Packet): Packet {
    match Refusal(n, p)
    case Some(status) => LoginRsp(status, 0, 0)
    case None => LoginRsp(Ok, n.hw.localHop, n.hw.ring)
  }

  /** `responded` tells whether the Thunderbolt core took the reply. */
  function HandleLogin(n: Node, p: Packet, responded: bool): Node {
    if Refusal(n, p).Some? then n
    else if !responded then n.(log := n.log.(peerRing := p.depth))
    else n.(log := Bump(n.log).(peerRing := p.depth, remoteHop := p.path, received := true))
  }

  function HandleLogout(n: Node): Node {
    n.(log := Bump(n.log).(received := false, sent := false))
  }

  predicate AcceptableReply(p: Packet) {
    p.LoginRsp? && p.status == Ok && LegalDepth(p.depth)
  }

  function FinishLogin(n: Node, p: Packet): Node {
    if !AcceptableReply(p) then n
    else n.(log := Bump(n.log).(remoteHop := p.path, peerRing := p.depth, sent := true))
  }

  /** Shrink the rings. Both a shrink and the restore after a failed one take a
      new output HopID. */
  function Resize(h: Hardware, depth: nat, granted: bool, newHop: int): (Hardware, bool) {
    if h.started then (h, false)
    else if depth >= h.ring then (h, true)
    else if granted then
      (h.(ring := AllocatedDepth(depth), localHop := newHop, resizes := h.resizes + 1), true)
    else (h.(ring := AllocatedDepth(h.ring), localHop := newHop), false)
  }

  predicate MayConnect(n: Node) {
    n.conn == Handshaking && !n.connecting && n.log.sent && n.log.received
  }

  function BeginConnect(n: Node, granted: bool, newHop: int): Node {
    var agreed := Min(n.hw.ring, n.log.peerRing);
    if !MayConnect(n) then n
    else if !LegalDepth(n.log.peerRing) || n.hw.ring == n.log.peerRing then
      n.(connecting := true,
         worker := Prepared(Snap(n.log.remoteHop, n.log.generation, n.log.events)))
    else if agreed < n.hw.ring then
      var (h, ok) := Resize(n.hw, agreed, granted, newHop);
      if ok then n.(hw := h, log := n.log.(sent := false)) else n.(hw := h, conn := Error)
    else n.(log := n.log.(sent := false))
  }

  function ReleaseHop(h: Hardware): Hardware {
    h.(given := h.given + 1, inHopValid := false)
  }

  function Abandon(n: Node, h: Hardware): Node {
    n.(hw := ReleaseHop(h.(started := false)), worker := Failing)
  }

  /** A HopID still held from an earlier attempt is released first. */
  function DropOldHop(h: Hardware): Hardware {
    if !h.inHopValid then h
    else ReleaseHop(if h.started then h.(paths := h.paths - {h.inHop}) else h)
  }

  function AcquireHop(n: Node, ok: bool): Node
    requires n.worker.Prepared?
  {
    var path := n.worker.snap.path;
    var h := DropOldHop(n.hw);
    if !ok then n.(hw := h, worker := Failing)
    else n.(hw := h.(inHop := path, inHopValid := true, taken := h.taken + 1),
            worker := HopHeld(n.worker.snap))
  }

  function StartAndPrime(n: Node, ok: bool): Node
    requires n.worker.HopHeld?
  {
    if ok then n.(hw := n.hw.(started := true), worker := Primed(n.worker.snap))
    else Abandon(n, n.hw)
  }

  function EnablePaths(n: Node, ok: bool): Node
    requires n.worker.Primed?
  {
    if ok then n.(hw := n.hw.(paths := n.hw.paths + {n.worker.snap.path}),
                  worker := Enabled(n.worker.snap))
    else Abandon(n, n.hw)
  }

  predicate StillCurrent(n: Node, s: Snap) {
    n.conn == Handshaking && n.connecting && n.log.sent && n.log.received &&
    n.log.generation == s.gen
  }

  function Commit(n: Node): Node
    requires n.worker.Enabled?
  {
    if StillCurrent(n, n.worker.snap) then
      n.(connecting := false, conn := Connected, verifying := true, worker := Idle)
    else Abandon(n, n.hw.(paths := n.hw.paths - {n.worker.snap.path}))
  }

  function Recover(n: Node): Node {
    n.(connecting := false, log := n.log.(sent := false, received := false), worker := Idle)
  }

  function Teardown(n: Node): Node {
    var h := n.hw;
    var h' := if !h.started then h
              else if h.inHopValid then
                ReleaseHop(h.(paths := h.paths - {h.inHop}, started := false))
              else h.(started := false);
    n.(verifying := false, worker := Restarting, hw := h')
  }

  function Reset(n: Node): Node {
    n.(conn := Handshaking, connecting := false, worker := Idle,
       log := n.log.(sent := false, peerRing := 0))
  }

  function Verified(n: Node, ok: bool): Node {
    n.(conn := if ok then Ready else n.conn, verifying := false)
  }

  /** Everything that can happen to one node. */
  datatype NodeEvent =
    | GotLogin(p: Packet, responded: bool)
    | GotReply(p: Packet)
    | GotLogout
    | OwnLogout
    | ConnectBegin(granted: bool, newHop: int)
    | ConnectHop(ok: bool)
    | ConnectPrime(ok: bool)
    | ConnectPaths(ok: bool)
    | ConnectCommit
    | ConnectRecover
    | RestartTeardown
    | RestartReset
    | VerifyEnd(ok: bool)

  predicate CanRun(n: Node, e: NodeEvent) {
    match e
    case GotLogin(_, _) => true
    case GotReply(_) => true
    case GotLogout => true
    case OwnLogout => true
    case ConnectBegin(_, _) => n.worker.Idle?
    case ConnectHop(_) => n.worker.Prepared?
    case ConnectPrime(_) => n.worker.HopHeld?
    case ConnectPaths(_) => n.worker.Primed?
    case ConnectCommit => n.worker.Enabled?
    case ConnectRecover => n.worker.Failing?
    case RestartTeardown => n.worker.Idle?
    case RestartReset => n.worker.Restarting?
    case VerifyEnd(_) => n.verifying
  }

  /** An event that cannot happen now changes nothing. */
  function NodeStep(n: Node, e: NodeEvent): Node {
    if !CanRun(n, e) then n
    else
      match e
      case GotLogin(p, responded) => HandleLogin(n, p, responded)
      case GotReply(p) => FinishLogin(n, p)
      case GotLogout => HandleLogout(n)
      case OwnLogout => n.(conn := Disconnected)
      case ConnectBegin(granted, newHop) => BeginConnect(n, granted, newHop)
      case ConnectHop(ok) => AcquireHop(n, ok)
      case ConnectPrime(ok) => StartAndPrime(n, ok)
      case ConnectPaths(ok) => EnablePaths(n, ok)
      case ConnectCommit => Commit(n)
      case ConnectRecover => Recover(n)
      case RestartTeardown => Teardown(n)
      case RestartReset => Reset(n)
      case VerifyEnd(ok) => Verified(n, ok)
  }

  /** Rings, HopID and paths agree with the worker's position: nothing is
      leaked, nothing is released twice, and no resize can meet started rings. */
  predicate ResourcesOk(n: Node) {
    var h, w := n.hw, n.worker;
    && h.taken == h.given + (if h.inHopValid then 1 else 0)
    && h.paths == (if w.Enabled? || (w.Idle? && h.started) then {h.inHop} else {})
    && h.inHopValid == (w.HopHeld? || h.started)
    && (h.started ==> w.Primed? || w.Enabled? || w.Idle?)
    && (w.Primed? || w.Enabled? ==> h.started)
    && (HasSnap(w) && !w.Prepared? ==> h.inHop == w.snap.path)
    && (w.Idle? && h.started ==> n.conn.Connected? || n.conn.Ready? || n.conn.Disconnected?)
    && (n.conn.Connected? || n.conn.Ready? ==> w.Restarting? || (w.Idle? && h.started))
    && (n.verifying ==> w.Idle? && h.started)
    && (n.connecting <==> HasSnap(w) || w.Failing?)
  }

  /** A snapshot dates from the login event it counts. */
  predicate SnapOk(n: Node) {
    && n.log.generation == n.log.events % GENERATIONS
    && (HasSnap(n.worker) ==>
          var s := n.worker.snap;
          s.at <= n.log.events && s.gen == s.at % GENERATIONS &&
          (n.log.events == s.at ==> n.log.remoteHop == s.path))
  }

  predicate DepthsOk(n: Node) {
    LegalDepth(n.hw.ring) && (n.log.sent ==> LegalDepth(n.log.peerRing))
  }

  predicate NodeInv(n: Node) {
    ResourcesOk(n) && SnapOk(n) && DepthsOk(n)
  }

  lemma StepKeepsResources(n: Node, e: NodeEvent)
    requires ResourcesOk(n)
    ensures ResourcesOk(NodeStep(n, e))
  {
  }

  /** An event is counted once, or leaves the counter and the peer's HopID alone;
      a worker's snapshot is the one it had, or one of the present state. */
  lemma LoginEventsAreCounted(n: Node, e: NodeEvent)
    ensures var n' := NodeStep(n, e);
            && (n'.log == Bump(n.log).(sent := n'.log.sent, received := n'.log.received,
                                       peerRing := n'.log.peerRing, remoteHop := n'.log.remoteHop)
                || (n'.log.events == n.log.events && n'.log.generation == n.log.generation &&
                    n'.log.remoteHop == n.log.remoteHop))
            && (HasSnap(n'.worker) ==>
                  || (HasSnap(n.worker) && n'.worker.snap == n.worker.snap)
                  || (n'.log == n.log &&
                      n'.worker.snap == Snap(n.log.remoteHop, n.log.generation, n.log.events)))
  {
  }

  lemma StepKeepsSnap(n: Node, e: NodeEvent)
    requires SnapOk(n)
    ensures SnapOk(NodeStep(n, e))
  {
    LoginEventsAreCounted(n, e);
  }

  lemma MinLegal(a: nat, b: nat)
    requires LegalDepth(a) && LegalDepth(b)
    ensures LegalDepth(Min(a, b)) && AllocatedDepth(Min(a, b)) == Min(a, b)
    ensures AllocatedDepth(a) == a
  {
    AllocationKeepsExactlyLegalDepths(Min(a, b));
    AllocationKeepsExactlyLegalDepths(a);
  }

  lemma StepKeepsDepths(n: Node, e: NodeEvent)
    requires DepthsOk(n)
    ensures DepthsOk(NodeStep(n, e))
  {
    if e.ConnectBegin? && MayConnect(n) {
      MinLegal(n.hw.ring, n.log.peerRing);
    }
  }

  /** Every event keeps the node invariant. */
  lemma NodeStepKeepsInv(n: Node, e: NodeEvent)
    requires NodeInv(n)
    ensures NodeInv(NodeStep(n, e))
  {
    StepKeepsResources(n, e);
    StepKeepsSnap(n, e);
    StepKeepsDepths(n, e);
  }

  /** A connect attempt that settles the depth instead: both logins are in and the legal
      depth on record is not this node's. */
  predicate SettlesDepth(n: Node) {
    n.conn == Handshaking && !n.connecting && n.log.sent && n.log.received &&
    LegalDepth(n.log.peerRing) && n.log.peerRing != n.hw.ring
  }

  /** The connection states and what leads from one to another: nothing else does. */
  lemma StateMoves(n: Node, e: NodeEvent)
    requires NodeInv(n)
    ensures NodeStep(n, e).conn ==
            if e.OwnLogout? then Disconnected
            else if e.VerifyEnd? && n.verifying && e.ok then Ready
            else if e.RestartReset? && n.worker.Restarting? then Handshaking
            else if e.ConnectCommit? && n.worker.Enabled? && n.conn == Handshaking && n.log.sent &&
                    n.log.received && n.log.generation == n.worker.snap.gen then Connected
            else if e.ConnectBegin? && n.worker.Idle? && SettlesDepth(n) && n.log.peerRing < n.hw.ring &&
                    !e.granted then Error
            else n.conn
    ensures NodeStep(n, e).verifying ==
            if e.ConnectCommit? && n.worker.Enabled? then NodeStep(n, e).conn.Connected?
            else if e.VerifyEnd? || (e.RestartTeardown? && n.worker.Idle?) then false
            else n.verifying
  {
    if e.ConnectBegin? && MayConnect(n) {
      MinLegal(n.hw.ring, n.log.peerRing);
    }
  }

  /** The HopID kept for re-entry is never there: by the time a connection
      attempt allocates, every earlier HopID is gone. */
  lemma ReentryReleaseIsRedundant(n: Node)
    requires NodeInv(n) && n.worker.Prepared?
    ensures DropOldHop(n.hw) == n.hw
    ensures n.hw.taken == n.hw.given && n.hw.paths == {} && !n.hw.started
  {
  }

  /** A resize chosen during the handshake never meets started rings: it fails
      exactly when memory is refused, and then the old depth is kept. */
  lemma ResizeNeverBusy(n: Node, granted: bool, newHop: int)
    requires NodeInv(n) && n.worker.Idle? && MayConnect(n) && n.log.peerRing < n.hw.ring
    ensures var r := BeginConnect(n, granted, newHop);
            && (granted <==> r.conn == Handshaking)
            && r.hw.ring == (if granted then n.log.peerRing else n.hw.ring)
            && !r.connecting && r.hw.localHop == newHop
  {
    MinLegal(n.hw.ring, n.log.peerRing);
  }

  /** Fresh commit. CONNECTED is reached exactly when both logins still stand
      and the number of login events since the snapshot is a multiple of 2^32.
      Otherwise path, rings and HopID are all given back. */
  lemma CommitIsFresh(n: Node)
    requires NodeInv(n) && n.worker.Enabled?
    ensures var s := n.worker.snap; var r := Commit(n);
            && (r.conn.Connected? <==>
                  n.conn.Handshaking? && n.log.sent && n.log.received &&
                  (n.log.events - s.at) % GENERATIONS == 0)
            && (r.conn.Connected? && n.log.events - s.at < GENERATIONS ==>
                  n.log.events == s.at && r.hw.paths == {n.log.remoteHop} &&
                  r.hw.inHop == n.log.remoteHop)
            && (!r.conn.Connected? ==>
                  r.hw.paths == {} && r.hw.taken == r.hw.given && !r.hw.started)
  {
    var s := n.worker.snap;
    assert (n.log.events - s.at) % GENERATIONS == 0
      <==> n.log.events % GENERATIONS == s.at % GENERATIONS;
  }

  /** `n` after the peer's login `p` has been handled `k` times. */
  function Relogin(n: Node, p: Packet, k: nat): Node {
    if k == 0 then n else HandleLogin(Relogin(n, p, k - 1), p, true)
  }

  lemma NextGeneration(events: nat)
    ensures (events % GENERATIONS + 1) % GENERATIONS == (events + 1) % GENERATIONS
  {
  }

  lemma {:induction false} ReloginCounts(n: Node, p: Packet, k: nat)
    requires n.log.generation == n.log.events % GENERATIONS && Refusal(n, p).None?
    ensures var r := Relogin(n, p, k);
            && r == n.(log := r.log)
            && r.log.events == n.log.events + k && r.log.generation == r.log.events % GENERATIONS
            && r.log.sent == n.log.sent
            && (k > 0 ==> r.log.remoteHop == p.path && r.log.received)
  {
    if k > 0 {
      ReloginCounts(n, p, k - 1);
      NextGeneration(n.log.events + k - 1);
    }
  }

  lemma LapsToSame(events: nat)
    ensures (events + GENERATIONS) % GENERATIONS == events % GENERATIONS
  {
  }

  /** The 32-bit generation can be lapped: after 2^32 further logins that name
      another HopID, the connection still commits with the old one. */
  lemma GenerationLap(n: Node, p: Packet)
    requires NodeInv(n) && n.worker.Enabled? && StillCurrent(n, n.worker.snap)
    requires Refusal(n, p).None? && p.path != n.worker.snap.path
    ensures var lapped := Relogin(n, p, GENERATIONS);
            lapped.worker == n.worker && Commit(lapped).conn.Connected? &&
            lapped.log.remoteHop == p.path && Commit(lapped).hw.inHop != p.path
  {
    ReloginCounts(n, p, GENERATIONS);
    var lapped := Relogin(n, p, GENERATIONS);
    assert lapped.log.generation == n.log.generation by { LapsToSame(n.log.events); }
    assert StillCurrent(lapped, n.worker.snap);
  }

  /** Work that a packet handler schedules. */
  datatype Work = NoWork | ConnectWork | RestartWork

  const ENABLE_RETRIES := 5

  /** History of one node: HopIDs taken and given back, paths open, login events, resizes. */
  datatype Past = Past(taken: nat, given: nat, paths: set<int>, events: nat, resizes: nat)

  /** The fields of `struct odl_tb5_device` that the protocol reads and writes. */
  class Device {
    var conn: Conn
    var ring: nat
    var loginSent: bool
    var loginReceived: bool
    var connecting: bool
    var generation: nat
    var peerRing: nat
    var localHop: int
    var remoteHop: int
    var inHopValid: bool
    var inHop: int
    var started: bool
    var verifying: bool
    // The connect worker's locals `peer_path` and `login_generation`.
    var peerPath: int
    var snapGen: nat
    ghost var worker: Worker
    ghost var past: Past

    ghost function ViewLogins(): Logins
      reads this
    {
      Logins(loginSent, loginReceived, generation, peerRing, remoteHop, past.events)
    }

    ghost function ViewHardware(): Hardware
      reads this
    {
      Hardware(ring, localHop, inHopValid, inHop, started, past.taken, past.given, past.paths, past.resizes)
    }

    ghost function View(): Node
      reads this
    {
      Node(conn, connecting, verifying, worker, ViewLogins(), ViewHardware())
    }

    /** The worker's locals hold what its position says they hold. */
    ghost predicate Linked()
      reads this
    {
      HasSnap(worker) ==> peerPath == worker.snap.path && snapGen == worker.snap.gen
    }

    constructor (depth: nat, hop: int)
      requires LegalDepth(depth)
      ensures Linked() && View() == Fresh(depth, hop)
    {
      conn, ring, loginSent, loginReceived, connecting := Handshaking, depth, false, false, false;
      generation, peerRing, localHop, remoteHop := 0, 0, hop, 0;
      inHopValid, inHop, started, verifying := false, 0, false, false;
      peerPath, snapGen := 0, 0;
      worker, past := Idle, Past(0, 0, {}, 0, 0);
    }

    method CountEvent()
      modifies this`generation, this`past
      ensures ViewLogins() == Bump(old(ViewLogins())) && past == old(past).(events := past.events)
    {
      generation := (generation + 1) % GENERATIONS;
      past := past.(events := past.events + 1);
    }

    method RecordLogin(path: int)
      modifies this`generation, this`past, this`remoteHop, this`loginReceived
      ensures ViewLogins() == Bump(old(ViewLogins())).(remoteHop := path, received := true)
      ensures past == old(past).(events := past.events)
    {
      CountEvent();
      remoteHop := path;
      loginReceived := true;
    }

    /** The LOGIN case of `odl_tb5_proto_handle_packet`. */
    method OnLogin(p: Packet, responded: bool) returns (reply: Packet, work: Work)
      requires Linked() && (p.Login? || p.ShortLogin?)
      modifies this`peerRing, this`generation, this`past, this`remoteHop, this`loginReceived
      ensures Linked() && View() == HandleLogin(old(View()), p, responded)
      ensures reply == LoginReply(old(View()), p)
      ensures p.Login? && p.version == 3 && LegalDepth(p.depth) && conn != Error ==>
                reply == LoginRsp(Ok, localHop, ring) && peerRing == p.depth &&
                (responded ==> remoteHop == p.path && loginReceived && past.events == old(past.events) + 1)
      ensures work == if Refusal(old(View()), p).Some? || !responded then NoWork
                      else if old(conn) != Handshaking || old(connecting) then RestartWork
                      else if old(loginSent) then ConnectWork else NoWork
    {
      work := NoWork;
      if p.Login? && p.version != PROTOCOL_VER {
        return LoginRsp(ProtoMismatch, 0, 0), NoWork;
      }
      if p.ShortLogin? || !LegalDepth(p.depth) {
        return LoginRsp(BadRing, 0, 0), NoWork;
      }
      if conn == Error {
        return LoginRsp(RingUnavailable, 0, 0), NoWork;
      }
      peerRing := p.depth;
      reply := LoginRsp(Ok, localHop, ring);
      if !responded {
        return;
      }
      work := if conn != Handshaking || connecting then RestartWork
              else if loginSent then ConnectWork else NoWork;
      RecordLogin(p.path);
    }

    /** The LOGOUT case of `odl_tb5_proto_handle_packet`. */
    method OnLogout()
      requires Linked()
      modifies this`generation, this`past, this`loginSent, this`loginReceived
      ensures Linked() && View() == HandleLogout(old(View()))
    {
      loginReceived := false;
      loginSent := false;
      CountEvent();
    }

    /** The end of `odl_tb5_proto_send_login`, once a reply has arrived. */
    method OnLoginReply(p: Packet) returns (work: Work)
      requires Linked()
      modifies this`generation, this`past, this`remoteHop, this`peerRing, this`loginSent
      ensures Linked() && View() == FinishLogin(old(View()), p)
      ensures if p.LoginRsp? && p.status == Ok && LegalDepth(p.depth)
              then remoteHop == p.path && peerRing == p.depth && loginSent && past.events == old(past.events) + 1
              else View() == old(View())
      ensures work == ConnectWork <==> AcceptableReply(p) && loginReceived && conn == Handshaking
    {
      work := NoWork;
      if AcceptableReply(p) {
        CountEvent();
        remoteHop := p.path;
        peerRing := p.depth;
        loginSent := true;
        if loginReceived && conn == Handshaking {
          work := ConnectWork;
        }
      }
    }

    /** `odl_tb5_rings_resize`. */
    method ResizeRings(depth: nat, granted: bool, newHop: int) returns (ok: bool)
      modifies this`ring, this`localHop, this`past
      ensures (ViewHardware(), ok) == Resize(old(ViewHardware()), depth, granted, newHop)
      ensures old(started) || depth >= old(ring) ==>
                ok == !old(started) && ViewHardware() == old(ViewHardware())
      ensures !old(started) && depth < old(ring) ==>
                ok == granted && localHop == newHop && ring == AllocatedDepth(if granted then depth else old(ring))
      ensures past == old(past).(resizes := past.resizes)
    {
      if started {
        return false;
      }
      if depth >= ring {
        return true;
      }
      var old_ := ring;
      ring := AllocatedDepth(depth);
      localHop := newHop;
      if !granted {
        ring := AllocatedDepth(old_);
        return false;
      }
      past := past.(resizes := past.resizes + 1);
      ok := true;
    }

    /** The depth part of the first critical section: shrink to a smaller peer, or have a
        larger one shrink; either way log in again. */
    method SettleDepth(granted: bool, newHop: int) returns (ok: bool, retry: bool)
      modifies this`ring, this`localHop, this`past
      ensures past == old(past).(resizes := past.resizes)
      ensures retry <==> ok && LegalDepth(peerRing) && old(ring) != peerRing
      ensures if LegalDepth(peerRing) && peerRing < old(ring)
              then (ViewHardware(), ok) == Resize(old(ViewHardware()), peerRing, granted, newHop)
              else ok && ViewHardware() == old(ViewHardware())
    {
      ok, retry := true, false;
      if LegalDepth(peerRing) {
        var agreed := Min(ring, peerRing);
        retry := agreed < peerRing;
        if agreed < ring {
          ok := ResizeRings(agreed, granted, newHop);
          retry := ok;
        }
      }
    }

    method TakeSnapshot()
      modifies this`connecting, this`peerPath, this`snapGen, this`worker
      ensures Linked() && connecting && worker == Prepared(Snap(remoteHop, generation, past.events))
    {
      peerPath, snapGen := remoteHop, generation;
      connecting := true;
      worker := Prepared(Snap(remoteHop, generation, past.events));
    }

    /** The first critical section of `odl_tb5_complete_connection`. */
    method Negotiate(granted: bool, newHop: int)
      requires Linked() && worker == Idle
      modifies this`conn, this`connecting, this`ring, this`localHop, this`past, this`loginSent,
               this`peerPath, this`snapGen, this`worker
      ensures Linked() && View() == BeginConnect(old(View()), granted, newHop)
    {
      ghost var n := View();
      if conn != Handshaking || connecting || !loginSent || !loginReceived {
        return;
      }
      var ok, retry := SettleDepth(granted, newHop);
      if !ok {
        conn := Error;
        assert View() == n.(hw := ViewHardware(), conn := Error);
      } else if retry {
        loginSent := false;
        assert View() == n.(hw := ViewHardware(), log := n.log.(sent := false));
      } else {
        TakeSnapshot();
      }
    }

    method GiveUp()
      modifies this`started, this`past, this`inHopValid, this`worker
      ensures Linked() && View() == Abandon(old(View()), old(ViewHardware()))
    {
      started := false;
      past := past.(given := past.given + 1);
      inHopValid := false;
      worker := Failing;
    }

    /** Releasing a kept HopID, and its paths if the rings run. */
    method DropHeldHop()
      modifies this`past, this`inHopValid
      ensures ViewHardware() == DropOldHop(old(ViewHardware())) && past.events == old(past.events)
      ensures !inHopValid && past.taken == old(past.taken)
      ensures past.given == old(past.given) + if old(inHopValid) then 1 else 0
      ensures past.paths == old(past.paths) - if old(inHopValid && started) then {old(inHop)} else {}
    {
      if inHopValid {
        if started {
          past := past.(paths := past.paths - {inHop});
        }
        past := past.(given := past.given + 1);
        inHopValid := false;
      }
    }

    /** Releasing a kept HopID and allocating the peer's. */
    method TakeHop(ok: bool)
      requires Linked() && worker.Prepared?
      modifies this`past, this`inHop, this`inHopValid, this`worker
      ensures Linked() && View() == AcquireHop(old(View()), ok)
      ensures past.given == old(past.given) + if old(inHopValid) then 1 else 0
      ensures past.paths == old(past.paths) - if old(inHopValid && started) then {old(inHop)} else {}
      ensures inHopValid == ok && (ok ==> inHop == peerPath && past.taken == old(past.taken) + 1)
    {
      DropHeldHop();
      if !ok {
        worker := Failing;
        return;
      }
      past := past.(taken := past.taken + 1);
      inHop, inHopValid := peerPath, true;
      worker := HopHeld(worker.snap);
    }

    /** Starting the rings and priming RX. */
    method Prime(ok: bool)
      requires Linked() && worker.HopHeld?
      modifies this`started, this`past, this`inHopValid, this`worker
      ensures Linked() && View() == StartAndPrime(old(View()), ok)
    {
      if ok {
        started := true;
        worker := Primed(worker.snap);
      } else {
        GiveUp();
      }
    }

    /** The bounded retry of `tb_xdomain_enable_paths`; `answer(i)` is attempt i. */
    method OpenPaths(answer: nat -> bool) returns (ok: bool)
      requires Linked() && worker.Primed?
      modifies this`past, this`started, this`inHopValid, this`worker
      ensures ok <==> exists i: nat :: i < ENABLE_RETRIES && answer(i)
      ensures Linked() && View() == EnablePaths(old(View()), ok)
    {
      ok := false;
      var i := 0;
      while i < ENABLE_RETRIES && !ok
        invariant 0 <= i <= ENABLE_RETRIES
        invariant ok ==> i > 0 && answer(i - 1)
        invariant !ok ==> forall j: nat :: j < i ==> !answer(j)
        modifies {}
      {
        ok := answer(i);
        i := i + 1;
      }
      if ok {
        past := past.(paths := past.paths + {peerPath});
        worker := Enabled(worker.snap);
      } else {
        GiveUp();
      }
    }

    /** The last critical section of `odl_tb5_complete_connection`. */
    method CommitConnection() returns (connected: bool)
      requires Linked() && worker.Enabled?
      modifies this`conn, this`connecting, this`verifying, this`past, this`started, this`inHopValid, this`worker
      ensures Linked() && View() == Commit(old(View()))
      ensures connected <==> StillCurrent(old(View()), old(worker).snap)
    {
      connected := !(conn != Handshaking || !connecting || !loginSent || !loginReceived ||
                     generation != snapGen);
      if connected {
        connecting := false;
        conn := Connected;
        verifying := true;
        worker := Idle;
      } else {
        past := past.(paths := past.paths - {peerPath});
        GiveUp();
      }
    }

    /** `odl_tb5_restart_work_fn` up to its critical section. */
    method StopForRestart()
      requires Linked() && worker == Idle
      modifies this`verifying, this`worker, this`past, this`started, this`inHopValid
      ensures Linked() && View() == Teardown(old(View()))
    {
      verifying := false;
      worker := Restarting;
      if !started {
        return;
      }
      var held := inHopValid;
      if held {
        past := past.(paths := past.paths - {inHop});
      }
      started := false;
      if held {
        past := past.(given := past.given + 1);
        inHopValid := false;
      }
    }

    /** A failed attempt: both logins start over. */
    method RecoverAttempt()
      requires worker == Failing
      modifies this`connecting, this`loginSent, this`loginReceived, this`worker
      ensures Linked() && View() == Recover(old(View()))
    {
      connecting := false;
      loginSent := false;
      loginReceived := false;
      worker := Idle;
    }

    /** The critical section of `odl_tb5_restart_work_fn`. */
    method ResetHandshake()
      requires worker == Restarting
      modifies this`conn, this`loginSent, this`peerRing, this`connecting, this`worker
      ensures Linked() && View() == Reset(old(View()))
    {
      conn := Handshaking;
      loginSent := false;
      peerRing := 0;
      connecting := false;
      worker := Idle;
    }
  }
}
