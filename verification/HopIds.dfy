/** The HopIDs two nodes tell each other: where a recorded or opened HopID comes from,
    told by the packets delivered and not by the nodes' fields. */
module HopIds {
  import opened Base
  import opened RingDepth
  import opened Handshake
  import opened Negotiation

  function Inbox(s: Pair, atA: bool): set<Packet> {
    if atA then s.toA else s.toB
  }

  /** The event `ev` as seen by one node: `None` if it is the other's, or cannot happen. */
  function Here(s: Pair, ev: Event, atA: bool): Option<NodeEvent> {
    if ev.Happens? && ev.atA == atA && Deliverable(Inbox(s, atA), ev.what) then Some(ev.what) else None
  }

  /** A login that a node takes: well formed, of this version and a legal depth, not in
      ERROR, and answered. */
  predicate TakesLogin(n: Node, e: NodeEvent) {
    e.GotLogin? && e.responded && e.p.Login? && e.p.version == 3 && LegalDepth(e.p.depth) && n.conn != Error
  }

  /** A reply that a node takes. */
  predicate TakesReply(e: NodeEvent) {
    e.GotReply? && e.p.LoginRsp? && e.p.status == Ok && LegalDepth(e.p.depth)
  }

  predicate Takes(n: Node, e: NodeEvent) {
    TakesLogin(n, e) || TakesReply(e)
  }

  /** The HopID on record changes only to the one named by the login or reply just taken. */
  lemma RecordsWhatItTakes(n: Node, e: NodeEvent)
    ensures NodeStep(n, e).log.remoteHop == if Takes(n, e) then e.p.path else n.log.remoteHop
    ensures NodeStep(n, e).log.events == n.log.events + if Takes(n, e) || e.GotLogout? then 1 else 0
  {
  }

  /** The depth on record is that of the last login or reply taken, or of a login that could
      not be answered; a restart forgets it. */
  lemma RecordsDepths(n: Node, e: NodeEvent)
    ensures NodeStep(n, e).log.peerRing ==
            if Takes(n, e) || (e.GotLogin? && TakesLogin(n, e.(responded := true))) then e.p.depth
            else if e.RestartReset? && n.worker.Restarting? then 0
            else n.log.peerRing
  {
  }

  lemma StepAt(s: Pair, ev: Event, atA: bool)
    ensures NodeAt(Step(s, ev), atA) ==
            match Here(s, ev, atA) case None => NodeAt(s, atA) case Some(e) => NodeStep(NodeAt(s, atA), e)
  {
  }

  // ---- What a node has on record ----

  /** The HopID in the last login or reply that a node took. */
  function LastTold(s0: Pair, evs: seq<Event>, atA: bool): int {
    if evs == [] then NodeAt(s0, atA).log.remoteHop
    else
      var before := evs[..|evs| - 1];
      var s := Run(s0, before);
      match Here(s, evs[|evs| - 1], atA)
      case Some(e) => if Takes(NodeAt(s, atA), e) then e.p.path else LastTold(s0, before, atA)
      case None => LastTold(s0, before, atA)
  }

  lemma {:induction false} RecordIsLastTold(s0: Pair, evs: seq<Event>, atA: bool)
    ensures NodeAt(Run(s0, evs), atA).log.remoteHop == LastTold(s0, evs, atA)
  {
    if evs != [] {
      var s, ev := Run(s0, evs[..|evs| - 1]), evs[|evs| - 1];
      RecordIsLastTold(s0, evs[..|evs| - 1], atA);
      StepAt(s, ev, atA);
      match Here(s, ev, atA)
      case Some(e) => RecordsWhatItTakes(NodeAt(s, atA), e);
      case None =>
    }
  }

  /** How many logins, replies and logouts a node has taken. */
  function CountTaken(s0: Pair, evs: seq<Event>, atA: bool): nat {
    if evs == [] then 0
    else
      var s, here := Run(s0, evs[..|evs| - 1]), Here(Run(s0, evs[..|evs| - 1]), evs[|evs| - 1], atA);
      CountTaken(s0, evs[..|evs| - 1], atA) +
      if here.Some? && (Takes(NodeAt(s, atA), here.value) || here.value.GotLogout?) then 1 else 0
  }

  lemma {:induction false} EventsAreCounted(s0: Pair, evs: seq<Event>, atA: bool)
    ensures NodeAt(Run(s0, evs), atA).log.events == NodeAt(s0, atA).log.events + CountTaken(s0, evs, atA)
  {
    if evs != [] {
      var s, ev := Run(s0, evs[..|evs| - 1]), evs[|evs| - 1];
      EventsAreCounted(s0, evs[..|evs| - 1], atA);
      StepAt(s, ev, atA);
      match Here(s, ev, atA)
      case Some(e) => RecordsWhatItTakes(NodeAt(s, atA), e);
      case None =>
    }
  }

  /** The 32-bit generation counts, modulo 2^32, every login, reply and logout taken. */
  lemma GenerationCounts(a: nat, b: nat, hopA: int, hopB: int, evs: seq<Event>, atA: bool)
    requires LegalDepth(a) && LegalDepth(b)
    ensures var s0 := Start(a, b, hopA, hopB);
            NodeAt(Run(s0, evs), atA).log.generation == CountTaken(s0, evs, atA) % 0x1_0000_0000
  {
    EventsAreCounted(Start(a, b, hopA, hopB), evs, atA);
    RunKeepsPairInv(a, b, hopA, hopB, evs);
  }

  /** A login has been taken since the last logout or failed attempt. */
  predicate LoginStands(s0: Pair, evs: seq<Event>, atA: bool) {
    if evs == [] then NodeAt(s0, atA).log.received
    else
      var before := evs[..|evs| - 1];
      var n, here := NodeAt(Run(s0, before), atA), Here(Run(s0, before), evs[|evs| - 1], atA);
      if here.Some? && TakesLogin(n, here.value) then true
      else if here.Some? && (here.value.GotLogout? || (here.value.ConnectRecover? && n.worker.Failing?)) then false
      else LoginStands(s0, before, atA)
  }

  /** What undoes this node's own login: a logout, a failed attempt, a restart, and a depth
      settled with the peer, which calls for a new one. */
  predicate UndoesReply(n: Node, e: NodeEvent) {
    || e.GotLogout? || (e.ConnectRecover? && n.worker.Failing?) || (e.RestartReset? && n.worker.Restarting?)
    || (e.ConnectBegin? && n.worker.Idle? && SettlesDepth(n) && (n.log.peerRing > n.hw.ring || e.granted))
  }

  /** A reply has been taken and nothing has undone it. */
  predicate ReplyStands(s0: Pair, evs: seq<Event>, atA: bool) {
    if evs == [] then NodeAt(s0, atA).log.sent
    else
      var before := evs[..|evs| - 1];
      var n, here := NodeAt(Run(s0, before), atA), Here(Run(s0, before), evs[|evs| - 1], atA);
      if here.Some? && TakesReply(here.value) then true
      else if here.Some? && UndoesReply(n, here.value) then false
      else ReplyStands(s0, before, atA)
  }

  lemma StandingSteps(n: Node, e: NodeEvent)
    requires NodeInv(n)
    ensures NodeStep(n, e).log.received ==
            if TakesLogin(n, e) then true
            else if e.GotLogout? || (e.ConnectRecover? && n.worker.Failing?) then false
            else n.log.received
    ensures NodeStep(n, e).log.sent ==
            if TakesReply(e) then true else if UndoesReply(n, e) then false else n.log.sent
  {
    if e.ConnectBegin? && MayConnect(n) {
      MinLegal(n.hw.ring, n.log.peerRing);
    }
  }

  /** The two login flags, told by the events: the peer's login stands exactly if one was
      taken and nothing has undone it, and ours exactly if a reply was. */
  lemma {:induction false} FlagsAreStanding(a: nat, b: nat, hopA: int, hopB: int, evs: seq<Event>, atA: bool)
    requires LegalDepth(a) && LegalDepth(b)
    ensures var s0 := Start(a, b, hopA, hopB); var log := NodeAt(Run(s0, evs), atA).log;
            (log.received <==> LoginStands(s0, evs, atA)) && (log.sent <==> ReplyStands(s0, evs, atA))
  {
    if evs != [] {
      var s, ev := Run(Start(a, b, hopA, hopB), evs[..|evs| - 1]), evs[|evs| - 1];
      FlagsAreStanding(a, b, hopA, hopB, evs[..|evs| - 1], atA);
      RunKeepsPairInv(a, b, hopA, hopB, evs[..|evs| - 1]);
      StepAt(s, ev, atA);
      match Here(s, ev, atA)
      case Some(e) => StandingSteps(NodeAt(s, atA), e);
      case None =>
    }
  }

  // ---- Where HopIDs come from ----

  /** A packet that offers its sender's HopID. */
  predicate Offer(p: Packet) {
    p.Login? || (p.LoginRsp? && p.status == Ok)
  }

  /** The HopIDs offered to the owner of an inbox. */
  function Offered(inbox: set<Packet>): set<int> {
    set p | p in inbox && Offer(p) :: p.path
  }

  /** Every HopID that a node has had for sending. */
  function HopsOf(s0: Pair, evs: seq<Event>, atA: bool): set<int> {
    (if evs == [] then {} else HopsOf(s0, evs[..|evs| - 1], atA)) + {NodeAt(Run(s0, evs), atA).hw.localHop}
  }

  predicate RecordOffered(l: Logins, offered: set<int>) {
    l.sent || l.received ==> l.remoteHop in offered
  }

  predicate SnapOffered(w: Worker, offered: set<int>) {
    HasSnap(w) ==> w.snap.path in offered
  }

  predicate HopsOffered(h: Hardware, offered: set<int>) {
    (h.inHopValid ==> h.inHop in offered) && h.paths <= offered
  }

  /** What a node has on record, in hand or open was offered to it. */
  predicate UsesOffers(n: Node, offered: set<int>) {
    RecordOffered(n.log, offered) && SnapOffered(n.worker, offered) && HopsOffered(n.hw, offered)
  }

  lemma RecordUsesOffers(n: Node, e: NodeEvent, offered: set<int>)
    requires RecordOffered(n.log, offered) && (Takes(n, e) ==> e.p.path in offered)
    ensures RecordOffered(NodeStep(n, e).log, offered)
  {
  }

  lemma SnapUsesOffers(n: Node, e: NodeEvent, offered: set<int>)
    requires RecordOffered(n.log, offered) && SnapOffered(n.worker, offered)
    ensures SnapOffered(NodeStep(n, e).worker, offered)
  {
  }

  lemma HardwareUsesOffers(n: Node, e: NodeEvent, offered: set<int>)
    requires SnapOffered(n.worker, offered) && HopsOffered(n.hw, offered)
    ensures HopsOffered(NodeStep(n, e).hw, offered)
  {
  }

  lemma NodeUsesOffers(n: Node, e: NodeEvent, offered: set<int>)
    requires UsesOffers(n, offered) && (Takes(n, e) ==> e.p.path in offered)
    ensures UsesOffers(NodeStep(n, e), offered)
  {
    RecordUsesOffers(n, e, offered);
    SnapUsesOffers(n, e, offered);
    HardwareUsesOffers(n, e, offered);
  }

  lemma TakenWasOffered(s: Pair, atA: bool, e: NodeEvent)
    requires Deliverable(Inbox(s, atA), e) && Takes(NodeAt(s, atA), e)
    ensures e.p.path in Offered(Inbox(s, atA))
  {
    assert e.p in Inbox(s, atA) && Offer(e.p);
  }

  /** Inboxes only grow, and by offers of the sender's HopID of the moment. */
  lemma OffersStep(s: Pair, ev: Event, atA: bool)
    ensures Inbox(s, atA) <= Inbox(Step(s, ev), atA)
    ensures Offered(Inbox(Step(s, ev), atA)) <= Offered(Inbox(s, atA)) + {NodeAt(s, !atA).hw.localHop}
  {
    forall p | p in Inbox(Step(s, ev), atA) && p !in Inbox(s, atA) && Offer(p)
      ensures p.path == NodeAt(s, !atA).hw.localHop
    {
      if ev.SendLogin? {
        assert p == BuildLogin(NodeAt(s, !atA));
      } else {
        assert p in Emitted(NodeAt(s, !atA), ev.what);
      }
    }
  }

  lemma SideUsesOffers(s: Pair, ev: Event, atA: bool)
    requires UsesOffers(NodeAt(s, atA), Offered(Inbox(s, atA)))
    ensures UsesOffers(NodeAt(Step(s, ev), atA), Offered(Inbox(Step(s, ev), atA)))
  {
    var n, offered := NodeAt(s, atA), Offered(Inbox(s, atA));
    StepAt(s, ev, atA);
    OffersStep(s, ev, atA);
    assert offered <= Offered(Inbox(Step(s, ev), atA));
    match Here(s, ev, atA)
    case Some(e) =>
      if Takes(n, e) {
        TakenWasOffered(s, atA, e);
      }
      NodeUsesOffers(n, e, offered);
    case None =>
  }

  /** In every run, each login and each accepting reply in flight names a HopID its sender
      has had for sending; and whatever a node has on record, in hand or open for receiving from
      its peer is a HopID that the peer offered it. */
  lemma {:induction false} HopsAreOffered(a: nat, b: nat, hopA: int, hopB: int, evs: seq<Event>, atA: bool)
    ensures var s0 := Start(a, b, hopA, hopB);
            var s := Run(s0, evs);
            && UsesOffers(NodeAt(s, atA), Offered(Inbox(s, atA)))
            && Offered(Inbox(s, atA)) <= HopsOf(s0, evs, !atA)
  {
    var s0 := Start(a, b, hopA, hopB);
    if evs != [] {
      var s, ev := Run(s0, evs[..|evs| - 1]), evs[|evs| - 1];
      HopsAreOffered(a, b, hopA, hopB, evs[..|evs| - 1], atA);
      SideUsesOffers(s, ev, atA);
      OffersStep(s, ev, atA);
      assert NodeAt(s, !atA).hw.localHop in HopsOf(s0, evs[..|evs| - 1], !atA);
    }
  }

  lemma ToldWasOffered(a: nat, b: nat, hopA: int, hopB: int, evs: seq<Event>, atA: bool)
    requires NodeAt(Run(Start(a, b, hopA, hopB), evs), atA).log.sent
    ensures var s0 := Start(a, b, hopA, hopB);
            var told := LastTold(s0, evs, atA);
            told in Offered(Inbox(Run(s0, evs), atA)) && told in HopsOf(s0, evs, !atA)
  {
    RecordIsLastTold(Start(a, b, hopA, hopB), evs, atA);
    HopsAreOffered(a, b, hopA, hopB, evs, atA);
  }

  /** Fresh commit, at either node of every run: a commit that succeeds within 2^32 login
      events of its snapshot follows a login and a reply that both still stand, and leaves
      open exactly the HopID in the last login or reply taken, which the peer offered and
      has had for sending. A commit that fails leaves nothing open. */
  lemma CommitsAreFresh(a: nat, b: nat, hopA: int, hopB: int, evs: seq<Event>, atA: bool)
    requires LegalDepth(a) && LegalDepth(b)
    requires NodeAt(Run(Start(a, b, hopA, hopB), evs), atA).worker.Enabled?
    ensures var s0 := Start(a, b, hopA, hopB);
            var s := Run(s0, evs);
            var n, r := NodeAt(s, atA), NodeAt(Step(s, Happens(atA, ConnectCommit)), atA);
            var since, told := n.log.events - n.worker.snap.at, LastTold(s0, evs, atA);
            && (r.conn.Connected? ==> LoginStands(s0, evs, atA) && ReplyStands(s0, evs, atA))
            && (r.conn.Connected? && since < GENERATIONS ==>
                  && since == 0 && r.hw.paths == {told}
                  && told in Offered(Inbox(s, atA)) && told in HopsOf(s0, evs, !atA))
            && (0 < since < GENERATIONS ==> !r.conn.Connected?)
            && (!r.conn.Connected? ==> r.hw.paths == {} && r.hw.taken == r.hw.given && !r.hw.started)
  {
    var s0 := Start(a, b, hopA, hopB);
    var n := NodeAt(Run(s0, evs), atA);
    RunKeepsPairInv(a, b, hopA, hopB, evs);
    CommitIsFresh(n);
    StepAt(Run(s0, evs), Happens(atA, ConnectCommit), atA);
    RecordIsLastTold(s0, evs, atA);
    FlagsAreStanding(a, b, hopA, hopB, evs, atA);
    if n.log.sent {
      ToldWasOffered(a, b, hopA, hopB, evs, atA);
    }
  }
}
