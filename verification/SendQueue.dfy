/** The send side of a queue pair: posters, an inline bypass, and a worker that
    retries the request at the head of a ring. */
module SendQueue {
  import opened Base
  import opened Circular
  import opened CompletionQueue

  const INLINE_MAX := 4096

  /** A work request naming caller memory, which may change after posting. */
  datatype Wr = Wr(id: nat, numSge: nat, buf: nat, len: nat, dmabuf: bool)

  type Memory = map<nat, seq<Byte>>

  function Load(mem: Memory, wr: Wr): seq<Byte> {
    if wr.buf in mem then mem[wr.buf][..Min(wr.len, |mem[wr.buf]|)] else []
  }

  /** Provider settings: `direct` skips the private copy, `inline` allows the bypass. */
  datatype Config = Config(direct: bool, inline: bool)

  // ---- The ring ----

  /** A ring slot. Its bounce storage stays with it when the slot is reused. */
  datatype Slot = Slot(wr: Wr, bounced: bool, bounce: seq<Byte>)

  /** The slot as the poster leaves it: a private copy unless the memory is a dmabuf,
      the request is empty, or direct sending is on. */
  function Filled(old_: Slot, wr: Wr, mem: Memory, direct: bool): Slot {
    if wr.numSge > 0 && !wr.dmabuf && wr.len > 0 && !direct
    then Slot(wr, true, Load(mem, wr))
    else Slot(wr, false, old_.bounce)
  }

  function Push(r: Ring<Slot>, wr: Wr, mem: Memory, direct: bool): Ring<Slot>
    requires RingOk(r) && r.count < |r.slots|
  {
    Put(r, Filled(r.slots[r.tail], wr, mem, direct))
  }

  // ---- Posters and worker ----

  datatype SendResult = Sent | Again | Error

  /** The worker between two of its critical sections. */
  datatype Worker =
    | Idle
    | Trying(slot: nat, wr: Wr)
    | Tried(wr: Wr, ok: bool)
    | Retired(wr: Wr, ok: bool)

  /** A posted request with the caller's bytes at post time. */
  datatype Posted = Posted(wr: Wr, bytes: seq<Byte>)

  datatype Finished = Finished(wr: Wr, ok: bool)

  /** A message handed to the stream; dmabuf contents are not host bytes. */
  datatype OnWire = OnWire(id: nat, bytes: Option<seq<Byte>>)

  /** The queue pair's send side, with history: requests accepted in order, finished in
      order, messages handed over, completions published. `owed` holds completions of
      inline sends whose posters have not published them yet. */
  datatype Qp = Qp(
    ring: Ring<Slot>,
    inflight: bool,
    worker: Worker,
    mem: Memory,
    accepted: seq<Posted>,
    finished: seq<Finished>,
    wire: seq<OnWire>,
    owed: seq<Wc>,
    published: seq<Wc>)

  datatype Event =
    | CallerWrites(buf: nat, bytes: seq<Byte>)
    | PostSend(wrs: seq<Wr>, inlineResult: SendResult, copies: nat)
    | PublishInline(i: nat)
    | WorkerPeeks
    | WorkerSends(result: SendResult)
    | WorkerRetires
    | WorkerPublishes

  predicate TakesInline(c: Config, q: Qp, wrs: seq<Wr>) {
    c.inline && |wrs| == 1 && wrs[0].numSge == 1 && q.ring.count == 0 && !q.inflight &&
    wrs[0].len <= INLINE_MAX && !wrs[0].dmabuf
  }

  function Inlined(q: Qp, wr: Wr): Qp {
    q.(accepted := q.accepted + [Posted(wr, Load(q.mem, wr))],
       finished := q.finished + [Finished(wr, true)],
       wire := q.wire + [OnWire(wr.id, Some(Load(q.mem, wr)))],
       owed := q.owed + [Wc(wr.id, true, false, wr.len, 0)])
  }

  /** Queue the requests in turn until the ring is full or, after `copies` of them, no
      memory can be had for the private copy. */
  function Queued(c: Config, q: Qp, wrs: seq<Wr>, copies: nat): Qp
    requires RingOk(q.ring)
    decreases |wrs|
  {
    if wrs == [] || copies == 0 || q.ring.count == |q.ring.slots| then q
    else
      PutAppends(q.ring, Filled(q.ring.slots[q.ring.tail], wrs[0], q.mem, c.direct));
      Queued(c, q.(ring := Push(q.ring, wrs[0], q.mem, c.direct),
                   accepted := q.accepted + [Posted(wrs[0], Load(q.mem, wrs[0]))]),
             wrs[1..], copies - 1)
  }

  /** The bytes the worker hands over: the slot's private copy, or caller memory now. */
  function Handed(q: Qp, slot: nat, wr: Wr): OnWire
    requires slot < |q.ring.slots|
  {
    OnWire(wr.id, if wr.dmabuf then None
                  else if q.ring.slots[slot].bounced then Some(q.ring.slots[slot].bounce)
                  else Some(Load(q.mem, wr)))
  }

  function Post(c: Config, q: Qp, wrs: seq<Wr>, result: SendResult, copies: nat): Qp
    requires RingOk(q.ring)
  {
    if TakesInline(c, q, wrs) && result.Sent? then Inlined(q, wrs[0]) else Queued(c, q, wrs, copies)
  }

  function PublishOwed(q: Qp, i: nat): Qp {
    if i >= |q.owed| then q
    else q.(owed := q.owed[..i] + q.owed[i + 1..], published := q.published + [q.owed[i]])
  }

  function Peek(q: Qp): Qp
    requires RingOk(q.ring)
  {
    if !q.worker.Idle? || q.ring.count == 0 then q
    else q.(inflight := true, worker := Trying(q.ring.head, q.ring.slots[q.ring.head].wr))
  }

  function Attempt(q: Qp, result: SendResult): Qp {
    if !q.worker.Trying? || q.worker.slot >= |q.ring.slots| then q
    else
      var wr := q.worker.wr;
      if wr.numSge == 0 then q.(worker := Tried(wr, true))
      else if result.Again? then q.(inflight := false, worker := Idle)
      else if result.Error? then q.(worker := Tried(wr, false))
      else q.(worker := Tried(wr, true), wire := q.wire + [Handed(q, q.worker.slot, wr)])
  }

  function Retire(q: Qp): Qp
    requires RingOk(q.ring)
  {
    if !q.worker.Tried? || q.ring.count == 0 then q
    else
      var f := Finished(q.worker.wr, q.worker.ok);
      q.(ring := Pop(q.ring), inflight := false, worker := Retired(f.wr, f.ok),
         finished := q.finished + [f])
  }

  function PublishHeld(q: Qp): Qp {
    if !q.worker.Retired? then q
    else
      var wr, ok := q.worker.wr, q.worker.ok;
      q.(worker := Idle,
         published := q.published + [Wc(wr.id, ok, false, if ok && wr.numSge > 0 then wr.len else 0, 0)])
  }

  function Step(c: Config, q: Qp, e: Event): Qp
    requires RingOk(q.ring)
  {
    match e
    case CallerWrites(buf, bytes) => q.(mem := q.mem[buf := bytes])
    case PostSend(wrs, result, copies) => Post(c, q, wrs, result, copies)
    case PublishInline(i) => PublishOwed(q, i)
    case WorkerPeeks => Peek(q)
    case WorkerSends(result) => Attempt(q, result)
    case WorkerRetires => Retire(q)
    case WorkerPublishes => PublishHeld(q)
  }

  function Start(depth: nat, mem: Memory): Qp
    requires depth > 0
  {
    Qp(Ring(seq(depth, i => Slot(Wr(0, 0, 0, 0, false), false, [])), 0, 0, 0),
       false, Idle, mem, [], [], [], [], [])
  }

  // ---- Order ----

  function PostedWrs(ps: seq<Posted>): seq<Wr> {
    seq(|ps|, i requires 0 <= i < |ps| => ps[i].wr)
  }

  function FinishedWrs(fs: seq<Finished>): seq<Wr> {
    seq(|fs|, i requires 0 <= i < |fs| => fs[i].wr)
  }

  function SlotWrs(ss: seq<Slot>): seq<Wr> {
    seq(|ss|, i requires 0 <= i < |ss| => ss[i].wr)
  }

  /** Finished requests followed by queued ones are the accepted ones, in order. */
  predicate InOrder(q: Qp) {
    RingOk(q.ring) && FinishedWrs(q.finished) + SlotWrs(Queue(q.ring)) == PostedWrs(q.accepted)
  }

  /** The worker holds the head of the ring, and the inline path is barred exactly meanwhile. */
  predicate WorkerOk(q: Qp) {
    && RingOk(q.ring) && (q.inflight <==> q.worker.Trying? || q.worker.Tried?)
    && (q.inflight ==> q.ring.count > 0 && q.worker.wr == q.ring.slots[q.ring.head].wr)
    && (q.worker.Trying? ==> q.worker.slot == q.ring.head)
  }

  predicate Core(q: Qp) {
    InOrder(q) && WorkerOk(q)
  }

  lemma PushKeepsCore(c: Config, q: Qp, wr: Wr)
    requires Core(q) && q.ring.count < |q.ring.slots|
    ensures Core(q.(ring := Push(q.ring, wr, q.mem, c.direct),
                    accepted := q.accepted + [Posted(wr, Load(q.mem, wr))]))
  {
    PutAppends(q.ring, Filled(q.ring.slots[q.ring.tail], wr, q.mem, c.direct));
    var s := Filled(q.ring.slots[q.ring.tail], wr, q.mem, c.direct);
    assert SlotWrs(Queue(q.ring) + [s]) == SlotWrs(Queue(q.ring)) + [wr];
    assert PostedWrs(q.accepted + [Posted(wr, Load(q.mem, wr))]) == PostedWrs(q.accepted) + [wr];
  }

  lemma {:induction false} QueuedKeepsCore(c: Config, q: Qp, wrs: seq<Wr>, copies: nat)
    requires Core(q)
    ensures Core(Queued(c, q, wrs, copies))
    decreases |wrs|
  {
    if wrs != [] && copies > 0 && q.ring.count < |q.ring.slots| {
      PushKeepsCore(c, q, wrs[0]);
      QueuedKeepsCore(c, q.(ring := Push(q.ring, wrs[0], q.mem, c.direct),
                            accepted := q.accepted + [Posted(wrs[0], Load(q.mem, wrs[0]))]),
                      wrs[1..], copies - 1);
    }
  }

  lemma InlineKeepsCore(c: Config, q: Qp, wrs: seq<Wr>)
    requires Core(q) && TakesInline(c, q, wrs)
    ensures Core(Inlined(q, wrs[0])) && !q.worker.Trying? && !q.worker.Tried?
  {
    var q' := Inlined(q, wrs[0]);
    assert PostedWrs(q'.accepted) == PostedWrs(q.accepted) + [wrs[0]];
    assert FinishedWrs(q'.finished) == FinishedWrs(q.finished) + [wrs[0]];
    assert SlotWrs(Queue(q.ring)) == [];
  }

  lemma RetireKeepsCore(q: Qp)
    requires Core(q)
    ensures Core(Retire(q))
  {
    if q.worker.Tried? {
      PopDropsFirst(q.ring);
      var q' := Retire(q);
      var ss := Queue(q.ring);
      assert SlotWrs(ss) == [ss[0].wr] + SlotWrs(ss[1..]);
      assert FinishedWrs(q'.finished) == FinishedWrs(q.finished) + [q.worker.wr];
    }
  }

  lemma StepKeepsCore(c: Config, q: Qp, e: Event)
    requires Core(q)
    ensures Core(Step(c, q, e))
  {
    match e
    case PostSend(wrs, result, copies) =>
      if TakesInline(c, q, wrs) && result.Sent? {
        InlineKeepsCore(c, q, wrs);
      } else {
        QueuedKeepsCore(c, q, wrs, copies);
      }
    case WorkerRetires => RetireKeepsCore(q);
    case _ =>
  }

  lemma {:induction false} QueuedKeepsRing(c: Config, q: Qp, wrs: seq<Wr>, copies: nat)
    requires RingOk(q.ring)
    ensures RingOk(Queued(c, q, wrs, copies).ring)
    decreases |wrs|
  {
    if wrs != [] && copies > 0 && q.ring.count < |q.ring.slots| {
      PutAppends(q.ring, Filled(q.ring.slots[q.ring.tail], wrs[0], q.mem, c.direct));
      QueuedKeepsRing(c, q.(ring := Push(q.ring, wrs[0], q.mem, c.direct),
                            accepted := q.accepted + [Posted(wrs[0], Load(q.mem, wrs[0]))]),
                      wrs[1..], copies - 1);
    }
  }

  lemma StepKeepsRing(c: Config, q: Qp, e: Event)
    requires RingOk(q.ring)
    ensures RingOk(Step(c, q, e).ring)
  {
    if e.PostSend? {
      QueuedKeepsRing(c, q, e.wrs, e.copies);
    } else if q.ring.count > 0 {
      PopDropsFirst(q.ring);
    }
  }

  function Run(c: Config, depth: nat, mem: Memory, evs: seq<Event>): (q: Qp)
    requires depth > 0
    ensures RingOk(q.ring)
  {
    if evs == [] then Start(depth, mem)
    else
      var q := Run(c, depth, mem, evs[..|evs| - 1]);
      StepKeepsRing(c, q, evs[|evs| - 1]);
      Step(c, q, evs[|evs| - 1])
  }

  lemma {:induction false} RunKeepsCore(c: Config, depth: nat, mem: Memory, evs: seq<Event>)
    requires depth > 0
    ensures Core(Run(c, depth, mem, evs))
  {
    if evs != [] {
      RunKeepsCore(c, depth, mem, evs[..|evs| - 1]);
      StepKeepsCore(c, Run(c, depth, mem, evs[..|evs| - 1]), evs[|evs| - 1]);
    }
  }

  // ---- What the callers asked for ----

  lemma {:induction false} QueuedLeaves(c: Config, q: Qp, wrs: seq<Wr>, copies: nat)
    requires RingOk(q.ring)
    ensures var q' := Queued(c, q, wrs, copies);
            q'.finished == q.finished && q'.published == q.published && q'.owed == q.owed &&
            q'.worker == q.worker && q'.mem == q.mem
    decreases |wrs|
  {
    if wrs != [] && copies > 0 && q.ring.count < |q.ring.slots| {
      PutAppends(q.ring, Filled(q.ring.slots[q.ring.tail], wrs[0], q.mem, c.direct));
      QueuedLeaves(c, q.(ring := Push(q.ring, wrs[0], q.mem, c.direct),
                         accepted := q.accepted + [Posted(wrs[0], Load(q.mem, wrs[0]))]),
                   wrs[1..], copies - 1);
    }
  }

  /** The callers' memory after a run. */
  function MemoryAt(mem: Memory, evs: seq<Event>): Memory {
    if evs == [] then mem
    else
      var before, e := MemoryAt(mem, evs[..|evs| - 1]), evs[|evs| - 1];
      if e.CallerWrites? then before[e.buf := e.bytes] else before
  }

  lemma {:induction false} MemoryIsWritten(c: Config, depth: nat, mem: Memory, evs: seq<Event>)
    requires depth > 0
    ensures Run(c, depth, mem, evs).mem == MemoryAt(mem, evs)
  {
    if evs != [] {
      var q, e := Run(c, depth, mem, evs[..|evs| - 1]), evs[|evs| - 1];
      MemoryIsWritten(c, depth, mem, evs[..|evs| - 1]);
      if e.PostSend? {
        QueuedLeaves(c, q, e.wrs, e.copies);
      }
    }
  }

  /** `bytes` are the whole of what `wr` names in `mem`, if it is all there. */
  predicate ReadsFrom(bytes: seq<Byte>, wr: Wr, mem: Memory) {
    wr.buf in mem && wr.len <= |mem[wr.buf]| ==>
      |bytes| == wr.len && forall k :: 0 <= k < wr.len ==> bytes[k] == mem[wr.buf][k]
  }

  lemma LoadReads(mem: Memory, wr: Wr)
    ensures ReadsFrom(Load(mem, wr), wr, mem)
  {
  }

  /** How many requests of a list are accepted. */
  function Took(c: Config, q: Qp, wrs: seq<Wr>, result: SendResult, copies: nat): (n: nat)
    requires RingOk(q.ring)
    ensures n <= |wrs|
  {
    if TakesInline(c, q, wrs) && result.Sent? then 1
    else Min(|wrs|, Min(copies, |q.ring.slots| - q.ring.count))
  }

  /** Accepted requests are the given ones, in order, with the bytes their memory holds. */
  predicate AsGiven(ps: seq<Posted>, wrs: seq<Wr>, mem: Memory) {
    |ps| <= |wrs| && forall i :: 0 <= i < |ps| ==> ps[i].wr == wrs[i] && ReadsFrom(ps[i].bytes, wrs[i], mem)
  }

  function Firsts(wrs: seq<Wr>, mem: Memory, n: nat): seq<Posted>
    requires n <= |wrs|
  {
    seq(n, i requires 0 <= i < n => Posted(wrs[i], Load(mem, wrs[i])))
  }

  lemma FirstsAreGiven(wrs: seq<Wr>, mem: Memory, n: nat)
    requires n <= |wrs|
    ensures AsGiven(Firsts(wrs, mem, n), wrs, mem)
  {
    forall i | 0 <= i < n
      ensures ReadsFrom(Firsts(wrs, mem, n)[i].bytes, wrs[i], mem)
    {
      LoadReads(mem, wrs[i]);
    }
  }

  lemma FirstAndRest(wrs: seq<Wr>, mem: Memory, n: nat, before: seq<Posted>)
    requires 0 < n <= |wrs|
    ensures before + [Posted(wrs[0], Load(mem, wrs[0]))] + Firsts(wrs[1..], mem, n - 1) ==
            before + Firsts(wrs, mem, n)
  {
  }

  /** How many of `len` requests are queued. */
  function Fit(len: nat, copies: nat, room: nat): nat {
    Min(len, Min(copies, room))
  }

  lemma {:induction false} QueuesInOrder(c: Config, q: Qp, wrs: seq<Wr>, copies: nat)
    requires RingOk(q.ring)
    ensures var n := Fit(|wrs|, copies, |q.ring.slots| - q.ring.count);
            Queued(c, q, wrs, copies).accepted == q.accepted + Firsts(wrs, q.mem, n)
    decreases |wrs|
  {
    if wrs != [] && copies > 0 && q.ring.count < |q.ring.slots| {
      PutAppends(q.ring, Filled(q.ring.slots[q.ring.tail], wrs[0], q.mem, c.direct));
      QueuesInOrder(c, q.(ring := Push(q.ring, wrs[0], q.mem, c.direct),
                          accepted := q.accepted + [Posted(wrs[0], Load(q.mem, wrs[0]))]),
                    wrs[1..], copies - 1);
      FirstAndRest(wrs, q.mem, Fit(|wrs|, copies, |q.ring.slots| - q.ring.count), q.accepted);
    }
  }

  lemma AcceptsInOrder(c: Config, q: Qp, wrs: seq<Wr>, result: SendResult, copies: nat) returns (new_: seq<Posted>)
    requires RingOk(q.ring)
    ensures Post(c, q, wrs, result, copies).accepted == q.accepted + new_
    ensures AsGiven(new_, wrs, q.mem) && |new_| == Took(c, q, wrs, result, copies)
    ensures |wrs| <= copies && |wrs| <= |q.ring.slots| - q.ring.count ==> |new_| == |wrs|
  {
    new_ := Firsts(wrs, q.mem, Took(c, q, wrs, result, copies));
    FirstsAreGiven(wrs, q.mem, Took(c, q, wrs, result, copies));
    QueuesInOrder(c, q, wrs, copies);
  }

  /** A request taken from a caller, with all memory as it was then. */
  datatype Entry = Entry(wr: Wr, mem: Memory)

  function Entries(wrs: seq<Wr>, mem: Memory): seq<Entry> {
    seq(|wrs|, i requires 0 <= i < |wrs| => Entry(wrs[i], mem))
  }

  /** The requests a run has taken: of each list, in order, the first that fit. */
  function Log(c: Config, depth: nat, mem: Memory, evs: seq<Event>): seq<Entry>
    requires depth > 0
  {
    if evs == [] then []
    else
      var before, e := evs[..|evs| - 1], evs[|evs| - 1];
      Log(c, depth, mem, before) +
      if !e.PostSend? then []
      else
        var n := Took(c, Run(c, depth, mem, before), e.wrs, e.inlineResult, e.copies);
        Entries(e.wrs[..n], MemoryAt(mem, before))
  }

  predicate Logged(ps: seq<Posted>, log: seq<Entry>) {
    |ps| == |log| &&
    forall i :: 0 <= i < |log| ==> ps[i].wr == log[i].wr && ReadsFrom(ps[i].bytes, log[i].wr, log[i].mem)
  }

  lemma LogMore(ps: seq<Posted>, log: seq<Entry>, new_: seq<Posted>, wrs: seq<Wr>, mem: Memory)
    requires Logged(ps, log) && AsGiven(new_, wrs, mem)
    ensures Logged(ps + new_, log + Entries(wrs[..|new_|], mem))
  {
  }

  lemma OthersAcceptNothing(c: Config, q: Qp, e: Event)
    requires RingOk(q.ring) && !e.PostSend?
    ensures Step(c, q, e).accepted == q.accepted
  {
  }

  /** Accepted requests are the callers' own, in their order, each with the bytes its
      memory held when it was posted. */
  lemma {:induction false} AcceptedIsLogged(c: Config, depth: nat, mem: Memory, evs: seq<Event>)
    requires depth > 0
    ensures Logged(Run(c, depth, mem, evs).accepted, Log(c, depth, mem, evs))
  {
    if evs != [] {
      var before, e := evs[..|evs| - 1], evs[|evs| - 1];
      var q, log := Run(c, depth, mem, before), Log(c, depth, mem, before);
      AcceptedIsLogged(c, depth, mem, before);
      MemoryIsWritten(c, depth, mem, before);
      if e.PostSend? {
        var new_ := AcceptsInOrder(c, q, e.wrs, e.inlineResult, e.copies);
        LogMore(q.accepted, log, new_, e.wrs, q.mem);
      } else {
        OthersAcceptNothing(c, q, e);
      }
    }
  }

  /** Send-queue order: for every interleaving of posters, worker and busy answers, the
      finished requests followed by the ring's contents are the requests taken from the
      callers, in posting order; in particular an inline send never overtakes a queued
      one. */
  lemma SendOrder(c: Config, depth: nat, mem: Memory, evs: seq<Event>)
    requires depth > 0
    ensures var q := Run(c, depth, mem, evs); var log := Log(c, depth, mem, evs);
            && FinishedWrs(q.finished) + SlotWrs(Queue(q.ring)) == PostedWrs(q.accepted)
            && FinishedWrs(q.finished) <= PostedWrs(q.accepted)
            && |q.accepted| == |log| && (forall i :: 0 <= i < |log| ==> q.accepted[i].wr == log[i].wr)
            && |q.finished| <= |log| && (forall i :: 0 <= i < |q.finished| ==> q.finished[i].wr == log[i].wr)
  {
    RunKeepsCore(c, depth, mem, evs);
    AcceptedIsLogged(c, depth, mem, evs);
    var q := Run(c, depth, mem, evs);
    forall i | 0 <= i < |q.finished|
      ensures i < |q.accepted| && q.finished[i].wr == q.accepted[i].wr
    {
      assert PostedWrs(q.accepted)[i] == FinishedWrs(q.finished)[i];
    }
  }

  // ---- Payload ----

  /** Requests whose send is over, including one the worker has yet to retire. */
  function Over(q: Qp): seq<Finished> {
    q.finished + if q.worker.Tried? then [Finished(q.worker.wr, q.worker.ok)] else []
  }

  /** What should be on the wire when the requests `ps` ended as in `fs`. */
  function Expected(ps: seq<Posted>, fs: seq<Finished>): seq<OnWire>
    requires |fs| <= |ps|
  {
    if fs == [] then []
    else
      var n := |fs| - 1;
      var p := ps[n];
      Expected(ps, fs[..n]) +
      if fs[n].ok && p.wr.numSge > 0
      then [OnWire(p.wr.id, if p.wr.dmabuf then None else Some(p.bytes))] else []
  }

  lemma {:induction false} ExpectedIgnoresLater(ps: seq<Posted>, more: seq<Posted>, fs: seq<Finished>)
    requires |fs| <= |ps|
    ensures Expected(ps + more, fs) == Expected(ps, fs)
  {
    if fs != [] {
      ExpectedIgnoresLater(ps, more, fs[..|fs| - 1]);
    }
  }

  lemma ExpectedAppend(ps: seq<Posted>, fs: seq<Finished>, f: Finished)
    requires |fs| < |ps|
    ensures var p := ps[|fs|];
            Expected(ps, fs + [f]) == Expected(ps, fs) +
            if f.ok && p.wr.numSge > 0
            then [OnWire(p.wr.id, if p.wr.dmabuf then None else Some(p.bytes))] else []
  {
    assert (fs + [f])[..|fs|] == fs;
  }

  predicate NeedsCopy(wr: Wr) {
    wr.numSge > 0 && !wr.dmabuf && wr.len > 0
  }

  /** A slot that carries the bytes its request was posted with. */
  predicate Faithful(s: Slot, p: Posted) {
    && s.bounced == NeedsCopy(s.wr)
    && (s.bounced ==> s.bounce == p.bytes)
    && (s.wr.len == 0 ==> p.bytes == [])
  }

  predicate QueueFaithful(q: Qp) {
    && RingOk(q.ring) && |q.accepted| == |q.finished| + q.ring.count
    && forall i :: 0 <= i < q.ring.count ==> Faithful(Queue(q.ring)[i], q.accepted[|q.finished| + i])
  }

  predicate WireFaithful(q: Qp) {
    |Over(q)| <= |q.accepted| && q.wire == Expected(q.accepted, Over(q))
  }

  /** With direct sending off: every queued request carries the bytes it was posted
      with, and the wire carries exactly those. */
  predicate Snapshots(q: Qp) {
    Core(q) && QueueFaithful(q) && WireFaithful(q)
  }

  lemma CoreCounts(q: Qp)
    requires Core(q)
    ensures |q.accepted| == |q.finished| + q.ring.count
    ensures |Over(q)| <= |q.accepted|
    ensures forall i :: 0 <= i < q.ring.count ==> q.accepted[|q.finished| + i].wr == Queue(q.ring)[i].wr
  {
    var all := PostedWrs(q.accepted);
    var fs, ss := FinishedWrs(q.finished), SlotWrs(Queue(q.ring));
    assert |all| == |fs| + |ss|;
    forall i | 0 <= i < q.ring.count
      ensures q.accepted[|q.finished| + i].wr == Queue(q.ring)[i].wr
    {
      assert all[|fs| + i] == ss[i];
    }
  }

  lemma PushKeepsSnapshots(c: Config, q: Qp, wr: Wr)
    requires Snapshots(q) && !c.direct && q.ring.count < |q.ring.slots|
    ensures Snapshots(q.(ring := Push(q.ring, wr, q.mem, c.direct),
                         accepted := q.accepted + [Posted(wr, Load(q.mem, wr))]))
  {
    PushKeepsCore(c, q, wr);
    PutAppends(q.ring, Filled(q.ring.slots[q.ring.tail], wr, q.mem, c.direct));
    ExpectedIgnoresLater(q.accepted, [Posted(wr, Load(q.mem, wr))], Over(q));
  }

  lemma {:induction false} QueuedKeepsSnapshots(c: Config, q: Qp, wrs: seq<Wr>, copies: nat)
    requires Snapshots(q) && !c.direct
    ensures Snapshots(Queued(c, q, wrs, copies))
    decreases |wrs|
  {
    if wrs != [] && copies > 0 && q.ring.count < |q.ring.slots| {
      PushKeepsSnapshots(c, q, wrs[0]);
      QueuedKeepsSnapshots(c, q.(ring := Push(q.ring, wrs[0], q.mem, c.direct),
                                 accepted := q.accepted + [Posted(wrs[0], Load(q.mem, wrs[0]))]),
                           wrs[1..], copies - 1);
    }
  }

  lemma InlineKeepsSnapshots(c: Config, q: Qp, wrs: seq<Wr>)
    requires Snapshots(q) && TakesInline(c, q, wrs)
    ensures Snapshots(Inlined(q, wrs[0]))
  {
    InlineKeepsCore(c, q, wrs);
    var q' := Inlined(q, wrs[0]);
    CoreCounts(q);
    assert Over(q) == q.finished && Over(q') == q.finished + [Finished(wrs[0], true)];
    ExpectedIgnoresLater(q.accepted, [Posted(wrs[0], Load(q.mem, wrs[0]))], q.finished);
    ExpectedAppend(q'.accepted, q.finished, Finished(wrs[0], true));
  }

  lemma HandedIsPosted(q: Qp)
    requires Core(q) && QueueFaithful(q) && q.worker.Trying? && q.worker.wr.numSge > 0
    ensures var p := q.accepted[|q.finished|];
            && p.wr == q.worker.wr && q.worker.slot < |q.ring.slots|
            && Handed(q, q.worker.slot, q.worker.wr) ==
               OnWire(p.wr.id, if p.wr.dmabuf then None else Some(p.bytes))
  {
    CoreCounts(q);
    PopDropsFirst(q.ring);
    assert Faithful(Queue(q.ring)[0], q.accepted[|q.finished| + 0]);
  }

  lemma AttemptKeepsWire(q: Qp, result: SendResult)
    requires Core(q) && QueueFaithful(q) && WireFaithful(q)
    ensures WireFaithful(Attempt(q, result))
  {
    var q' := Attempt(q, result);
    if q.worker.Trying? && q'.worker.Tried? {
      CoreCounts(q);
      assert q.accepted[|q.finished| + 0].wr == Queue(q.ring)[0].wr;
      PopDropsFirst(q.ring);
      ExpectedAppend(q.accepted, q.finished, Finished(q.worker.wr, q'.worker.ok));
      assert Over(q) == q.finished && q.wire + [] == q.wire;
      if q.worker.wr.numSge > 0 {
        HandedIsPosted(q);
      }
    }
  }

  lemma SameQueue(q: Qp, q': Qp)
    requires QueueFaithful(q)
    requires q'.ring == q.ring && q'.finished == q.finished && q'.accepted == q.accepted
    ensures QueueFaithful(q')
  {
  }

  lemma AttemptKeepsSnapshots(q: Qp, result: SendResult)
    requires Snapshots(q)
    ensures Snapshots(Attempt(q, result))
  {
    AttemptKeepsWire(q, result);
    SameQueue(q, Attempt(q, result));
  }

  lemma RetireKeepsSnapshots(q: Qp)
    requires Snapshots(q)
    ensures Snapshots(Retire(q))
  {
    RetireKeepsCore(q);
    if q.worker.Tried? {
      PopDropsFirst(q.ring);
      var q' := Retire(q);
      assert Over(q') == Over(q);
      forall i | 0 <= i < q'.ring.count
        ensures Faithful(Queue(q'.ring)[i], q'.accepted[|q'.finished| + i])
      {
        assert Faithful(Queue(q.ring)[i + 1], q.accepted[|q.finished| + (i + 1)]);
      }
    }
  }

  lemma SameSnapshots(q: Qp, q': Qp)
    requires Snapshots(q) && Core(q')
    requires q'.ring == q.ring && q'.finished == q.finished && q'.accepted == q.accepted
    requires q'.wire == q.wire && Over(q') == Over(q)
    ensures Snapshots(q')
  {
    SameQueue(q, q');
  }

  lemma PostKeepsSnapshots(c: Config, q: Qp, wrs: seq<Wr>, result: SendResult, copies: nat)
    requires Snapshots(q) && !c.direct
    ensures Snapshots(Post(c, q, wrs, result, copies))
  {
    if TakesInline(c, q, wrs) && result.Sent? {
      InlineKeepsSnapshots(c, q, wrs);
    } else {
      QueuedKeepsSnapshots(c, q, wrs, copies);
    }
  }

  lemma WriteKeepsSnapshots(q: Qp, mem: Memory)
    requires Snapshots(q)
    ensures Snapshots(q.(mem := mem))
  {
    SameSnapshots(q, q.(mem := mem));
  }

  lemma PublishKeepsSnapshots(q: Qp, i: nat)
    requires Snapshots(q)
    ensures Snapshots(PublishOwed(q, i)) && Snapshots(PublishHeld(q))
  {
    SameSnapshots(q, PublishOwed(q, i));
    SameSnapshots(q, PublishHeld(q));
  }

  lemma PeekKeepsCore(q: Qp)
    requires Core(q)
    ensures Core(Peek(q))
  {
  }

  lemma PeekKeepsSnapshots(q: Qp)
    requires Snapshots(q)
    ensures Snapshots(Peek(q))
  {
    PeekKeepsCore(q);
    SameSnapshots(q, Peek(q));
  }

  lemma StepKeepsSnapshots(c: Config, q: Qp, e: Event)
    requires Snapshots(q) && !c.direct
    ensures Snapshots(Step(c, q, e))
  {
    match e
    case CallerWrites(buf, bytes) => WriteKeepsSnapshots(q, q.mem[buf := bytes]);
    case PostSend(wrs, result, copies) => PostKeepsSnapshots(c, q, wrs, result, copies);
    case PublishInline(i) => PublishKeepsSnapshots(q, i);
    case WorkerPeeks => PeekKeepsSnapshots(q);
    case WorkerSends(result) => AttemptKeepsSnapshots(q, result);
    case WorkerRetires => RetireKeepsSnapshots(q);
    case WorkerPublishes => PublishKeepsSnapshots(q, 0);
  }

  lemma {:induction false} RunKeepsSnapshots(c: Config, depth: nat, mem: Memory, evs: seq<Event>)
    requires depth > 0 && !c.direct
    ensures Snapshots(Run(c, depth, mem, evs))
  {
    if evs != [] {
      RunKeepsSnapshots(c, depth, mem, evs[..|evs| - 1]);
      StepKeepsSnapshots(c, Run(c, depth, mem, evs[..|evs| - 1]), evs[|evs| - 1]);
    }
  }

  // ---- The inline path ----

  /** A list is sent by its poster, and not through the ring, exactly if the path is on, the
      list is one host request of at most 4096 bytes, every earlier request has finished,
      and the stream takes it. */
  lemma InlineExactlyWhenDone(c: Config, depth: nat, mem: Memory, evs: seq<Event>, e: Event)
    requires depth > 0 && e.PostSend?
    ensures var q := Run(c, depth, mem, evs);
            |Step(c, q, e).finished| > |q.finished| <==>
              && c.inline && |e.wrs| == 1 && e.wrs[0].numSge == 1 && e.wrs[0].len <= 4096 && !e.wrs[0].dmabuf
              && |q.finished| == |q.accepted| && e.inlineResult.Sent?
  {
    var q := Run(c, depth, mem, evs);
    RunKeepsCore(c, depth, mem, evs);
    CoreCounts(q);
    QueuedLeaves(c, q, e.wrs, e.copies);
  }

  // ---- What became of the requests ----

  function Oks(fs: seq<Finished>): seq<bool> {
    seq(|fs|, i requires 0 <= i < |fs| => fs[i].ok)
  }

  /** The outcome an event decides, if any: an inline send goes out at once, an empty
      request succeeds, a busy stream decides nothing. */
  function Decided(c: Config, q: Qp, e: Event): seq<bool> {
    match e
    case PostSend(wrs, result, _) => if TakesInline(c, q, wrs) && result.Sent? then [true] else []
    case WorkerSends(result) =>
      if !q.worker.Trying? then []
      else if q.worker.wr.numSge == 0 then [true]
      else if result.Again? then []
      else [result.Sent?]
    case _ => []
  }

  /** The outcomes a run has decided, in order. */
  function Outcomes(c: Config, depth: nat, mem: Memory, evs: seq<Event>): seq<bool>
    requires depth > 0
  {
    if evs == [] then []
    else
      var before, e := evs[..|evs| - 1], evs[|evs| - 1];
      Outcomes(c, depth, mem, before) + Decided(c, Run(c, depth, mem, before), e)
  }

  lemma AttemptDecides(c: Config, q: Qp, result: SendResult)
    requires Core(q)
    ensures Oks(Over(Attempt(q, result))) == Oks(Over(q)) + Decided(c, q, WorkerSends(result))
  {
  }

  lemma PostDecides(c: Config, q: Qp, e: Event)
    requires Core(q) && e.PostSend?
    ensures Oks(Over(Step(c, q, e))) == Oks(Over(q)) + Decided(c, q, e)
  {
    if TakesInline(c, q, e.wrs) && e.inlineResult.Sent? {
      InlineKeepsCore(c, q, e.wrs);
    } else {
      QueuedLeaves(c, q, e.wrs, e.copies);
    }
  }

  lemma StepDecides(c: Config, q: Qp, e: Event)
    requires Core(q)
    ensures Oks(Over(Step(c, q, e))) == Oks(Over(q)) + Decided(c, q, e)
  {
    match e
    case PostSend(_, _, _) => PostDecides(c, q, e);
    case WorkerRetires =>
      assert Step(c, q, e) == Retire(q);
      assert Over(Retire(q)) == Over(q);
    case WorkerSends(result) =>
      assert Step(c, q, e) == Attempt(q, result);
      AttemptDecides(c, q, result);
    case CallerWrites(_, _) =>
    case PublishInline(i) => assert Step(c, q, e) == PublishOwed(q, i);
    case WorkerPeeks => assert Step(c, q, e) == Peek(q);
    case WorkerPublishes => assert Step(c, q, e) == PublishHeld(q);
  }

  /** What is over has the outcomes the stream gave, in order. */
  lemma {:induction false} OutcomesAreExact(c: Config, depth: nat, mem: Memory, evs: seq<Event>)
    requires depth > 0
    ensures Oks(Over(Run(c, depth, mem, evs))) == Outcomes(c, depth, mem, evs)
  {
    if evs != [] {
      OutcomesAreExact(c, depth, mem, evs[..|evs| - 1]);
      RunKeepsCore(c, depth, mem, evs[..|evs| - 1]);
      StepDecides(c, Run(c, depth, mem, evs[..|evs| - 1]), evs[|evs| - 1]);
    }
  }

  lemma OutcomeCount(c: Config, depth: nat, mem: Memory, evs: seq<Event>)
    requires depth > 0
    ensures var q := Run(c, depth, mem, evs);
            |q.finished| <= |Outcomes(c, depth, mem, evs)| <= |Log(c, depth, mem, evs)|
  {
    OutcomesAreExact(c, depth, mem, evs);
    RunKeepsCore(c, depth, mem, evs);
    CoreCounts(Run(c, depth, mem, evs));
    AcceptedIsLogged(c, depth, mem, evs);
  }

  /** How many of the first `j` requests have put a message on the wire. */
  function SentBefore(log: seq<Entry>, oks: seq<bool>, j: nat): nat
    requires j <= |oks| <= |log|
  {
    if j == 0 then 0 else SentBefore(log, oks, j - 1) + if oks[j - 1] && log[j - 1].wr.numSge > 0 then 1 else 0
  }

  lemma {:induction false} SentPrefix(log: seq<Entry>, oks: seq<bool>, m: nat, j: nat)
    requires j <= m <= |oks| <= |log|
    ensures SentBefore(log, oks[..m], j) == SentBefore(log, oks, j)
  {
    if j > 0 {
      SentPrefix(log, oks, m, j - 1);
    }
  }

  lemma {:induction false} ExpectedCount(ps: seq<Posted>, fs: seq<Finished>, log: seq<Entry>)
    requires Logged(ps, log) && |fs| <= |ps|
    ensures |Expected(ps, fs)| == SentBefore(log, Oks(fs), |fs|)
    decreases |fs|
  {
    if fs != [] {
      var m := |fs| - 1;
      assert Oks(fs[..m]) == Oks(fs)[..m];
      ExpectedCount(ps, fs[..m], log);
      SentPrefix(log, Oks(fs), m, m);
    }
  }

  lemma {:induction false} ExpectedAt(ps: seq<Posted>, fs: seq<Finished>, log: seq<Entry>, j: nat)
    requires Logged(ps, log) && j < |fs| <= |ps|
    requires fs[j].ok && ps[j].wr.numSge > 0
    ensures var n := SentBefore(log, Oks(fs), j); var p := ps[j];
            n < |Expected(ps, fs)| &&
            Expected(ps, fs)[n] == OnWire(p.wr.id, if p.wr.dmabuf then None else Some(p.bytes))
    decreases |fs|
  {
    var m := |fs| - 1;
    assert Oks(fs[..m]) == Oks(fs)[..m];
    SentPrefix(log, Oks(fs), m, j);
    if j < m {
      ExpectedAt(ps, fs[..m], log, j);
    } else {
      ExpectedCount(ps, fs[..m], log);
    }
  }

  /** The message is `p`'s, with the bytes its memory held in `mem`. */
  predicate Delivers(w: OnWire, p: Posted, mem: Memory) {
    && w.id == p.wr.id && (w.bytes.None? <==> p.wr.dmabuf)
    && (!p.wr.dmabuf ==> w.bytes.value == p.bytes && ReadsFrom(w.bytes.value, p.wr, mem))
  }

  /** Payload snapshot: with direct sending off, whatever callers write to their memory
      afterwards, the wire carries one message for each request with memory that was sent,
      in posting order, under its id, and for host memory with exactly the bytes that
      memory held when it was posted. */
  lemma PayloadSnapshot(c: Config, depth: nat, mem: Memory, evs: seq<Event>)
    requires depth > 0 && !c.direct
    ensures var q := Run(c, depth, mem, evs);
            var log, oks := Log(c, depth, mem, evs), Outcomes(c, depth, mem, evs);
            && |oks| <= |log| == |q.accepted| && |q.wire| == SentBefore(log, oks, |oks|)
            && forall j :: 0 <= j < |oks| && oks[j] && log[j].wr.numSge > 0 ==>
                 var n := SentBefore(log, oks, j);
                 n < |q.wire| && q.accepted[j].wr == log[j].wr && Delivers(q.wire[n], q.accepted[j], log[j].mem)
  {
    var q, log := Run(c, depth, mem, evs), Log(c, depth, mem, evs);
    var oks := Outcomes(c, depth, mem, evs);
    RunKeepsSnapshots(c, depth, mem, evs);
    AcceptedIsLogged(c, depth, mem, evs);
    OutcomesAreExact(c, depth, mem, evs);
    ExpectedCount(q.accepted, Over(q), log);
    forall j | 0 <= j < |oks| && oks[j] && log[j].wr.numSge > 0
      ensures var n := SentBefore(log, oks, j);
              n < |q.wire| && q.accepted[j].wr == log[j].wr && Delivers(q.wire[n], q.accepted[j], log[j].mem)
    {
      ExpectedAt(q.accepted, Over(q), log, j);
    }
  }

  // ---- Completions ----

  /** The length a completion reports: the request's, if it was sent and had memory. */
  function LengthSent(f: Finished): nat {
    if f.ok && f.wr.numSge > 0 then f.wr.len else 0
  }

  /** The completion a finished request is due. */
  function Completion(f: Finished): Wc {
    Wc(f.wr.id, f.ok, false, LengthSent(f), 0)
  }

  function Completions(fs: seq<Finished>): seq<Wc> {
    seq(|fs|, i requires 0 <= i < |fs| => Completion(fs[i]))
  }

  /** The completion the worker has yet to publish. */
  function Held(q: Qp): seq<Wc> {
    if !q.worker.Retired? then []
    else
      var wr, ok := q.worker.wr, q.worker.ok;
      [Wc(wr.id, ok, false, if ok && wr.numSge > 0 then wr.len else 0, 0)]
  }

  /** Published, owed and held completions are those of the finished requests. */
  predicate Balanced(published: seq<Wc>, owed: seq<Wc>, held: seq<Wc>, finished: seq<Finished>) {
    multiset(published) + multiset(owed) + multiset(held) == multiset(Completions(finished))
  }

  /** Every finished request has exactly one completion, published or about to be. */
  predicate Accounted(q: Qp) {
    Balanced(q.published, q.owed, Held(q), q.finished)
  }

  lemma CompletionsAppend(fs: seq<Finished>, f: Finished)
    ensures Completions(fs + [f]) == Completions(fs) + [Completion(f)]
  {
  }

  lemma OweOne(published: seq<Wc>, owed: seq<Wc>, held: seq<Wc>, finished: seq<Finished>, f: Finished)
    requires Balanced(published, owed, held, finished)
    ensures Balanced(published, owed + [Completion(f)], held, finished + [f])
  {
    CompletionsAppend(finished, f);
  }

  lemma HoldOne(published: seq<Wc>, owed: seq<Wc>, finished: seq<Finished>, f: Finished)
    requires Balanced(published, owed, [], finished)
    ensures Balanced(published, owed, [Completion(f)], finished + [f])
  {
    CompletionsAppend(finished, f);
  }

  lemma PublishFromOwed(published: seq<Wc>, owed: seq<Wc>, held: seq<Wc>, finished: seq<Finished>, i: nat)
    requires Balanced(published, owed, held, finished) && i < |owed|
    ensures Balanced(published + [owed[i]], owed[..i] + owed[i + 1..], held, finished)
  {
    assert owed == owed[..i] + [owed[i]] + owed[i + 1..];
  }

  lemma PublishFromHeld(published: seq<Wc>, owed: seq<Wc>, c: Wc, finished: seq<Finished>)
    requires Balanced(published, owed, [c], finished)
    ensures Balanced(published + [c], owed, [], finished)
  {
  }

  lemma PostKeepsAccounted(c: Config, q: Qp, wrs: seq<Wr>, result: SendResult, copies: nat)
    requires RingOk(q.ring) && Accounted(q)
    ensures Accounted(Post(c, q, wrs, result, copies))
  {
    if TakesInline(c, q, wrs) && result.Sent? {
      OweOne(q.published, q.owed, Held(q), q.finished, Finished(wrs[0], true));
    } else {
      QueuedLeaves(c, q, wrs, copies);
    }
  }

  lemma PublishOwedKeepsAccounted(q: Qp, i: nat)
    requires Accounted(q)
    ensures Accounted(PublishOwed(q, i))
  {
    if i < |q.owed| {
      PublishFromOwed(q.published, q.owed, Held(q), q.finished, i);
    }
  }

  lemma PublishHeldKeepsAccounted(q: Qp)
    requires Accounted(q)
    ensures Accounted(PublishHeld(q))
  {
    if q.worker.Retired? {
      PublishFromHeld(q.published, q.owed, Completion(Finished(q.worker.wr, q.worker.ok)), q.finished);
    }
  }

  lemma RetireKeepsAccounted(q: Qp)
    requires RingOk(q.ring) && Accounted(q)
    ensures Accounted(Retire(q))
  {
    if q.worker.Tried? {
      HoldOne(q.published, q.owed, q.finished, Finished(q.worker.wr, q.worker.ok));
    }
  }

  lemma SameAccounts(q: Qp, q': Qp)
    requires Accounted(q) && q'.published == q.published && q'.owed == q.owed
    requires Held(q') == Held(q) && q'.finished == q.finished
    ensures Accounted(q')
  {
  }

  lemma WriteKeepsAccounted(q: Qp, mem: Memory)
    requires Accounted(q)
    ensures Accounted(q.(mem := mem))
  {
    SameAccounts(q, q.(mem := mem));
  }

  lemma PeekKeepsAccounted(q: Qp)
    requires RingOk(q.ring) && Accounted(q)
    ensures Accounted(Peek(q))
  {
    SameAccounts(q, Peek(q));
  }

  lemma AttemptKeepsAccounted(q: Qp, result: SendResult)
    requires Accounted(q)
    ensures Accounted(Attempt(q, result))
  {
    SameAccounts(q, Attempt(q, result));
  }

  lemma CallerKeepsAccounted(c: Config, q: Qp, e: Event)
    requires RingOk(q.ring) && Accounted(q) && (e.CallerWrites? || e.PostSend? || e.PublishInline?)
    ensures Accounted(Step(c, q, e))
  {
    match e
    case CallerWrites(buf, bytes) => WriteKeepsAccounted(q, q.mem[buf := bytes]);
    case PostSend(wrs, result, copies) => PostKeepsAccounted(c, q, wrs, result, copies);
    case PublishInline(i) => PublishOwedKeepsAccounted(q, i);
  }

  lemma WorkerKeepsAccounted(c: Config, q: Qp, e: Event)
    requires RingOk(q.ring) && Accounted(q)
    requires e.WorkerPeeks? || e.WorkerSends? || e.WorkerRetires? || e.WorkerPublishes?
    ensures Accounted(Step(c, q, e))
  {
    match e
    case WorkerPeeks =>
      assert Step(c, q, e) == Peek(q);
      PeekKeepsAccounted(q);
    case WorkerSends(result) =>
      assert Step(c, q, e) == Attempt(q, result);
      AttemptKeepsAccounted(q, result);
    case WorkerRetires =>
      assert Step(c, q, e) == Retire(q);
      RetireKeepsAccounted(q);
    case WorkerPublishes =>
      assert Step(c, q, e) == PublishHeld(q);
      PublishHeldKeepsAccounted(q);
  }

  lemma StepKeepsAccounted(c: Config, q: Qp, e: Event)
    requires RingOk(q.ring) && Accounted(q)
    ensures Accounted(Step(c, q, e))
  {
    if e.CallerWrites? || e.PostSend? || e.PublishInline? {
      CallerKeepsAccounted(c, q, e);
    } else {
      WorkerKeepsAccounted(c, q, e);
    }
  }

  lemma {:induction false} RunKeepsAccounted(c: Config, depth: nat, mem: Memory, evs: seq<Event>)
    requires depth > 0
    ensures Accounted(Run(c, depth, mem, evs))
  {
    if evs != [] {
      RunKeepsAccounted(c, depth, mem, evs[..|evs| - 1]);
      RunKeepsCore(c, depth, mem, evs[..|evs| - 1]);
      StepKeepsAccounted(c, Run(c, depth, mem, evs[..|evs| - 1]), evs[|evs| - 1]);
    }
  }

  /** The completions due to requests with these outcomes: the request's id, the outcome,
      and the request's length if it was sent and had memory. */
  function Due(log: seq<Entry>, oks: seq<bool>): seq<Wc>
    requires |oks| <= |log|
  {
    seq(|oks|, i requires 0 <= i < |oks| =>
      Wc(log[i].wr.id, oks[i], false, if oks[i] && log[i].wr.numSge > 0 then log[i].wr.len else 0, 0))
  }

  /** The completions due to the finished requests of a run. */
  function DueNow(c: Config, depth: nat, mem: Memory, evs: seq<Event>): seq<Wc>
    requires depth > 0
  {
    OutcomeCount(c, depth, mem, evs);
    Due(Log(c, depth, mem, evs), Outcomes(c, depth, mem, evs)[..|Run(c, depth, mem, evs).finished|])
  }

  lemma CompletionsAreDue(c: Config, depth: nat, mem: Memory, evs: seq<Event>)
    requires depth > 0
    ensures Completions(Run(c, depth, mem, evs).finished) == DueNow(c, depth, mem, evs)
  {
    var q, oks := Run(c, depth, mem, evs), Outcomes(c, depth, mem, evs);
    OutcomeCount(c, depth, mem, evs);
    OutcomesAreExact(c, depth, mem, evs);
    SendOrder(c, depth, mem, evs);
    forall i | 0 <= i < |q.finished|
      ensures q.finished[i].ok == oks[i]
    {
      assert Oks(Over(q))[i] == Over(q)[i].ok;
    }
  }

  /** Send completions: in every run each finished request has exactly one completion,
      published, owed or held, with its id, its outcome and the length sent. */
  lemma OneCompletionEach(c: Config, depth: nat, mem: Memory, evs: seq<Event>)
    requires depth > 0
    ensures var q := Run(c, depth, mem, evs);
            multiset(q.published) + multiset(q.owed) + multiset(Held(q)) == multiset(DueNow(c, depth, mem, evs))
  {
    RunKeepsAccounted(c, depth, mem, evs);
    CompletionsAreDue(c, depth, mem, evs);
  }

  lemma AllPublished(q: Qp)
    requires Accounted(q) && q.owed == [] && !q.worker.Retired?
    ensures |q.published| == |q.finished|
  {
    assert |multiset(q.published)| == |multiset(Completions(q.finished))|;
  }

  predicate Ordered(q: Qp) {
    q.owed == [] && q.published + Held(q) == Completions(q.finished)
  }

  lemma StepKeepsOrdered(c: Config, q: Qp, e: Event)
    requires Core(q) && Ordered(q) && !c.inline
    ensures Ordered(Step(c, q, e))
  {
    match e
    case PostSend(wrs, result, copies) => QueuedLeaves(c, q, wrs, copies);
    case WorkerRetires =>
      if q.worker.Tried? {
        CompletionsAppend(q.finished, Finished(q.worker.wr, q.worker.ok));
      }
    case _ =>
  }

  lemma {:induction false} RunKeepsOrdered(c: Config, depth: nat, mem: Memory, evs: seq<Event>)
    requires depth > 0 && !c.inline
    ensures Ordered(Run(c, depth, mem, evs))
  {
    if evs != [] {
      RunKeepsOrdered(c, depth, mem, evs[..|evs| - 1]);
      RunKeepsCore(c, depth, mem, evs[..|evs| - 1]);
      StepKeepsOrdered(c, Run(c, depth, mem, evs[..|evs| - 1]), evs[|evs| - 1]);
    }
  }

  /** With the inline path off, completions are published in posting order: the i-th has
      the id of the i-th request taken and its outcome. */
  lemma CompletionOrder(c: Config, depth: nat, mem: Memory, evs: seq<Event>)
    requires depth > 0 && !c.inline
    ensures var q := Run(c, depth, mem, evs);
            q.owed == [] && q.published + Held(q) == DueNow(c, depth, mem, evs)
    ensures var ps, log := Run(c, depth, mem, evs).published, Log(c, depth, mem, evs);
            |ps| <= |log| && forall i :: 0 <= i < |ps| ==> ps[i].wrId == log[i].wr.id && !ps[i].recv
  {
    RunKeepsOrdered(c, depth, mem, evs);
    CompletionsAreDue(c, depth, mem, evs);
    OutcomeCount(c, depth, mem, evs);
    var q, due := Run(c, depth, mem, evs), DueNow(c, depth, mem, evs);
    assert forall i :: 0 <= i < |q.published| ==> q.published[i] == (q.published + Held(q))[i];
  }

  /** Once nothing is queued or owed, every request taken has had its completion. */
  lemma AllCompleted(c: Config, depth: nat, mem: Memory, evs: seq<Event>)
    requires depth > 0
    requires var q := Run(c, depth, mem, evs); q.ring.count == 0 && q.owed == [] && q.worker.Idle?
    ensures var log, oks := Log(c, depth, mem, evs), Outcomes(c, depth, mem, evs);
            |oks| == |log| && multiset(Run(c, depth, mem, evs).published) == multiset(Due(log, oks))
  {
    var q, oks := Run(c, depth, mem, evs), Outcomes(c, depth, mem, evs);
    RunKeepsCore(c, depth, mem, evs);
    CoreCounts(q);
    AcceptedIsLogged(c, depth, mem, evs);
    OutcomesAreExact(c, depth, mem, evs);
    OneCompletionEach(c, depth, mem, evs);
    assert oks[..|q.finished|] == oks;
  }

  predicate Sound(q: Qp) {
    Core(q) && Accounted(q)
  }

  function After(c: Config, q: Qp, e: Event): (q': Qp)
    requires Sound(q)
    ensures Sound(q')
  {
    StepKeepsCore(c, q, e);
    StepKeepsAccounted(c, q, e);
    Step(c, q, e)
  }

  /** One turn of the worker on a stream that takes what it is given, or what is left of the
      turn it is in. */
  function Turn(c: Config, q: Qp): (q': Qp)
    requires Sound(q)
    ensures Sound(q')
  {
    After(c, After(c, After(c, After(c, q, WorkerPeeks), WorkerSends(Sent)), WorkerRetires), WorkerPublishes)
  }

  lemma SentTurn(c: Config, q: Qp)
    requires Sound(q)
    ensures var q' := After(c, q, WorkerSends(Sent));
            && q' == q.(worker := q'.worker, wire := q'.wire) && !q'.worker.Trying?
            && (q.worker.Trying? ==> q'.worker.Tried?) && (!q.worker.Trying? ==> q' == q)
  {
  }

  lemma RetiredTurn(c: Config, q: Qp)
    requires Sound(q) && !q.worker.Trying?
    ensures var q' := After(c, After(c, q, WorkerRetires), WorkerPublishes);
            && q'.worker.Idle? && q'.accepted == q.accepted && q'.owed == q.owed
            && q'.ring.count == q.ring.count - if q.worker.Tried? then 1 else 0
  {
    assert After(c, q, WorkerRetires) == Retire(q);
    assert After(c, Retire(q), WorkerPublishes) == PublishHeld(Retire(q));
  }

  lemma TurnEnds(c: Config, q: Qp)
    requires Sound(q)
    ensures var q' := Turn(c, q);
            && q'.worker.Idle? && q'.accepted == q.accepted && q'.owed == q.owed
            && (q.worker.Idle? && q.ring.count > 0 ==> q'.ring.count == q.ring.count - 1)
  {
    var p := After(c, q, WorkerPeeks);
    assert p == Peek(q);
    SentTurn(c, p);
    RetiredTurn(c, After(c, p, WorkerSends(Sent)));
  }

  /** Turn after turn until the ring is empty. */
  function Turns(c: Config, q: Qp): (q': Qp)
    requires Sound(q) && q.worker.Idle?
    ensures Sound(q')
    decreases q.ring.count
  {
    if q.ring.count == 0 then q
    else
      TurnEnds(c, q);
      Turns(c, Turn(c, q))
  }

  lemma {:induction false} TurnsEnd(c: Config, q: Qp)
    requires Sound(q) && q.worker.Idle?
    ensures var q' := Turns(c, q);
            q'.worker.Idle? && q'.ring.count == 0 && q'.accepted == q.accepted && q'.owed == q.owed
    decreases q.ring.count
  {
    if q.ring.count > 0 {
      TurnEnds(c, q);
      TurnsEnd(c, Turn(c, q));
    }
  }

  /** The posters publish what they owe, oldest first. */
  function PublishAll(c: Config, q: Qp): (q': Qp)
    requires Sound(q)
    ensures Sound(q') && q'.owed == [] && q'.worker == q.worker && q'.ring == q.ring && q'.accepted == q.accepted
    decreases |q.owed|
  {
    if q.owed == [] then q else PublishAll(c, After(c, q, PublishInline(0)))
  }

  lemma NothingLeft(q: Qp)
    requires Sound(q) && q.worker.Idle? && q.ring.count == 0 && q.owed == []
    ensures |q.published| == |q.finished| == |q.accepted|
  {
    CoreCounts(q);
    AllPublished(q);
  }

  /** Nothing stands in the way of a request: from every reachable state the worker and the
      posters can, without further requests and on a stream that takes what it is given,
      finish and report every request taken. */
  lemma EveryRequestCanFinish(c: Config, depth: nat, mem: Memory, evs: seq<Event>)
    requires depth > 0
    ensures Sound(Run(c, depth, mem, evs)) && Turn(c, Run(c, depth, mem, evs)).worker.Idle?
    ensures var q := Run(c, depth, mem, evs); var q' := PublishAll(c, Turns(c, Turn(c, q)));
            q'.accepted == q.accepted && |q'.published| == |q'.finished| == |q.accepted|
  {
    var q := Run(c, depth, mem, evs);
    RunKeepsCore(c, depth, mem, evs);
    RunKeepsAccounted(c, depth, mem, evs);
    TurnEnds(c, q);
    TurnsEnd(c, Turn(c, q));
    NothingLeft(PublishAll(c, Turns(c, Turn(c, q))));
  }

  /** On a completion queue that is never overrun, the completions a caller has polled,
      those waiting there and those about to be published are those of the finished
      requests; once one completion too many is outstanding, some request's is lost. */
  lemma CompletionsReachTheCaller(c: Config, depth: nat, mem: Memory, evs: seq<Event>, cap: nat, ops: seq<Op>)
    requires depth > 0 && CompletionQueue.Posted(ops) == Run(c, depth, mem, evs).published
    ensures CompletionQueue.Run(cap, ops).dropped == [] <==> StaysWithin(cap, ops)
    ensures var q := Run(c, depth, mem, evs); var f := CompletionQueue.Run(cap, ops);
            StaysWithin(cap, ops) ==>
              multiset(f.polled) + multiset(f.queue) + multiset(q.owed) + multiset(Held(q))
              == multiset(DueNow(c, depth, mem, evs))
  {
    DropsAreExact(cap, ops);
    OneCompletionEach(c, depth, mem, evs);
    if StaysWithin(cap, ops) {
      NothingDropped(cap, ops);
      var f := CompletionQueue.Run(cap, ops);
      assert multiset(f.polled + f.queue) == multiset(f.polled) + multiset(f.queue);
    }
  }

  // ---- The ring object ----

  /** What `wr` looks like in a slot when posted with memory `mem`. */
  predicate Carries(s: Slot, wr: Wr, mem: Memory, direct: bool) {
    && s.wr == wr && s.bounced == (NeedsCopy(wr) && !direct)
    && (s.bounced ==> s.bounce == Load(mem, wr) && ReadsFrom(s.bounce, wr, mem))
  }

  class SendRing {
    const slots: array<Slot>
    var head: nat
    var tail: nat
    var count: nat
    var inflight: bool

    ghost function View(): Ring<Slot>
      reads this, slots
    {
      Ring(slots[..], head, tail, count)
    }

    ghost predicate Valid()
      reads this, slots
    {
      RingOk(View())
    }

    constructor (depth: nat)
      requires depth > 0
      ensures Valid() && fresh(slots) && Queue(View()) == [] && slots.Length == depth && !inflight
    {
      slots := new Slot[depth](i => Slot(Wr(0, 0, 0, 0, false), false, []));
      head, tail, count, inflight := 0, 0, 0, false;
    }

    /** The slot at the tail takes the request, with a private copy where one is due. */
    method FillTail(wr: Wr, mem: Memory, direct: bool)
      requires tail < slots.Length
      modifies slots
      ensures slots[..] == old(slots[..])[tail := Filled(old(slots[tail]), wr, mem, direct)]
    {
      if wr.numSge > 0 && !wr.dmabuf && wr.len > 0 && !direct {
        slots[tail] := Slot(wr, true, Load(mem, wr));
      } else {
        slots[tail] := slots[tail].(wr := wr, bounced := false);
      }
    }

    method PushOne(wr: Wr, mem: Memory, direct: bool)
      requires Valid() && count < slots.Length
      modifies this`tail, this`count, slots
      ensures Valid() && count == old(count) + 1 && |Queue(View())| == count
      ensures Queue(View())[..old(count)] == old(Queue(View()))
      ensures Carries(Queue(View())[old(count)], wr, mem, direct)
    {
      ghost var r := View();
      ghost var s := Filled(r.slots[r.tail], wr, mem, direct);
      PutAppends(r, s);
      FillTail(wr, mem, direct);
      tail := if tail + 1 == slots.Length then 0 else tail + 1;
      count := count + 1;
      assert View() == Put(r, s);
    }

    /** The queued path of `odl_post_send`: requests in order until the ring is full or
        the private copy of request `copies` cannot be allocated. What was queued before
        is not touched. */
    method PostQueued(wrs: seq<Wr>, mem: Memory, direct: bool, copies: nat) returns (n: nat)
      requires Valid()
      modifies this`tail, this`count, slots
      ensures Valid() && n == Min(|wrs|, Min(copies, slots.Length - old(count)))
      ensures count == old(count) + n && Queue(View())[..old(count)] == old(Queue(View()))
      ensures forall i :: 0 <= i < n ==> Carries(Queue(View())[old(count) + i], wrs[i], mem, direct)
    {
      n := 0;
      while n < |wrs|
        invariant Valid() && n <= Min(|wrs|, Min(copies, slots.Length - old(count)))
        invariant count == old(count) + n && Queue(View())[..old(count)] == old(Queue(View()))
        invariant forall i :: 0 <= i < n ==> Carries(Queue(View())[old(count) + i], wrs[i], mem, direct)
      {
        if count >= slots.Length || n == copies {
          return;
        }
        ghost var q := Queue(View());
        PushOne(wrs[n], mem, direct);
        ghost var q' := Queue(View());
        assert q'[..old(count)] == q'[..|q|][..old(count)];
        assert forall i :: 0 <= i < |q| ==> q'[i] == q'[..|q|][i];
        n := n + 1;
      }
    }

    /** The worker's peek: a copy of the head, which stays where it is. */
    method PeekHead() returns (wr: Option<Wr>)
      requires Valid()
      modifies this`inflight
      ensures Valid() && Queue(View()) == old(Queue(View()))
      ensures count == 0 ==> wr == None && inflight == old(inflight)
      ensures count > 0 ==> wr == Some(Queue(View())[0].wr) && inflight
    {
      if count == 0 {
        return None;
      }
      assert Queue(View())[0] == slots[..][Wrap(View(), head + 0)];
      inflight := true;
      wr := Some(slots[head].wr);
    }

    /** The worker's retirement of the head. */
    method PopHead()
      requires Valid() && count > 0
      modifies this`head, this`count, this`inflight
      ensures Valid() && !inflight && Queue(View()) == old(Queue(View()))[1..]
    {
      PopDropsFirst(View());
      head := if head + 1 == slots.Length then 0 else head + 1;
      count := count - 1;
      inflight := false;
    }
  }
}
