/** The completion ring: a circular array that refines a bounded FIFO. */
module CompletionQueue {
  import opened Base

  /** A work completion. */
  datatype Wc = Wc(wrId: nat, ok: bool, recv: bool, byteLen: nat, srcQp: Byte)

  const BACKLOG := 64
  const RING_MAX := 65536
  const INT_MAX := 0x7FFF_FFFF

  // ---- The FIFO it promises to be ----

  datatype Op = Post(wc: Wc) | Poll(n: nat)

  /** A FIFO of capacity `cap` with everything posted, polled and dropped so far. */
  datatype Fifo = Fifo(queue: seq<Wc>, polled: seq<Wc>, dropped: seq<Wc>)

  function Do(f: Fifo, cap: nat, op: Op): Fifo {
    match op
    case Post(wc) =>
      if |f.queue| < cap then f.(queue := f.queue + [wc]) else f.(dropped := f.dropped + [wc])
    case Poll(n) =>
      var k := Min(n, |f.queue|);
      f.(queue := f.queue[k..], polled := f.polled + f.queue[..k])
  }

  function Run(cap: nat, ops: seq<Op>): Fifo {
    if ops == [] then Fifo([], [], []) else Do(Run(cap, ops[..|ops| - 1]), cap, ops[|ops| - 1])
  }

  function Posted(ops: seq<Op>): seq<Wc> {
    if ops == [] then []
    else Posted(ops[..|ops| - 1]) + match ops[|ops| - 1] case Post(wc) => [wc] case Poll(_) => []
  }

  /** How many completions have been posted and not asked for. */
  function Outstanding(ops: seq<Op>): nat {
    if ops == [] then 0
    else
      var k := Outstanding(ops[..|ops| - 1]);
      match ops[|ops| - 1] case Post(_) => k + 1 case Poll(n) => k - Min(n, k)
  }

  predicate StaysWithin(cap: nat, ops: seq<Op>) {
    ops == [] || (StaysWithin(cap, ops[..|ops| - 1]) && Outstanding(ops) <= cap)
  }

  /** While at most `cap` completions are outstanding, none is dropped, and those
      polled followed by those waiting are all that were posted, in order. */
  lemma {:induction false} NothingDropped(cap: nat, ops: seq<Op>)
    requires StaysWithin(cap, ops)
    ensures var f := Run(cap, ops);
            f.dropped == [] && f.polled + f.queue == Posted(ops) && |f.queue| == Outstanding(ops)
  {
    if ops != [] {
      var f := Run(cap, ops[..|ops| - 1]);
      NothingDropped(cap, ops[..|ops| - 1]);
      match ops[|ops| - 1]
      case Post(wc) =>
      case Poll(n) =>
        var k := Min(n, |f.queue|);
        assert f.queue == f.queue[..k] + f.queue[k..];
    }
  }

  /** Completions are lost if and only if more are outstanding at some time than fit. */
  lemma {:induction false} DropsAreExact(cap: nat, ops: seq<Op>)
    ensures Run(cap, ops).dropped == [] <==> StaysWithin(cap, ops)
  {
    if ops != [] {
      DropsAreExact(cap, ops[..|ops| - 1]);
      if StaysWithin(cap, ops[..|ops| - 1]) {
        NothingDropped(cap, ops[..|ops| - 1]);
      }
    }
  }

  // ---- Sizing ----

  /** The ring that `odl_create_cq` allocates for a requested depth. */
  function RingCap(cqe: int): nat
    requires cqe < INT_MAX
  {
    Min(Max((if cqe > 0 then cqe else 1) + 1, BACKLOG), RING_MAX)
  }

  /** The reported depth is all usable. It is at least what was asked for, up to the
      ceiling, and exactly that between the floor and the ceiling. */
  lemma ReportedDepth(cqe: int)
    requires cqe < INT_MAX
    ensures BACKLOG <= RingCap(cqe) <= RING_MAX
    ensures cqe <= RingCap(cqe) - 1 <==> cqe < RING_MAX
    ensures BACKLOG - 1 <= cqe < RING_MAX ==> RingCap(cqe) - 1 == cqe
    ensures cqe < BACKLOG ==> RingCap(cqe) == BACKLOG
    ensures cqe >= RING_MAX ==> RingCap(cqe) == RING_MAX
  {
  }

  // ---- The ring ----

  class Cq {
    const ring: array<Wc>
    const cqe: nat
    var head: nat
    var tail: nat
    var armed: bool
    var events: nat

    ghost predicate Valid()
      reads this
    {
      ring.Length == cqe + 1 && cqe > 0 && head < ring.Length && tail < ring.Length
    }

    ghost function Contents(): seq<Wc>
      requires Valid()
      reads this, ring
    {
      if head <= tail then ring[head..tail] else ring[head..] + ring[..tail]
    }

    /** `odl_create_cq`. */
    constructor (requested: int)
      requires requested < INT_MAX
      ensures Valid() && fresh(ring) && Contents() == [] && !armed && events == 0
      ensures cqe == RingCap(requested) - 1
    {
      var cap := RingCap(requested);
      ring := new Wc[cap](i => Wc(0, false, false, 0, 0));
      cqe := cap - 1;
      head, tail, armed, events := 0, 0, false, 0;
    }

    /** `odl_cq_post`: a FIFO of capacity `cqe`, and one wake-up per arming. */
    method Post(wc: Wc) returns (ok: bool)
      requires Valid()
      modifies this`tail, this`armed, this`events, ring
      ensures Valid() && ok == (|old(Contents())| < cqe)
      ensures Contents() == if ok then old(Contents()) + [wc] else old(Contents())
      ensures armed == (old(armed) && !ok)
      ensures events == old(events) + if old(armed) && ok then 1 else 0
    {
      var next := if tail + 1 == ring.Length then 0 else tail + 1;
      if next == head {
        return false;
      }
      ring[tail] := wc;
      tail := next;
      if armed {
        events := events + 1;
        armed := false;
      }
      ok := true;
    }

    /** `odl_req_notify_cq`. */
    method Arm()
      requires Valid()
      modifies this`armed
      ensures Valid() && armed && Contents() == old(Contents())
    {
      armed := true;
    }

    method TakeOldest() returns (wc: Wc)
      requires Valid() && head != tail
      modifies this`head
      ensures Valid() && old(Contents()) == [wc] + Contents()
    {
      wc := ring[head];
      head := if head + 1 == ring.Length then 0 else head + 1;
    }

    /** The locked part of `odl_poll_cq`: the oldest completions, at most `n`. */
    method TakeUpTo(n: nat) returns (out: seq<Wc>, drained: bool)
      requires Valid()
      modifies this`head
      ensures Valid() && out + Contents() == old(Contents())
      ensures |out| == Min(n, |old(Contents())|) && drained == (Contents() == [])
    {
      out := [];
      ghost var all, left := Contents(), Contents();
      while |out| < n && head != tail
        invariant Valid() && left == Contents() && |out| <= n
        invariant out + left == all
        decreases n - |out|
      {
        var wc := TakeOldest();
        assert left == [wc] + Contents();
        left := left[1..];
        assert out + ([wc] + left) == (out + [wc]) + left;
        out := out + [wc];
      }
      drained := head == tail;
      assert drained ==> left == [];
    }

    /** The read of the eventfd after the lock is released: whatever has been written to
        it by then is gone. */
    method ReadEvent()
      modifies this`events
      ensures events == 0
    {
      events := 0;
    }

    /** `odl_poll_cq` with nothing between its two parts. */
    method Poll(n: nat) returns (out: seq<Wc>)
      requires Valid()
      modifies this`head, this`events
      ensures Valid() && out + Contents() == old(Contents())
      ensures |out| == Min(n, |old(Contents())|)
      ensures events == if out != [] && Contents() == [] then 0 else old(events)
    {
      var drained;
      out, drained := TakeUpTo(n);
      if |out| > 0 && drained {
        ReadEvent();
      }
    }
  }
}
