/** The batch buffers of throughput mode: taken from a free list, returned by the
    sender on an early error and otherwise by the last completion callback. */
module BatchPool {
  /** `Lost` buffers are on no list and owed no callback. */
  datatype Use = Free | Staged | InFlight | Lost

  /** `struct odl_tb5_batch_buf`. `armed` frames are not yet on the ring, `onRing`
      frames owe a callback, `taken` frames of this batch the ring has accepted. */
  datatype Buf = Buf(use: Use, pending: int, armed: nat, onRing: nat, taken: nat)

  datatype Pool = Pool(bufs: seq<Buf>, free: seq<nat>)

  const EMPTY := Buf(Free, 0, 0, 0, 0)

  function UpTo(n: nat): seq<nat> {
    if n == 0 then [] else UpTo(n - 1) + [n - 1]
  }

  function Fresh(n: nat): Pool {
    Pool(seq(n, i => EMPTY), UpTo(n))
  }

  datatype BufEvent =
    | Unstage
    | Arm(frames: nat)
    | Accept
    | Reject
    | Callback

  datatype Event = Get | On(b: nat, what: BufEvent)

  predicate CanBuf(u: Buf, e: BufEvent) {
    match e
    case Unstage => u.use.Staged?
    case Arm(frames) => u.use.Staged? && frames > 0
    case Accept => u.use.InFlight? && u.armed > 0
    case Reject => u.use.InFlight? && u.armed > 0
    case Callback => u.use.InFlight? && u.onRing > 0
  }

  /** What happens to one buffer. One that comes out `Free` is put back. */
  function BufStep(u: Buf, e: BufEvent): Buf
    requires CanBuf(u, e)
  {
    match e
    case Unstage => EMPTY
    case Arm(frames) => Buf(InFlight, frames, frames, 0, 0)
    case Accept => u.(armed := u.armed - 1, onRing := u.onRing + 1, taken := u.taken + 1)
    case Reject =>
      // The unsubmitted frames are taken off the count; the buffer is returned here
      // only if the very first frame was refused.
      if u.taken == 0 then EMPTY
      else
        var left := u.pending - u.armed;
        u.(pending := left, armed := 0, use := if left == 0 then Lost else InFlight)
    case Callback =>
      if u.pending - 1 == 0 then EMPTY
      else u.(pending := u.pending - 1, onRing := u.onRing - 1)
  }

  predicate Can(p: Pool, e: Event) {
    match e
    case Get => p.free != [] && p.free[0] < |p.bufs|
    case On(b, what) => b < |p.bufs| && CanBuf(p.bufs[b], what)
  }

  function Step(p: Pool, e: Event): Pool {
    if !Can(p, e) then p
    else
      match e
      case Get =>
        var b := p.free[0];
        Pool(p.bufs[b := p.bufs[b].(use := Staged)], p.free[1..])
      case On(b, what) =>
        var u := BufStep(p.bufs[b], what);
        Pool(p.bufs[b := u], if u.use.Free? then p.free + [b] else p.free)
  }

  predicate BufOk(u: Buf) {
    match u.use
    case Free => u == EMPTY
    case Staged => u == EMPTY.(use := Staged)
    case InFlight => u.pending == u.armed + u.onRing > 0 && u.onRing <= u.taken
    case Lost => u.pending == u.armed == u.onRing == 0
  }

  lemma BufStepOk(u: Buf, e: BufEvent)
    requires BufOk(u) && CanBuf(u, e)
    ensures BufOk(BufStep(u, e)) && !u.use.Free?
  {
  }

  predicate NoDuplicates(s: seq<nat>) {
    forall i, j :: 0 <= i < j < |s| ==> s[i] != s[j]
  }

  predicate BufsOk(bufs: seq<Buf>) {
    forall b :: 0 <= b < |bufs| ==> BufOk(bufs[b])
  }

  ghost predicate ListsFree(p: Pool) {
    forall b: nat :: b in p.free <==> b < |p.bufs| && p.bufs[b].use.Free?
  }

  ghost predicate PoolInv(p: Pool) {
    BufsOk(p.bufs) && NoDuplicates(p.free) && ListsFree(p)
  }

  lemma DropFirst(s: seq<nat>)
    requires NoDuplicates(s) && s != []
    ensures NoDuplicates(s[1..])
    ensures forall b: nat :: b in s[1..] <==> b in s && b != s[0]
  {
    assert s == [s[0]] + s[1..];
  }

  lemma AddLast(s: seq<nat>, b: nat)
    requires NoDuplicates(s) && b !in s
    ensures NoDuplicates(s + [b])
    ensures forall c: nat :: c in s + [b] <==> c in s || c == b
  {
  }

  lemma StepKeepsBufs(p: Pool, e: Event)
    requires BufsOk(p.bufs) && (Can(p, Get) ==> p.bufs[p.free[0]].use.Free?)
    ensures BufsOk(Step(p, e).bufs) && |Step(p, e).bufs| == |p.bufs|
  {
    if Can(p, e) && e.On? {
      BufStepOk(p.bufs[e.b], e.what);
    }
  }

  lemma StepKeepsList(p: Pool, e: Event)
    requires NoDuplicates(p.free) && ListsFree(p)
    requires Can(p, e) && e.On? ==> !p.bufs[e.b].use.Free?
    ensures NoDuplicates(Step(p, e).free) && ListsFree(Step(p, e))
  {
    if Can(p, e) {
      var p' := Step(p, e);
      match e
      case Get =>
        DropFirst(p.free);
        assert p'.free == p.free[1..];
      case On(b, what) =>
        assert b !in p.free;
        AddLast(p.free, b);
        assert p'.free == p.free || p'.free == p.free + [b];
    }
  }

  lemma StepKeepsInv(p: Pool, e: Event)
    requires PoolInv(p)
    ensures PoolInv(Step(p, e)) && |Step(p, e).bufs| == |p.bufs|
  {
    assert Can(p, Get) ==> p.free[0] in p.free;
    StepKeepsBufs(p, e);
    if Can(p, e) && e.On? {
      BufStepOk(p.bufs[e.b], e.what);
    }
    StepKeepsList(p, e);
  }

  function Run(n: nat, evs: seq<Event>): Pool {
    if evs == [] then Fresh(n) else Step(Run(n, evs[..|evs| - 1]), evs[|evs| - 1])
  }

  lemma {:induction false} UpToLists(n: nat)
    ensures NoDuplicates(UpTo(n)) && forall b: nat :: b in UpTo(n) <==> b < n
  {
    if n > 0 {
      UpToLists(n - 1);
      AddLast(UpTo(n - 1), n - 1);
    }
  }

  lemma {:induction false} RunKeepsInv(n: nat, evs: seq<Event>)
    ensures PoolInv(Run(n, evs)) && |Run(n, evs).bufs| == n
  {
    if evs == [] {
      UpToLists(n);
    } else {
      RunKeepsInv(n, evs[..|evs| - 1]);
      StepKeepsInv(Run(n, evs[..|evs| - 1]), evs[|evs| - 1]);
    }
  }

  /** Exactly when a buffer gets lost: the ring refuses a later frame of its batch
      after every frame it took has already called back. */
  predicate Loses(p: Pool, e: Event) {
    e.On? && e.what.Reject? && Can(p, e) && p.bufs[e.b].taken > 0 && p.bufs[e.b].onRing == 0
  }

  predicate NeverLoses(n: nat, evs: seq<Event>) {
    evs == [] ||
    (NeverLoses(n, evs[..|evs| - 1]) && !Loses(Run(n, evs[..|evs| - 1]), evs[|evs| - 1]))
  }

  lemma BufStepEnds(u: Buf, e: BufEvent)
    requires BufOk(u) && CanBuf(u, e)
    ensures !u.use.Free? && !u.use.Lost?
    ensures BufStep(u, e).use.Free? ==> u.use.Staged? || u.onRing == 0 || (u.armed == 0 && u.onRing == 1)
    ensures BufStep(u, e).use.Lost? <==> e.Reject? && u.taken > 0 && u.onRing == 0
  {
    match e
    case Unstage =>
    case Arm(frames) =>
    case Accept =>
    case Reject =>
    case Callback =>
  }

  /** How one event may end the use of buffer `b`. */
  predicate EndsWell(p: Pool, e: Event, b: nat, u': Buf)
    requires b < |p.bufs|
  {
    var u := p.bufs[b];
    && (u'.use.Free? && !u.use.Free? ==>
          u.use.Staged? || u.onRing == 0 || (u.armed == 0 && u.onRing == 1))
    && (u'.use.Lost? && !u.use.Lost? <==> Loses(p, e) && e.b == b)
    && (u.use.Lost? ==> u'.use.Lost?)
  }

  lemma EventEndsWell(p: Pool, e: Event, b: nat)
    requires BufsOk(p.bufs) && b < |p.bufs|
    requires Can(p, Get) ==> p.bufs[p.free[0]].use.Free?
    ensures |Step(p, e).bufs| == |p.bufs| && EndsWell(p, e, b, Step(p, e).bufs[b])
  {
    if Can(p, e) {
      match e
      case Get => assert !Step(p, e).bufs[b].use.Lost? || p.bufs[b].use.Lost?;
      case On(c, what) => BufStepEnds(p.bufs[c], what);
    }
  }

  /** A buffer is put back at most once and only with nothing of its batch left: it
      was staged, or had nothing on the ring, or this was its last callback. It is
      lost exactly when `Loses` says so, and then for good. */
  lemma BufferSteps(p: Pool, e: Event, b: nat)
    requires PoolInv(p) && b < |p.bufs|
    ensures |Step(p, e).bufs| == |p.bufs| && EndsWell(p, e, b, Step(p, e).bufs[b])
    ensures Step(p, e).bufs[b].use.Free? && !p.bufs[b].use.Free? ==> b !in p.free
  {
    assert Can(p, Get) ==> p.free[0] in p.free;
    EventEndsWell(p, e, b);
  }

  /** An early error of the sender, and a refusal of the very first frame, put the buffer
      back at the end of the free list. */
  lemma EarlyErrorReturns(p: Pool, b: nat, e: BufEvent)
    requires PoolInv(p) && b < |p.bufs|
    requires (e.Unstage? && p.bufs[b].use.Staged?) ||
             (e.Reject? && p.bufs[b].use.InFlight? && p.bufs[b].armed > 0 && p.bufs[b].taken == 0)
    ensures Step(p, On(b, e)).free == p.free + [b] && b !in p.free
    ensures Step(p, On(b, e)).bufs == p.bufs[b := EMPTY] && EMPTY.use.Free?
  {
  }

  predicate AnyLost(bufs: seq<Buf>) {
    exists b :: 0 <= b < |bufs| && bufs[b].use.Lost?
  }

  lemma LossStep(p: Pool, e: Event)
    requires PoolInv(p)
    ensures AnyLost(Step(p, e).bufs) <==> AnyLost(p.bufs) || Loses(p, e)
  {
    var p' := Step(p, e);
    StepKeepsInv(p, e);
    if AnyLost(p.bufs) {
      var b :| 0 <= b < |p.bufs| && p.bufs[b].use.Lost?;
      BufferSteps(p, e, b);
      assert p'.bufs[b].use.Lost?;
    } else if Loses(p, e) {
      assert p'.bufs[e.b].use.Lost?;
    } else if AnyLost(p'.bufs) {
      var b :| 0 <= b < |p'.bufs| && p'.bufs[b].use.Lost?;
      BufferSteps(p, e, b);
    }
  }

  /** A run has lost a buffer if and only if one of its rejections came too late. */
  lemma {:induction false} LossIsExact(n: nat, evs: seq<Event>)
    ensures AnyLost(Run(n, evs).bufs) <==> !NeverLoses(n, evs)
  {
    if evs != [] {
      var m := |evs| - 1;
      LossIsExact(n, evs[..m]);
      RunKeepsInv(n, evs[..m]);
      LossStep(Run(n, evs[..m]), evs[m]);
    }
  }

  /** Conservation: once a buffer is neither staged nor owed a callback, it is back on
      the free list, once, unless a rejection came too late. */
  lemma AllBuffersReturn(n: nat, evs: seq<Event>, b: nat)
    requires b < n && NeverLoses(n, evs) && b < |Run(n, evs).bufs|
    requires var u := Run(n, evs).bufs[b]; !u.use.Staged? && u.armed == 0 && u.onRing == 0
    ensures b in Run(n, evs).free && NoDuplicates(Run(n, evs).free)
  {
    RunKeepsInv(n, evs);
    LossIsExact(n, evs);
  }

  /** The loss is real: a batch of two whose first frame completes before the second
      is refused leaves a buffer that no event can touch. */
  lemma LateRejectionLosesTheBuffer(u: Buf)
    requires u.use.Staged?
    ensures var u1 := BufStep(u, Arm(2));
            var u2 := BufStep(u1, Accept);
            var u3 := BufStep(u2, Callback);
            var u4 := BufStep(u3, Reject);
            u4.use.Lost? && u4.pending == 0 && forall e :: !CanBuf(u4, e)
  {
  }

  /** A staged buffer may be put back or left in flight. */
  lemma SettleKeepsInv(p: Pool, b: nat, u: Buf)
    requires PoolInv(p) && b < |p.bufs| && p.bufs[b].use.Staged?
    requires BufOk(u) && (u.use.Free? || u.use.InFlight?)
    ensures PoolInv(Pool(p.bufs[b := u], if u.use.Free? then p.free + [b] else p.free))
  {
    assert b !in p.free;
    AddLast(p.free, b);
  }

  /** `struct odl_tb5_batch_pool` and the users of its buffers. */
  class BatchBuffers {
    var bufs: seq<Buf>
    var free: seq<nat>

    ghost function View(): Pool
      reads this
    {
      Pool(bufs, free)
    }

    constructor (n: nat)
      ensures View() == Fresh(n) && PoolInv(View())
    {
      bufs, free := seq(n, i => EMPTY), UpTo(n);
      new;
      UpToLists(n);
    }

    /** `odl_tb5_batch_pool_get`; the count of buffers stands for none. */
    method TakeBuffer() returns (b: nat)
      requires PoolInv(View())
      modifies this
      ensures View() == Step(old(View()), Get) && PoolInv(View())
      ensures old(free) == [] ==> b == |bufs|
      ensures old(free) != [] ==> b == old(free)[0] < |bufs| && bufs[b].use.Staged?
    {
      StepKeepsInv(View(), Get);
      if free == [] {
        return |bufs|;
      }
      assert free[0] in free;
      b := free[0];
      free := free[1..];
      bufs := bufs[b := bufs[b].(use := Staged)];
    }

    /** The buffer part of `odl_tb5_tx_batch_callback`. */
    method OnCallback(b: nat)
      requires PoolInv(View()) && b < |bufs| && CanBuf(bufs[b], Callback)
      modifies this
      ensures View() == Step(old(View()), On(b, Callback)) && PoolInv(View())
    {
      StepKeepsInv(View(), On(b, Callback));
      var u := bufs[b];
      bufs := bufs[b := u.(pending := u.pending - 1, onRing := u.onRing - 1)];
      if bufs[b].pending == 0 {
        bufs := bufs[b := EMPTY];
        free := free + [b];
      }
    }

    /** Arming and submitting a staged batch, when no callback intervenes: then no
        rejection can lose the buffer. */
    method SubmitBatch(b: nat, n: nat, accepted: nat -> bool) returns (taken: nat)
      requires PoolInv(View()) && b < |bufs| && bufs[b].use.Staged? && n > 0
      modifies this
      ensures taken <= n && (taken < n ==> !accepted(taken)) && forall i: nat :: i < taken ==> accepted(i)
      ensures bufs == old(bufs)[b := if taken == 0 then EMPTY else Buf(InFlight, taken, 0, taken, taken)]
      ensures free == if taken == 0 then old(free) + [b] else old(free)
      ensures PoolInv(View())
    {
      ghost var p := View();
      SettleKeepsInv(p, b, EMPTY);
      bufs := bufs[b := Buf(InFlight, n, n, 0, 0)];
      taken := 0;
      while taken < n
        invariant 0 <= taken <= n && forall i: nat :: i < taken ==> accepted(i)
        invariant bufs == old(bufs)[b := Buf(InFlight, n, n - taken, taken, taken)] && free == old(free)
      {
        var u := bufs[b];
        if !accepted(taken) {
          if taken == 0 {
            bufs := bufs[b := EMPTY];
            free := free + [b];
          } else {
            bufs := bufs[b := u.(pending := u.pending - (n - taken), armed := 0)];
            SettleKeepsInv(p, b, bufs[b]);
          }
          return;
        }
        bufs := bufs[b := u.(armed := u.armed - 1, onRing := u.onRing + 1, taken := u.taken + 1)];
        taken := taken + 1;
      }
      SettleKeepsInv(p, b, bufs[b]);
    }
  }
}
