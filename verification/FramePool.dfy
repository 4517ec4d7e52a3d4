/** The frame pool that transmit and receive share, and the loops that keep the
    receive ring filled from it. Any number of those may run at once. */
module FramePool {
  import opened Base

  // ---- Slots ----

  /** Who may touch a slot. A slot is on the receive ring until its callback has taken
      it off the posted count. */
  datatype Owner = InPool | Sender | TxRing | RxRing | Callback | Reposting(r: nat)

  /** The pool bitmap and counter, with the owner of each slot as history. */
  datatype Slots = Slots(used: seq<bool>, freeCount: int, owner: seq<Owner>)

  function ClearBits(used: seq<bool>): nat {
    if used == [] then 0
    else ClearBits(used[..|used| - 1]) + if used[|used| - 1] then 0 else 1
  }

  function FirstClear(used: seq<bool>, from: nat): (i: nat)
    requires from <= |used|
    ensures from <= i <= |used| && (i < |used| ==> !used[i])
    ensures forall j :: from <= j < i ==> used[j]
    decreases |used| - from
  {
    if from == |used| || !used[from] then from else FirstClear(used, from + 1)
  }

  function OnRing(owner: seq<Owner>): nat {
    if owner == [] then 0
    else OnRing(owner[..|owner| - 1]) + if owner[|owner| - 1].RxRing? then 1 else 0
  }

  predicate Owns(s: Slots, i: nat, o: Owner) {
    i < |s.used| && i < |s.owner| && s.owner[i] == o
  }

  predicate HasClear(s: Slots) {
    |s.owner| == |s.used| && FirstClear(s.used, 0) < |s.used|
  }

  function Take(s: Slots, o: Owner): Slots
    requires HasClear(s)
  {
    var i := FirstClear(s.used, 0);
    Slots(s.used[i := true], s.freeCount - 1, s.owner[i := o])
  }

  function Give(s: Slots, i: nat): Slots
    requires i < |s.used| && i < |s.owner|
  {
    Slots(s.used[i := false], s.freeCount + 1, s.owner[i := InPool])
  }

  function Pass(s: Slots, i: nat, o: Owner): Slots
    requires i < |s.owner|
  {
    s.(owner := s.owner[i := o])
  }

  /** A slot's bit is set exactly while someone owns it, and the counter is right. */
  predicate SlotsOk(s: Slots) {
    && |s.owner| == |s.used|
    && (forall i :: 0 <= i < |s.used| ==> (s.used[i] <==> !s.owner[i].InPool?))
    && s.freeCount == ClearBits(s.used)
  }

  lemma {:induction false} ClearBitsAfter(used: seq<bool>, i: nat, b: bool)
    requires i < |used| && used[i] != b
    ensures ClearBits(used[i := b]) == ClearBits(used) + if b then -1 else 1
  {
    var n := |used| - 1;
    if i == n {
      assert used[i := b][..n] == used[..n];
    } else {
      ClearBitsAfter(used[..n], i, b);
      assert used[i := b][..n] == used[..n][i := b];
    }
  }

  lemma {:induction false} OnRingAfter(owner: seq<Owner>, i: nat, o: Owner)
    requires i < |owner|
    ensures OnRing(owner[i := o]) ==
            OnRing(owner) + (if o.RxRing? then 1 else 0) - (if owner[i].RxRing? then 1 else 0)
  {
    var n := |owner| - 1;
    if i == n {
      assert owner[i := o][..n] == owner[..n];
    } else {
      OnRingAfter(owner[..n], i, o);
      assert owner[i := o][..n] == owner[..n][i := o];
    }
  }

  lemma TakeKeepsSlots(s: Slots, o: Owner)
    requires SlotsOk(s) && HasClear(s) && !o.InPool? && !o.RxRing?
    ensures SlotsOk(Take(s, o)) && OnRing(Take(s, o).owner) == OnRing(s.owner)
    ensures s.owner[FirstClear(s.used, 0)].InPool?
  {
    var i := FirstClear(s.used, 0);
    ClearBitsAfter(s.used, i, true);
    OnRingAfter(s.owner, i, o);
  }

  lemma GiveKeepsSlots(s: Slots, i: nat)
    requires SlotsOk(s) && i < |s.used| && !s.owner[i].InPool? && !s.owner[i].RxRing?
    ensures SlotsOk(Give(s, i)) && OnRing(Give(s, i).owner) == OnRing(s.owner)
  {
    ClearBitsAfter(s.used, i, false);
    OnRingAfter(s.owner, i, InPool);
  }

  lemma PassKeepsSlots(s: Slots, i: nat, o: Owner)
    requires SlotsOk(s) && i < |s.used| && !s.owner[i].InPool? && !o.InPool?
    ensures SlotsOk(Pass(s, i, o))
    ensures OnRing(Pass(s, i, o).owner) ==
            OnRing(s.owner) + (if o.RxRing? then 1 else 0) - (if s.owner[i].RxRing? then 1 else 0)
  {
    OnRingAfter(s.owner, i, o);
  }

  // ---- Reposts ----

  datatype Stage = Looping | Holding(slot: nat) | Refused(slot: nat) | Submitted | Done

  /** One call of `odl_tb5_rx_repost`: its two locals and where it is, with history.
      `ahead` counts the frames it does not know of: those on the ring but not in the
      counter when it read it, and those other calls have put there since. `others` is
      what other calls have added to the counter since, less what was erased from it, and
      `gone` the number of receive callbacks. */
  datatype Local = Local(posted: int, target: nat, stage: Stage, ahead: int, others: int, gone: nat)

  function Uncounted(ls: seq<Local>): nat {
    if ls == [] then 0
    else Uncounted(ls[..|ls| - 1]) + if ls[|ls| - 1].stage.Submitted? then 1 else 0
  }

  /** Call `r` becomes `l`; every other call falls behind as told. */
  function Moved(ls: seq<Local>, r: nat, l: Local, submitted: nat, counted: nat): seq<Local> {
    seq(|ls|, i requires 0 <= i < |ls| =>
      if i == r then l else ls[i].(ahead := ls[i].ahead + submitted, others := ls[i].others + counted))
  }

  function AllLose(ls: seq<Local>): seq<Local> {
    seq(|ls|, i requires 0 <= i < |ls| => ls[i].(gone := ls[i].gone + 1))
  }

  function AllErased(ls: seq<Local>, k: int): seq<Local> {
    seq(|ls|, i requires 0 <= i < |ls| => ls[i].(others := ls[i].others - k))
  }

  lemma {:induction false} SameStages(xs: seq<Local>, ys: seq<Local>)
    requires |xs| == |ys| && forall i :: 0 <= i < |xs| ==> xs[i].stage == ys[i].stage
    ensures Uncounted(xs) == Uncounted(ys)
  {
    if xs != [] {
      SameStages(xs[..|xs| - 1], ys[..|ys| - 1]);
    }
  }

  lemma {:induction false} UncountedAfter(ls: seq<Local>, r: nat, l: Local)
    requires r < |ls|
    ensures Uncounted(ls[r := l]) ==
            Uncounted(ls) + (if l.stage.Submitted? then 1 else 0) - (if ls[r].stage.Submitted? then 1 else 0)
  {
    var n := |ls| - 1;
    if r == n {
      assert ls[r := l][..n] == ls[..n];
    } else {
      UncountedAfter(ls[..n], r, l);
      assert ls[r := l][..n] == ls[..n][r := l];
    }
  }

  lemma MovedUncounted(ls: seq<Local>, r: nat, l: Local, submitted: nat, counted: nat)
    requires r < |ls|
    ensures Uncounted(Moved(ls, r, l, submitted, counted)) ==
            Uncounted(ls) + (if l.stage.Submitted? then 1 else 0) - (if ls[r].stage.Submitted? then 1 else 0)
  {
    UncountedAfter(ls, r, l);
    SameStages(Moved(ls, r, l, submitted, counted), ls[r := l]);
  }

  // ---- The device ----

  /** `erased` is history: the counts lost when the counter was set to zero. */
  datatype Pool = Pool(slots: Slots, rxPosted: int, rxTarget: nat, erased: int, calls: seq<Local>)

  function Fresh(size: nat): Pool {
    Pool(Slots(seq(size, i => false), size, seq(size, i => InPool)), 0, 0, 0, [])
  }

  datatype RepostStep = Gets | Submits(accepted: bool) | Counts | PutsBack

  datatype Event =
    | SenderGets
    | SenderPuts(i: nat)
    | SenderSubmits(i: nat)
    | TxCallback(i: nat)
    | RxCallback(i: nat)
    | CallbackPuts(i: nat)
    | StreamOpens
    | VerifyBegins
    | TargetCleared
    | CounterCleared
    | RepostBegins
    | Repost(r: nat, step: RepostStep)

  predicate HasSlot(l: Local) {
    l.stage.Holding? || l.stage.Refused?
  }

  predicate CanRepost(l: Local, step: RepostStep) {
    match step
    case Gets => l.stage.Looping?
    case Submits(_) => l.stage.Holding?
    case Counts => l.stage.Submitted?
    case PutsBack => l.stage.Refused?
  }

  predicate Can(p: Pool, e: Event) {
    match e
    case SenderGets => HasClear(p.slots)
    case SenderPuts(i) => Owns(p.slots, i, Sender)
    case SenderSubmits(i) => Owns(p.slots, i, Sender)
    case TxCallback(i) => Owns(p.slots, i, TxRing)
    case RxCallback(i) => Owns(p.slots, i, RxRing)
    case CallbackPuts(i) => Owns(p.slots, i, Callback)
    case StreamOpens => true
    case VerifyBegins => true
    case TargetCleared => true
    case CounterCleared => true
    case RepostBegins => true
    case Repost(r, step) =>
      r < |p.calls| && CanRepost(p.calls[r], step) &&
      (HasSlot(p.calls[r]) ==> Owns(p.slots, p.calls[r].stage.slot, Reposting(r)))
  }

  /** One atomic operation of call `r`. */
  function RepostStepped(p: Pool, r: nat, step: RepostStep): Pool
    requires Can(p, Repost(r, step))
  {
    var l := p.calls[r];
    match step
    case Gets =>
      if l.posted >= l.target || !HasClear(p.slots)
      then p.(calls := Moved(p.calls, r, l.(stage := Done), 0, 0))
      else p.(slots := Take(p.slots, Reposting(r)),
              calls := Moved(p.calls, r, l.(stage := Holding(FirstClear(p.slots.used, 0))), 0, 0))
    case Submits(accepted) =>
      if accepted
      then p.(slots := Pass(p.slots, l.stage.slot, RxRing),
              calls := Moved(p.calls, r, l.(stage := Submitted), 1, 0))
      else p.(calls := Moved(p.calls, r, l.(stage := Refused(l.stage.slot)), 0, 0))
    case Counts =>
      p.(rxPosted := p.rxPosted + 1,
         calls := Moved(p.calls, r, l.(stage := Looping, posted := l.posted + 1), 0, 1))
    case PutsBack =>
      p.(slots := Give(p.slots, l.stage.slot), calls := Moved(p.calls, r, l.(stage := Done), 0, 0))
  }

  function Begun(p: Pool): Local {
    Local(p.rxPosted, p.rxTarget, Looping, Uncounted(p.calls) + p.erased, 0, 0)
  }

  function Step(p: Pool, e: Event): Pool {
    if !Can(p, e) then p
    else
      match e
      case SenderGets => p.(slots := Take(p.slots, Sender))
      case SenderPuts(i) => p.(slots := Give(p.slots, i))
      case SenderSubmits(i) => p.(slots := Pass(p.slots, i, TxRing))
      case TxCallback(i) => p.(slots := Give(p.slots, i))
      case RxCallback(i) =>
        p.(slots := Pass(p.slots, i, Callback), rxPosted := p.rxPosted - 1, calls := AllLose(p.calls))
      case CallbackPuts(i) => p.(slots := Give(p.slots, i))
      case StreamOpens => if p.rxTarget == 0 then p.(rxTarget := |p.slots.used| / 2) else p
      case VerifyBegins => p.(rxTarget := |p.slots.used| / 2)
      case TargetCleared => p.(rxTarget := 0)
      case CounterCleared =>
        p.(rxPosted := 0, erased := p.erased + p.rxPosted, calls := AllErased(p.calls, p.rxPosted))
      case RepostBegins => p.(calls := p.calls + [Begun(p)])
      case Repost(r, step) => RepostStepped(p, r, step)
  }

  // ---- Conservation ----

  /** A call's locals against the truth: what it believes is posted, plus what it does
      not know of, less what has come back. */
  predicate LocalOk(l: Local, r: nat, slots: Slots, rxPosted: int) {
    && OnRing(slots.owner) == l.posted + (if l.stage.Submitted? then 1 else 0) + l.ahead - l.gone
    && rxPosted == l.posted + l.others - l.gone
    && (HasSlot(l) || l.stage.Submitted? ==> l.posted < l.target)
    && (HasSlot(l) ==> Owns(slots, l.stage.slot, Reposting(r)))
  }

  predicate CallsOk(p: Pool) {
    forall r :: 0 <= r < |p.calls| ==> LocalOk(p.calls[r], r, p.slots, p.rxPosted)
  }

  predicate PoolInv(p: Pool) {
    && SlotsOk(p.slots) && CallsOk(p)
    && p.rxPosted + Uncounted(p.calls) + p.erased == OnRing(p.slots.owner)
  }

  /** The calls fit new slots that only moved a slot no call holds. */
  lemma SlotsChange(p: Pool, s: Slots, i: nat)
    requires CallsOk(p) && |s.owner| == |s.used| == |p.slots.used| == |p.slots.owner|
    requires i < |s.owner| && !p.slots.owner[i].Reposting? && OnRing(s.owner) == OnRing(p.slots.owner)
    requires forall j :: 0 <= j < |s.owner| && j != i ==> s.owner[j] == p.slots.owner[j]
    ensures CallsOk(p.(slots := s))
  {
    forall r | 0 <= r < |p.calls|
      ensures LocalOk(p.calls[r], r, s, p.rxPosted)
    {
      assert LocalOk(p.calls[r], r, p.slots, p.rxPosted);
    }
  }

  lemma SenderKeepsInv(p: Pool, e: Event)
    requires PoolInv(p) && Can(p, e)
    requires e.SenderGets? || e.SenderPuts? || e.SenderSubmits? || e.TxCallback? || e.CallbackPuts?
    ensures PoolInv(Step(p, e))
  {
    match e
    case SenderGets =>
      TakeKeepsSlots(p.slots, Sender);
      SlotsChange(p, Take(p.slots, Sender), FirstClear(p.slots.used, 0));
    case SenderSubmits(i) =>
      PassKeepsSlots(p.slots, i, TxRing);
      SlotsChange(p, Pass(p.slots, i, TxRing), i);
    case SenderPuts(i) =>
      GiveKeepsSlots(p.slots, i);
      SlotsChange(p, Give(p.slots, i), i);
    case TxCallback(i) =>
      GiveKeepsSlots(p.slots, i);
      SlotsChange(p, Give(p.slots, i), i);
    case CallbackPuts(i) =>
      GiveKeepsSlots(p.slots, i);
      SlotsChange(p, Give(p.slots, i), i);
  }

  lemma CallbackKeepsInv(p: Pool, i: nat)
    requires PoolInv(p) && Can(p, RxCallback(i))
    ensures PoolInv(Step(p, RxCallback(i)))
  {
    var p' := Step(p, RxCallback(i));
    PassKeepsSlots(p.slots, i, Callback);
    SameStages(p'.calls, p.calls);
    forall r | 0 <= r < |p'.calls|
      ensures LocalOk(p'.calls[r], r, p'.slots, p'.rxPosted)
    {
      assert LocalOk(p.calls[r], r, p.slots, p.rxPosted);
    }
  }

  lemma BegunIsOk(p: Pool)
    requires PoolInv(p)
    ensures LocalOk(Begun(p), |p.calls|, p.slots, p.rxPosted) && Uncounted(p.calls + [Begun(p)]) == Uncounted(p.calls)
  {
    assert (p.calls + [Begun(p)])[..|p.calls|] == p.calls;
  }

  lemma BeginKeepsInv(p: Pool)
    requires PoolInv(p)
    ensures PoolInv(p.(calls := p.calls + [Begun(p)]))
  {
    BegunIsOk(p);
  }

  lemma ClearKeepsInv(p: Pool)
    requires PoolInv(p)
    ensures PoolInv(Step(p, CounterCleared))
  {
    var p' := Step(p, CounterCleared);
    SameStages(p'.calls, p.calls);
    forall r | 0 <= r < |p'.calls|
      ensures LocalOk(p'.calls[r], r, p'.slots, p'.rxPosted)
    {
      assert LocalOk(p.calls[r], r, p.slots, p.rxPosted);
    }
  }

  lemma TargetKeepsInv(p: Pool, e: Event)
    requires PoolInv(p) && (e.StreamOpens? || e.VerifyBegins? || e.TargetCleared?)
    ensures PoolInv(Step(p, e))
  {
    var p' := Step(p, e);
    forall r | 0 <= r < |p'.calls|
      ensures LocalOk(p'.calls[r], r, p'.slots, p'.rxPosted)
    {
      assert LocalOk(p.calls[r], r, p.slots, p.rxPosted);
    }
  }

  lemma RepostKeepsSlots(p: Pool, r: nat, step: RepostStep)
    requires PoolInv(p) && Can(p, Repost(r, step))
    ensures var p' := RepostStepped(p, r, step);
            && SlotsOk(p'.slots) && p'.rxPosted + Uncounted(p'.calls) + p'.erased == OnRing(p'.slots.owner)
            && OnRing(p'.slots.owner) ==
               OnRing(p.slots.owner) + if step.Submits? && step.accepted then 1 else 0
  {
    var l, l' := p.calls[r], RepostStepped(p, r, step).calls[r];
    assert LocalOk(l, r, p.slots, p.rxPosted);
    MovedUncounted(p.calls, r, l', if step.Submits? && step.accepted then 1 else 0, if step.Counts? then 1 else 0);
    match step
    case Gets =>
      if l.posted < l.target && HasClear(p.slots) {
        TakeKeepsSlots(p.slots, Reposting(r));
      }
    case Submits(accepted) =>
      if accepted {
        PassKeepsSlots(p.slots, l.stage.slot, RxRing);
      }
    case Counts =>
    case PutsBack => GiveKeepsSlots(p.slots, l.stage.slot);
  }

  lemma OwnCallMoves(p: Pool, r: nat, step: RepostStep)
    requires PoolInv(p) && Can(p, Repost(r, step))
    ensures var p' := RepostStepped(p, r, step); LocalOk(p'.calls[r], r, p'.slots, p'.rxPosted)
  {
    RepostKeepsSlots(p, r, step);
    assert LocalOk(p.calls[r], r, p.slots, p.rxPosted);
    match step
    case Gets =>
    case Submits(accepted) =>
    case Counts =>
    case PutsBack =>
  }

  lemma OtherCallStays(p: Pool, r: nat, step: RepostStep, k: nat)
    requires PoolInv(p) && Can(p, Repost(r, step)) && k < |p.calls| && k != r
    ensures var p' := RepostStepped(p, r, step); LocalOk(p'.calls[k], k, p'.slots, p'.rxPosted)
  {
    RepostKeepsSlots(p, r, step);
    assert LocalOk(p.calls[k], k, p.slots, p.rxPosted);
    match step
    case Gets =>
      if p.calls[r].posted < p.calls[r].target && HasClear(p.slots) {
        TakeKeepsSlots(p.slots, Reposting(r));
      }
    case Submits(accepted) =>
    case Counts =>
    case PutsBack =>
  }

  lemma StepKeepsInv(p: Pool, e: Event)
    requires PoolInv(p)
    ensures PoolInv(Step(p, e)) && |Step(p, e).slots.used| == |p.slots.used|
  {
    if Can(p, e) {
      match e
      case RxCallback(i) => CallbackKeepsInv(p, i);
      case StreamOpens => TargetKeepsInv(p, e);
      case VerifyBegins => TargetKeepsInv(p, e);
      case TargetCleared => TargetKeepsInv(p, e);
      case CounterCleared => ClearKeepsInv(p);
      case RepostBegins =>
        assert Step(p, e) == p.(calls := p.calls + [Begun(p)]);
        BeginKeepsInv(p);
      case Repost(r, step) =>
        RepostKeepsSlots(p, r, step);
        forall k | 0 <= k < |p.calls|
          ensures var p' := RepostStepped(p, r, step); LocalOk(p'.calls[k], k, p'.slots, p'.rxPosted)
        {
          if k == r {
            OwnCallMoves(p, r, step);
          } else {
            OtherCallStays(p, r, step, k);
          }
        }
      case _ => SenderKeepsInv(p, e);
    }
  }

  function Run(size: nat, evs: seq<Event>): Pool {
    if evs == [] then Fresh(size) else Step(Run(size, evs[..|evs| - 1]), evs[|evs| - 1])
  }

  lemma {:induction false} FreshIsClear(size: nat)
    ensures ClearBits(seq(size, i => false)) == size && OnRing(seq(size, i => InPool)) == 0
  {
    if size > 0 {
      FreshIsClear(size - 1);
      assert seq(size, i => false)[..size - 1] == seq(size - 1, i => false);
      assert seq(size, i => InPool)[..size - 1] == seq(size - 1, i => InPool);
    }
  }

  /** Pool conservation: in every run, however many reposts overlap, each slot's bit is
      set exactly while it has an owner, the free count is the number of clear bits, and
      the posted count falls short of the slots on the receive ring by exactly the frames
      submitted and not yet counted and those erased from it. */
  lemma {:induction false} PoolConservation(size: nat, evs: seq<Event>)
    ensures PoolInv(Run(size, evs)) && |Run(size, evs).slots.used| == size
  {
    if evs == [] {
      FreshIsClear(size);
    } else {
      PoolConservation(size, evs[..|evs| - 1]);
      StepKeepsInv(Run(size, evs[..|evs| - 1]), evs[|evs| - 1]);
    }
  }

  lemma {:induction false} NoneOnRing(owner: seq<Owner>)
    requires forall i :: 0 <= i < |owner| ==> owner[i].InPool?
    ensures OnRing(owner) == 0
  {
    if owner != [] {
      NoneOnRing(owner[..|owner| - 1]);
    }
  }

  /** When no one owns a slot the whole pool is free, and the posted count is zero but
      for increments still to come and counts erased. */
  lemma QuiescentPoolIsFull(size: nat, evs: seq<Event>)
    requires var o := Run(size, evs).slots.owner; forall i :: 0 <= i < |o| ==> o[i].InPool?
    ensures var p := Run(size, evs); p.slots.freeCount == size && p.rxPosted + Uncounted(p.calls) + p.erased == 0
  {
    PoolConservation(size, evs);
    var p := Run(size, evs);
    assert p.slots.used == seq(size, i => false);
    FreshIsClear(size);
    NoneOnRing(p.slots.owner);
  }

  // ---- No frame is lost ----

  /** Whose a slot is after an event: only the slot that the event names, finds or carries
      changes hands, and each event hands it on in one way. */
  lemma SlotMoves(p: Pool, e: Event, i: nat)
    requires PoolInv(p) && Can(p, e) && i < |p.slots.used|
    ensures |Step(p, e).slots.owner| == |p.slots.owner|
    ensures Step(p, e).slots.owner[i] ==
            match e
            case SenderGets => if i == FirstClear(p.slots.used, 0) then Sender else p.slots.owner[i]
            case SenderPuts(k) => if i == k then InPool else p.slots.owner[i]
            case SenderSubmits(k) => if i == k then TxRing else p.slots.owner[i]
            case TxCallback(k) => if i == k then InPool else p.slots.owner[i]
            case RxCallback(k) => if i == k then Callback else p.slots.owner[i]
            case CallbackPuts(k) => if i == k then InPool else p.slots.owner[i]
            case Repost(r, Gets) =>
              if p.calls[r].posted < p.calls[r].target && i == FirstClear(p.slots.used, 0)
              then Reposting(r) else p.slots.owner[i]
            case Repost(r, Submits(true)) => if i == p.calls[r].stage.slot then RxRing else p.slots.owner[i]
            case Repost(r, PutsBack) => if i == p.calls[r].stage.slot then InPool else p.slots.owner[i]
            case _ => p.slots.owner[i]
  {
  }

  /** Where a call goes: it ends when the target is reached or the pool is empty, or when the
      ring has refused its frame and that is back in the pool. */
  lemma RepostMoves(p: Pool, r: nat, step: RepostStep)
    requires Can(p, Repost(r, step))
    ensures Step(p, Repost(r, step)).calls[r].stage ==
            match step
            case Gets =>
              if p.calls[r].posted >= p.calls[r].target || !HasClear(p.slots) then Done
              else Holding(FirstClear(p.slots.used, 0))
            case Submits(accepted) => if accepted then Submitted else Refused(p.calls[r].stage.slot)
            case Counts => Looping
            case PutsBack => Done
  {
  }

  /** The counter moves by one for each frame counted or received, and is zeroed. */
  lemma CounterMoves(p: Pool, e: Event)
    ensures Step(p, e).rxPosted ==
            if e.CounterCleared? then 0
            else if e.Repost? && e.step.Counts? && Can(p, e) then p.rxPosted + 1
            else if e.RxCallback? && Can(p, e) then p.rxPosted - 1
            else p.rxPosted
  {
  }

  predicate Holds(ls: seq<Local>, r: nat, i: nat) {
    r < |ls| && HasSlot(ls[r]) && ls[r].stage.slot == i
  }

  /** A slot taken for a repost is in the hands of that call. */
  predicate HeldOk(p: Pool) {
    forall i :: 0 <= i < |p.slots.owner| && p.slots.owner[i].Reposting? ==>
      Holds(p.calls, p.slots.owner[i].r, i)
  }

  lemma RepostKeepsHeld(p: Pool, r: nat, step: RepostStep)
    requires PoolInv(p) && HeldOk(p) && Can(p, Repost(r, step))
    ensures HeldOk(RepostStepped(p, r, step))
  {
    var p' := RepostStepped(p, r, step);
    forall i | 0 <= i < |p'.slots.owner| && p'.slots.owner[i].Reposting?
      ensures Holds(p'.calls, p'.slots.owner[i].r, i)
    {
      SlotMoves(p, Repost(r, step), i);
    }
  }

  lemma StepKeepsHeld(p: Pool, e: Event)
    requires PoolInv(p) && HeldOk(p)
    ensures HeldOk(Step(p, e))
  {
    if Can(p, e) {
      if e.Repost? {
        RepostKeepsHeld(p, e.r, e.step);
      } else {
        var p' := Step(p, e);
        forall i | 0 <= i < |p'.slots.owner| && p'.slots.owner[i].Reposting?
          ensures Holds(p'.calls, p'.slots.owner[i].r, i)
        {
          SlotMoves(p, e, i);
        }
      }
    }
  }

  lemma {:induction false} RunKeepsHeld(size: nat, evs: seq<Event>)
    ensures HeldOk(Run(size, evs))
  {
    if evs != [] {
      RunKeepsHeld(size, evs[..|evs| - 1]);
      PoolConservation(size, evs[..|evs| - 1]);
      StepKeepsHeld(Run(size, evs[..|evs| - 1]), evs[|evs| - 1]);
    }
  }

  /** What brings a slot back to the pool, whoever has it. */
  function WayBack(p: Pool, i: nat): seq<Event>
    requires HeldOk(p) && i < |p.slots.owner|
  {
    match p.slots.owner[i]
    case InPool => []
    case Sender => [SenderPuts(i)]
    case TxRing => [TxCallback(i)]
    case RxRing => [RxCallback(i), CallbackPuts(i)]
    case Callback => [CallbackPuts(i)]
    case Reposting(r) =>
      if p.calls[r].stage.Holding? then [Repost(r, Submits(false)), Repost(r, PutsBack)] else [Repost(r, PutsBack)]
  }

  function After(p: Pool, evs: seq<Event>): Pool
    decreases |evs|
  {
    if evs == [] then p else After(Step(p, evs[0]), evs[1..])
  }

  lemma {:induction false} AfterKeepsInv(p: Pool, evs: seq<Event>)
    requires PoolInv(p)
    ensures PoolInv(After(p, evs))
    decreases |evs|
  {
    if evs != [] {
      StepKeepsInv(p, evs[0]);
      AfterKeepsInv(Step(p, evs[0]), evs[1..]);
    }
  }

  lemma {:induction false} AfterKeepsHeld(p: Pool, evs: seq<Event>)
    requires PoolInv(p) && HeldOk(p)
    ensures HeldOk(After(p, evs))
    decreases |evs|
  {
    if evs != [] {
      StepKeepsInv(p, evs[0]);
      StepKeepsHeld(p, evs[0]);
      AfterKeepsHeld(Step(p, evs[0]), evs[1..]);
    }
  }

  lemma AfterFew(p: Pool, e: Event, f: Event)
    ensures After(p, []) == p && After(p, [e]) == Step(p, e) && After(p, [e, f]) == Step(Step(p, e), f)
  {
    assert [e][1..] == [] && [e, f][1..] == [f] && [f][1..] == [];
    assert After(Step(p, e), [f]) == Step(Step(p, e), f);
  }

  lemma RepostGivesBack(p: Pool, r: nat, i: nat)
    requires PoolInv(p) && i < |p.slots.owner| && p.slots.owner[i] == Reposting(r) && Holds(p.calls, r, i)
    ensures var refused := if p.calls[r].stage.Holding? then Step(p, Repost(r, Submits(false))) else p;
            Step(refused, Repost(r, PutsBack)).slots.owner == p.slots.owner[i := InPool]
  {
    assert LocalOk(p.calls[r], r, p.slots, p.rxPosted);
  }

  lemma GoesBack(p: Pool, i: nat)
    requires PoolInv(p) && HeldOk(p) && i < |p.slots.owner|
    ensures After(p, WayBack(p, i)).slots.owner == p.slots.owner[i := InPool]
  {
    match p.slots.owner[i]
    case Reposting(r) =>
      AfterFew(p, Repost(r, Submits(false)), Repost(r, PutsBack));
      AfterFew(p, Repost(r, PutsBack), SenderGets);
      RepostGivesBack(p, r, i);
    case RxRing => AfterFew(p, RxCallback(i), CallbackPuts(i));
    case InPool =>
    case Sender => AfterFew(p, SenderPuts(i), SenderGets);
    case TxRing => AfterFew(p, TxCallback(i), SenderGets);
    case Callback => AfterFew(p, CallbackPuts(i), SenderGets);
  }

  /** After the first `n` slots have gone back. */
  function Returned(p: Pool, n: nat): (q: Pool)
    requires PoolInv(p) && HeldOk(p) && n <= |p.slots.owner|
    ensures PoolInv(q) && HeldOk(q) && |q.slots.owner| == |p.slots.owner|
  {
    if n == 0 then p
    else
      var q := Returned(p, n - 1);
      AfterKeepsInv(q, WayBack(q, n - 1));
      AfterKeepsHeld(q, WayBack(q, n - 1));
      GoesBack(q, n - 1);
      After(q, WayBack(q, n - 1))
  }

  lemma {:induction false} ReturnedInPool(p: Pool, n: nat)
    requires PoolInv(p) && HeldOk(p) && n <= |p.slots.owner|
    ensures forall i :: 0 <= i < n ==> Returned(p, n).slots.owner[i].InPool?
  {
    if n > 0 {
      ReturnedInPool(p, n - 1);
      GoesBack(Returned(p, n - 1), n - 1);
    }
  }

  /** No frame is lost: in whatever state a run leaves the pool, each frame has a way back
      into it, and taking these ways one after another leaves the whole pool free. */
  lemma EveryFrameComesBack(size: nat, evs: seq<Event>)
    ensures PoolInv(Run(size, evs)) && HeldOk(Run(size, evs)) && |Run(size, evs).slots.owner| == size
    ensures Returned(Run(size, evs), size).slots.freeCount == size
  {
    PoolConservation(size, evs);
    RunKeepsHeld(size, evs);
    ReturnedInPool(Run(size, evs), size);
    var s := Returned(Run(size, evs), size).slots;
    FreshIsClear(size);
    assert s.used == seq(size, i => false);
  }

  // ---- The target ----

  /** The step that takes the ring past its target. A frame is accepted for a call whose
      view is stale: the frames it does not know of, less those that have come back, use
      up the room it believes in, that is, the ring is full already. Or the target is
      cleared with frames on the ring. */
  predicate Overfills(p: Pool, e: Event) {
    Can(p, e) &&
    match e
    case Repost(r, Submits(true)) => p.calls[r].ahead - p.calls[r].gone >= p.rxTarget - p.calls[r].posted
    case TargetCleared => OnRing(p.slots.owner) > 0
    case _ => false
  }

  /** The step that takes the counter past the target: the same with increments. */
  predicate Overcounts(p: Pool, e: Event) {
    Can(p, e) &&
    match e
    case Repost(r, Counts) => p.calls[r].others - p.calls[r].gone >= p.rxTarget - p.calls[r].posted
    case TargetCleared => p.rxPosted > 0
    case _ => false
  }

  predicate NeverOverfills(size: nat, evs: seq<Event>) {
    evs == [] ||
    (NeverOverfills(size, evs[..|evs| - 1]) && !Overfills(Run(size, evs[..|evs| - 1]), evs[|evs| - 1]))
  }

  predicate NeverOvercounts(size: nat, evs: seq<Event>) {
    evs == [] ||
    (NeverOvercounts(size, evs[..|evs| - 1]) && !Overcounts(Run(size, evs[..|evs| - 1]), evs[|evs| - 1]))
  }

  /** Throughout the run the receive ring holds no more than the target. */
  predicate RingWithin(size: nat, evs: seq<Event>) {
    OnRing(Run(size, evs).slots.owner) <= Run(size, evs).rxTarget &&
    (evs == [] || RingWithin(size, evs[..|evs| - 1]))
  }

  /** Throughout the run `rx_posted` is no more than `rx_target`. */
  predicate CounterWithin(size: nat, evs: seq<Event>) {
    Run(size, evs).rxPosted <= Run(size, evs).rxTarget &&
    (evs == [] || CounterWithin(size, evs[..|evs| - 1]))
  }

  lemma OnRingSteps(p: Pool, e: Event)
    requires PoolInv(p) && Can(p, e)
    ensures OnRing(Step(p, e).slots.owner) == OnRing(p.slots.owner) +
            (if e.Repost? && e.step == Submits(true) then 1 else 0) - (if e.RxCallback? then 1 else 0)
  {
    match e
    case SenderGets => TakeKeepsSlots(p.slots, Sender);
    case SenderPuts(i) => GiveKeepsSlots(p.slots, i);
    case SenderSubmits(i) => PassKeepsSlots(p.slots, i, TxRing);
    case TxCallback(i) => GiveKeepsSlots(p.slots, i);
    case RxCallback(i) => PassKeepsSlots(p.slots, i, Callback);
    case CallbackPuts(i) => GiveKeepsSlots(p.slots, i);
    case StreamOpens =>
    case VerifyBegins =>
    case TargetCleared =>
    case CounterCleared =>
    case RepostBegins =>
    case Repost(r, step) => RepostKeepsSlots(p, r, step);
  }

  /** Targets are zero or half the pool. */
  predicate TargetOk(p: Pool) {
    p.rxTarget == 0 || p.rxTarget == |p.slots.used| / 2
  }

  lemma StepKeepsTarget(p: Pool, e: Event)
    requires TargetOk(p) && |Step(p, e).slots.used| == |p.slots.used|
    ensures TargetOk(Step(p, e))
    ensures Step(p, e).rxTarget ==
            match e
            case StreamOpens => if p.rxTarget == 0 then |p.slots.used| / 2 else p.rxTarget
            case VerifyBegins => |p.slots.used| / 2
            case TargetCleared => 0
            case _ => p.rxTarget
  {
  }

  lemma {:induction false} RunKeepsTarget(size: nat, evs: seq<Event>)
    ensures TargetOk(Run(size, evs))
  {
    if evs != [] {
      RunKeepsTarget(size, evs[..|evs| - 1]);
      PoolConservation(size, evs[..|evs| - 1]);
      PoolConservation(size, evs);
      StepKeepsTarget(Run(size, evs[..|evs| - 1]), evs[|evs| - 1]);
    }
  }

  lemma RingSteps(p: Pool, e: Event)
    requires PoolInv(p) && TargetOk(p) && OnRing(p.slots.owner) <= p.rxTarget
    ensures OnRing(Step(p, e).slots.owner) <= Step(p, e).rxTarget <==> !Overfills(p, e)
  {
    if Can(p, e) {
      OnRingSteps(p, e);
      if e.Repost? {
        assert LocalOk(p.calls[e.r], e.r, p.slots, p.rxPosted);
      }
    }
  }

  lemma CounterSteps(p: Pool, e: Event)
    requires PoolInv(p) && TargetOk(p) && p.rxPosted <= p.rxTarget
    ensures Step(p, e).rxPosted <= Step(p, e).rxTarget <==> !Overcounts(p, e)
  {
    if Can(p, e) && e.Repost? {
      assert LocalOk(p.calls[e.r], e.r, p.slots, p.rxPosted);
    }
  }

  /** The ring passes its target if and only if some step overfills it, and the counter if
      and only if some step overcounts. */
  lemma {:induction false} OvershootIsExact(size: nat, evs: seq<Event>)
    ensures RingWithin(size, evs) <==> NeverOverfills(size, evs)
    ensures CounterWithin(size, evs) <==> NeverOvercounts(size, evs)
  {
    if evs == [] {
      FreshIsClear(size);
    } else {
      var p, e := Run(size, evs[..|evs| - 1]), evs[|evs| - 1];
      OvershootIsExact(size, evs[..|evs| - 1]);
      PoolConservation(size, evs[..|evs| - 1]);
      RunKeepsTarget(size, evs[..|evs| - 1]);
      if OnRing(p.slots.owner) <= p.rxTarget {
        RingSteps(p, e);
      }
      if p.rxPosted <= p.rxTarget {
        CounterSteps(p, e);
      }
    }
  }

  predicate AllDone(ls: seq<Local>) {
    forall r :: 0 <= r < |ls| ==> ls[r].stage.Done?
  }

  /** Nothing is posted and no call is under way. */
  predicate Quiet(p: Pool) {
    AllDone(p.calls) && p.rxPosted == 0 && OnRing(p.slots.owner) == 0
  }

  predicate Orderly(p: Pool, e: Event) {
    && (e.RepostBegins? ==> AllDone(p.calls))
    && (e.TargetCleared? || e.CounterCleared? ==> Quiet(p))
  }

  /** Every call begins after all earlier ones have ended, and target and counter are
      cleared only when nothing is posted. */
  predicate OneAtATime(size: nat, evs: seq<Event>) {
    evs == [] ||
    (OneAtATime(size, evs[..|evs| - 1]) && Orderly(Run(size, evs[..|evs| - 1]), evs[|evs| - 1]))
  }

  /** Only the last call may be under way, and it knows of every frame. */
  predicate LastOnly(p: Pool) {
    && p.erased == 0
    && forall r :: 0 <= r < |p.calls| && !p.calls[r].stage.Done? ==>
         r == |p.calls| - 1 && p.calls[r].ahead == 0 && p.calls[r].others == 0 &&
         p.calls[r].target <= p.rxTarget
  }

  lemma {:induction false} NoneUncounted(ls: seq<Local>)
    requires AllDone(ls)
    ensures Uncounted(ls) == 0
  {
    if ls != [] {
      NoneUncounted(ls[..|ls| - 1]);
    }
  }

  lemma RepostKeepsLastOnly(p: Pool, r: nat, step: RepostStep)
    requires LastOnly(p)
    ensures LastOnly(Step(p, Repost(r, step)))
  {
    if Can(p, Repost(r, step)) {
      match step
      case Gets =>
      case Submits(accepted) =>
      case Counts =>
      case PutsBack =>
    }
  }

  lemma StepKeepsLastOnly(p: Pool, e: Event)
    requires LastOnly(p) && TargetOk(p) && Orderly(p, e)
    ensures LastOnly(Step(p, e))
  {
    match e
    case RepostBegins => NoneUncounted(p.calls);
    case Repost(r, step) => RepostKeepsLastOnly(p, r, step);
    case _ =>
  }

  lemma {:induction false} RunKeepsLastOnly(size: nat, evs: seq<Event>)
    requires OneAtATime(size, evs)
    ensures LastOnly(Run(size, evs))
  {
    if evs != [] {
      RunKeepsLastOnly(size, evs[..|evs| - 1]);
      RunKeepsTarget(size, evs[..|evs| - 1]);
      StepKeepsLastOnly(Run(size, evs[..|evs| - 1]), evs[|evs| - 1]);
    }
  }

  lemma OrderlyIsHarmless(p: Pool, e: Event)
    requires PoolInv(p) && LastOnly(p) && Orderly(p, e)
    ensures !Overfills(p, e) && !Overcounts(p, e)
  {
    if Can(p, e) && e.Repost? {
      assert LocalOk(p.calls[e.r], e.r, p.slots, p.rxPosted);
    }
  }

  /** Without overlap the target is never overshot. */
  lemma {:induction false} OneAtATimeIsWithin(size: nat, evs: seq<Event>)
    requires OneAtATime(size, evs)
    ensures RingWithin(size, evs) && CounterWithin(size, evs)
  {
    OvershootIsExact(size, evs);
    if evs != [] {
      OneAtATimeIsWithin(size, evs[..|evs| - 1]);
      OvershootIsExact(size, evs[..|evs| - 1]);
      RunKeepsLastOnly(size, evs[..|evs| - 1]);
      PoolConservation(size, evs[..|evs| - 1]);
      OrderlyIsHarmless(Run(size, evs[..|evs| - 1]), evs[|evs| - 1]);
    }
  }

  // ---- Streams without receive frames ----

  predicate Opened(evs: seq<Event>) {
    evs != [] && (evs[|evs| - 1].StreamOpens? || Opened(evs[..|evs| - 1]))
  }

  /** The target was cleared after the last stream opened and the last verification began. */
  predicate Stranded(evs: seq<Event>) {
    evs != [] &&
    match evs[|evs| - 1]
    case TargetCleared => true
    case StreamOpens => false
    case VerifyBegins => false
    case _ => Stranded(evs[..|evs| - 1])
  }

  /** Once a stream is open its device keeps a receive target, unless and only unless the
      end of verification clears it afterwards: such a stream gets no receive frames until
      another one opens. */
  lemma {:induction false} OpenHasTarget(size: nat, evs: seq<Event>)
    requires size >= 2 && Opened(evs)
    ensures Run(size, evs).rxTarget == if Stranded(evs) then 0 else size / 2
  {
    PoolConservation(size, evs[..|evs| - 1]);
    PoolConservation(size, evs);
    RunKeepsTarget(size, evs[..|evs| - 1]);
    StepKeepsTarget(Run(size, evs[..|evs| - 1]), evs[|evs| - 1]);
    if Opened(evs[..|evs| - 1]) {
      OpenHasTarget(size, evs[..|evs| - 1]);
    }
  }

  // ---- An overshoot at every size ----

  lemma {:induction false} RunOn(size: nat, evs: seq<Event>, more: seq<Event>)
    ensures Run(size, evs + more) == After(Run(size, evs), more)
    decreases |more|
  {
    if more == [] {
      assert evs + more == evs;
    } else {
      assert (evs + [more[0]])[..|evs|] == evs;
      assert evs + more == (evs + [more[0]]) + more[1..];
      RunOn(size, evs + [more[0]], more[1..]);
    }
  }

  function Round(r: nat): seq<Event> {
    [Repost(r, Gets), Repost(r, Submits(true)), Repost(r, Counts)]
  }

  lemma {:induction false} AfterConcat(p: Pool, xs: seq<Event>, ys: seq<Event>)
    ensures After(p, xs + ys) == After(After(p, xs), ys)
    decreases |xs|
  {
    if xs == [] {
      assert xs + ys == ys;
    } else {
      assert (xs + ys)[1..] == xs[1..] + ys;
      AfterConcat(Step(p, xs[0]), xs[1..], ys);
    }
  }

  /** Call `r` puts `k` frames on the ring. */
  function Rounds(r: nat, k: nat): seq<Event> {
    if k == 0 then [] else Round(r) + Rounds(r, k - 1)
  }

  /** `ls'` is `ls` after call `r` alone has posted `k` frames. */
  predicate CallsFilled(ls: seq<Local>, ls': seq<Local>, r: nat, k: nat) {
    && |ls'| == |ls| && r < |ls|
    && ls'[r] == ls[r].(posted := ls[r].posted + k)
    && (forall i :: 0 <= i < |ls| && i != r ==>
          ls'[i] == ls[i].(ahead := ls[i].ahead + k, others := ls[i].others + k))
  }

  predicate Filled(p: Pool, p': Pool, r: nat, k: nat) {
    && CallsFilled(p.calls, p'.calls, r, k)
    && p'.rxPosted == p.rxPosted + k && p'.rxTarget == p.rxTarget
    && p'.slots.freeCount == p.slots.freeCount - k
  }

  lemma {:induction false} AllUsed(used: seq<bool>)
    requires forall i :: 0 <= i < |used| ==> used[i]
    ensures ClearBits(used) == 0
  {
    if used != [] {
      AllUsed(used[..|used| - 1]);
    }
  }

  lemma GetsOne(p: Pool, r: nat)
    requires PoolInv(p) && r < |p.calls| && p.calls[r].stage.Looping?
    requires p.calls[r].posted < p.calls[r].target && p.slots.freeCount > 0
    ensures HasClear(p.slots)
    ensures var p' := Step(p, Repost(r, Gets)); var l := p.calls[r].(stage := Holding(FirstClear(p.slots.used, 0)));
            && p' == p.(slots := p'.slots, calls := Moved(p.calls, r, l, 0, 0)) && PoolInv(p')
            && p'.slots.freeCount == p.slots.freeCount - 1
  {
    if !HasClear(p.slots) {
      AllUsed(p.slots.used);
    }
    StepKeepsInv(p, Repost(r, Gets));
  }

  lemma SubmitsOne(p: Pool, r: nat)
    requires PoolInv(p) && r < |p.calls| && p.calls[r].stage.Holding?
    ensures var p' := Step(p, Repost(r, Submits(true)));
            && p' == p.(slots := p'.slots, calls := Moved(p.calls, r, p.calls[r].(stage := Submitted), 1, 0))
            && PoolInv(p') && p'.slots.freeCount == p.slots.freeCount
  {
    assert LocalOk(p.calls[r], r, p.slots, p.rxPosted);
    StepKeepsInv(p, Repost(r, Submits(true)));
  }

  lemma MovedThrice(ls: seq<Local>, r: nat, slot: nat)
    requires r < |ls| && ls[r].stage.Looping?
    ensures var l := ls[r];
            var xs := Moved(ls, r, l.(stage := Holding(slot)), 0, 0);
            var ys := Moved(xs, r, l.(stage := Submitted), 1, 0);
            CallsFilled(ls, Moved(ys, r, l.(stage := Looping, posted := l.posted + 1), 0, 1), r, 1)
  {
  }

  lemma AfterThree(p: Pool, evs: seq<Event>)
    requires |evs| == 3
    ensures After(p, evs) == Step(Step(Step(p, evs[0]), evs[1]), evs[2])
  {
    var p2 := Step(Step(p, evs[0]), evs[1]);
    assert evs[1..][1..] == [evs[2]] && After(p2, [evs[2]]) == After(Step(p2, evs[2]), []);
  }

  lemma OneRound(p: Pool, r: nat)
    requires PoolInv(p) && r < |p.calls| && p.calls[r].stage.Looping?
    requires p.calls[r].posted < p.calls[r].target && p.slots.freeCount > 0
    ensures Filled(p, After(p, Round(r)), r, 1)
  {
    GetsOne(p, r);
    var p1 := Step(p, Repost(r, Gets));
    SubmitsOne(p1, r);
    var p2 := Step(p1, Repost(r, Submits(true)));
    assert Can(p2, Repost(r, Counts));
    MovedThrice(p.calls, r, FirstClear(p.slots.used, 0));
    AfterThree(p, Round(r));
  }

  lemma FilledTwice(p: Pool, q: Pool, t: Pool, r: nat, k: nat)
    requires Filled(p, q, r, 1) && Filled(q, t, r, k)
    ensures Filled(p, t, r, k + 1)
  {
  }

  lemma {:induction false} RoundsFill(p: Pool, r: nat, k: nat)
    requires PoolInv(p) && r < |p.calls| && p.calls[r].stage.Looping?
    requires p.calls[r].posted + k <= p.calls[r].target && k <= p.slots.freeCount
    ensures Filled(p, After(p, Rounds(r, k)), r, k)
    decreases k
  {
    if k > 0 {
      OneRound(p, r);
      var q := After(p, Round(r));
      AfterKeepsInv(p, Round(r));
      assert q.calls[r].stage.Looping? && q.calls[r].posted == p.calls[r].posted + 1;
      RoundsFill(q, r, k - 1);
      var t := After(q, Rounds(r, k - 1));
      FilledTwice(p, q, t, r, k - 1);
      assert After(p, Rounds(r, k)) == t by {
        AfterConcat(p, Round(r), Rounds(r, k - 1));
      }
    }
  }

  const TWO_BEGIN := [StreamOpens, RepostBegins, RepostBegins]

  /** Two calls that read the counter before either has posted. */
  function Overlapping(size: nat): seq<Event> {
    TWO_BEGIN + Rounds(0, size / 2) + Rounds(1, size / 2)
  }

  lemma FirstReads(size: nat)
    ensures var l := Local(0, size / 2, Looping, 0, 0, 0); var p := Fresh(size).(rxTarget := size / 2);
            Step(Step(Fresh(size), StreamOpens), RepostBegins) == p.(calls := [l])
  {
    assert Begun(Fresh(size).(rxTarget := size / 2)) == Local(0, size / 2, Looping, 0, 0, 0);
  }

  lemma SecondReads(p: Pool, l: Local)
    requires p.calls == [l] && l.stage.Looping? && p.erased == 0
    ensures Step(p, RepostBegins) == p.(calls := [l, Local(p.rxPosted, p.rxTarget, Looping, 0, 0, 0)])
  {
    assert [l][..0] == [] && Uncounted([l]) == 0;
    assert Begun(p) == Local(p.rxPosted, p.rxTarget, Looping, 0, 0, 0);
  }

  lemma BothRead(size: nat)
    ensures var p := Run(size, TWO_BEGIN); var l := Local(0, size / 2, Looping, 0, 0, 0);
            p == Fresh(size).(rxTarget := size / 2, calls := [l, l])
  {
    var l := Local(0, size / 2, Looping, 0, 0, 0);
    RunOn(size, [], TWO_BEGIN);
    assert [] + TWO_BEGIN == TWO_BEGIN;
    AfterThree(Fresh(size), TWO_BEGIN);
    FirstReads(size);
    SecondReads(Fresh(size).(rxTarget := size / 2, calls := [l]), l);
  }

  /** The overshoot is real, at every pool size: two overlapping calls post twice the
      target and leave the senders at most one slot. */
  lemma OverlapOvershoots(size: nat)
    requires size >= 2
    ensures var p := Run(size, Overlapping(size));
            && p.rxPosted == OnRing(p.slots.owner) == 2 * p.rxTarget && p.rxTarget == size / 2
            && p.slots.freeCount == size % 2
  {
    var k := size / 2;
    var p := Run(size, TWO_BEGIN);
    BothRead(size);
    PoolConservation(size, TWO_BEGIN);
    RoundsFill(p, 0, k);
    var q := After(p, Rounds(0, k));
    AfterKeepsInv(p, Rounds(0, k));
    RoundsFill(q, 1, k);
    RunOn(size, TWO_BEGIN, Rounds(0, k));
    RunOn(size, TWO_BEGIN + Rounds(0, k), Rounds(1, k));
    var last := After(q, Rounds(1, k));
    AfterKeepsInv(q, Rounds(1, k));
    assert last.calls[0].stage.Looping? && last.calls[1].stage.Looping? && |last.calls| == 2;
    assert last.calls[..1] == [last.calls[0]] && last.calls[..1][..0] == [];
    assert Uncounted(last.calls) == 0;
  }

  predicate OnlyReposts(evs: seq<Event>) {
    forall i :: 0 <= i < |evs| ==> evs[i].RepostBegins? || evs[i].Repost?
  }

  // ---- The objects ----

  /** `struct odl_tb5_frame_pool` with the device's receive counters. */
  class FrameSlots {
    const used: array<bool>
    var freeCount: int
    var rxPosted: int
    var rxTarget: nat
    ghost var owner: seq<Owner>
    ghost var erased: int
    ghost var calls: seq<Local>

    ghost function ViewSlots(): Slots
      reads this, used
    {
      Slots(used[..], freeCount, owner)
    }

    ghost function View(): Pool
      reads this, used
    {
      Pool(ViewSlots(), rxPosted, rxTarget, erased, calls)
    }

    constructor (size: nat)
      ensures View() == Fresh(size) && fresh(used)
    {
      used := new bool[size](i => false);
      freeCount, rxPosted, rxTarget := size, 0, 0;
      owner, erased, calls := seq(size, i => InPool), 0, [];
    }

    /** `odl_tb5_frame_pool_get`: the first clear bit, or the pool's size. */
    method Get(ghost o: Owner) returns (i: nat)
      requires |owner| == used.Length
      modifies this`freeCount, this`owner, used
      ensures i == FirstClear(old(used[..]), 0) && |owner| == used.Length
      ensures ViewSlots() == if i < used.Length then Take(old(ViewSlots()), o) else old(ViewSlots())
    {
      i := 0;
      while i < used.Length && used[i]
        invariant i <= used.Length && forall j :: 0 <= j < i ==> used[j]
        invariant ViewSlots() == old(ViewSlots())
      {
        i := i + 1;
      }
      if i < used.Length {
        used[i] := true;
        freeCount := freeCount - 1;
        owner := owner[i := o];
      }
    }

    /** `odl_tb5_frame_pool_put`. */
    method PutSlot(i: nat)
      requires i < used.Length == |owner|
      modifies this`freeCount, this`owner, used
      ensures ViewSlots() == Give(old(ViewSlots()), i)
    {
      used[i] := false;
      freeCount := freeCount + 1;
      owner := owner[i := InPool];
    }

    /** The first thing the receive callback does. */
    method OnReceived(i: nat)
      requires Owns(ViewSlots(), i, RxRing)
      modifies this
      ensures View() == Step(old(View()), RxCallback(i))
    {
      rxPosted := rxPosted - 1;
      owner, calls := owner[i := Callback], AllLose(calls);
    }

    /** The last thing it does before it reposts. */
    method ReturnReceived(i: nat)
      requires |owner| == used.Length && Owns(ViewSlots(), i, Callback)
      modifies this`freeCount, this`owner, used
      ensures View() == Step(old(View()), CallbackPuts(i))
    {
      PutSlot(i);
    }

    /** The first stream sets the target. */
    method OpenStream() returns (repost: bool)
      modifies this`rxTarget
      ensures View() == Step(old(View()), StreamOpens) && repost == (old(rxTarget) == 0)
    {
      repost := rxTarget == 0;
      if repost {
        rxTarget := used.Length / 2;
      }
    }

    /** The end of link verification, when nothing comes between its two writes. */
    method EndVerification()
      modifies this`rxTarget, this`rxPosted, this`erased, this`calls
      ensures View() == Step(Step(old(View()), TargetCleared), CounterCleared)
    {
      rxTarget := 0;
      calls, erased := AllErased(calls, rxPosted), erased + rxPosted;
      rxPosted := 0;
    }

    /** A fresh call reads the counter and the target. */
    method BeginRepost() returns (posted: int, target: nat)
      modifies this`calls
      ensures View() == Step(old(View()), RepostBegins) && posted == rxPosted && target == rxTarget
    {
      posted, target := rxPosted, rxTarget;
      calls := calls + [Local(posted, target, Looping, Uncounted(calls) + erased, 0, 0)];
    }

    /** `odl_tb5_frame_pool_get` by call `r`, which ends on an empty pool. */
    method GetForPost(ghost r: nat) returns (i: nat)
      requires |owner| == used.Length
      requires r < |calls| && calls[r].stage.Looping? && calls[r].posted < calls[r].target
      modifies this`freeCount, this`owner, this`calls, used
      ensures View() == Step(old(View()), Repost(r, Gets)) && i == FirstClear(old(used[..]), 0)
    {
      i := Get(Reposting(r));
      calls := Moved(calls, r, calls[r].(stage := if i < used.Length then Holding(i) else Done), 0, 0);
    }

    /** `tb_ring_rx` by call `r`. */
    method SubmitForPost(ghost r: nat, i: nat, accepted: bool)
      requires r < |calls| && calls[r].stage == Holding(i) && Owns(ViewSlots(), i, Reposting(r))
      modifies this`owner, this`calls
      ensures View() == Step(old(View()), Repost(r, Submits(accepted)))
    {
      owner := if accepted then owner[i := RxRing] else owner;
      calls := Moved(calls, r, calls[r].(stage := if accepted then Submitted else Refused(i)),
                     if accepted then 1 else 0, 0);
    }

    /** The increment after an accepted frame. */
    method CountPosted(ghost r: nat)
      requires r < |calls| && calls[r].stage.Submitted?
      modifies this`rxPosted, this`calls
      ensures View() == Step(old(View()), Repost(r, Counts))
    {
      rxPosted := rxPosted + 1;
      calls := Moved(calls, r, calls[r].(stage := Looping, posted := calls[r].posted + 1), 0, 1);
    }

    /** The return of a refused frame, which ends the call. */
    method PutRefused(ghost r: nat, i: nat)
      requires |owner| == used.Length
      requires r < |calls| && calls[r].stage == Refused(i) && Owns(ViewSlots(), i, Reposting(r))
      modifies this`freeCount, this`owner, this`calls, used
      ensures View() == Step(old(View()), Repost(r, PutsBack))
    {
      PutSlot(i);
      calls := Moved(calls, r, calls[r].(stage := Done), 0, 0);
    }

    /** The submission of a slot just taken and what follows the ring's answer. */
    method Settle(ghost r: nat, i: nat, accepted: bool)
      requires |owner| == used.Length
      requires r < |calls| && calls[r].stage == Holding(i) && Owns(ViewSlots(), i, Reposting(r))
      modifies this`freeCount, this`rxPosted, this`owner, this`calls, used
      ensures View() == Step(Step(old(View()), Repost(r, Submits(accepted))),
                             Repost(r, if accepted then Counts else PutsBack))
      ensures |owner| == used.Length && |calls| == |old(calls)|
      ensures rxPosted == old(rxPosted) + if accepted then 1 else 0
      ensures accepted ==> calls[r] == old(calls[r]).(stage := Looping, posted := old(calls[r]).posted + 1)
    {
      SubmitForPost(r, i, accepted);
      if accepted {
        CountPosted(r);
      } else {
        PutRefused(r, i);
      }
    }

    /** One turn of the repost loop with nothing between its steps. */
    method PostOne(ghost r: nat, accepted: bool) returns (more: bool, ghost evs: seq<Event>)
      requires |owner| == used.Length
      requires r < |calls| && calls[r].stage.Looping? && calls[r].posted < calls[r].target
      modifies this`freeCount, this`rxPosted, this`owner, this`calls, used
      ensures View() == After(old(View()), evs) && OnlyReposts(evs)
      ensures |owner| == used.Length && |calls| == |old(calls)|
      ensures rxPosted == old(rxPosted) + if more then 1 else 0
      ensures more ==> accepted && calls[r] == old(calls[r]).(posted := old(calls[r]).posted + 1)
      ensures !more ==> ClearBits(used[..]) == 0 || !accepted
    {
      ghost var p := View();
      var i := GetForPost(r);
      if i == used.Length {
        AllUsed(used[..]);
        evs := [Repost(r, Gets)];
        assert After(p, evs) == After(Step(p, evs[0]), []);
        return false, evs;
      }
      Settle(r, i, accepted);
      more := accepted;
      evs := [Repost(r, Gets), Repost(r, Submits(accepted)), Repost(r, if accepted then Counts else PutsBack)];
      AfterThree(p, evs);
    }

    /** The same as the continuation of `done`, which began in `p`. */
    method PostNext(ghost r: nat, accepted: bool, ghost p: Pool, ghost done: seq<Event>)
      returns (more: bool, ghost evs: seq<Event>)
      requires |owner| == used.Length && View() == After(p, done) && OnlyReposts(done)
      requires r < |calls| && calls[r].stage.Looping? && calls[r].posted < calls[r].target
      modifies this`freeCount, this`rxPosted, this`owner, this`calls, used
      ensures View() == After(p, evs) && OnlyReposts(evs)
      ensures |owner| == used.Length && |calls| == |old(calls)|
      ensures rxPosted == old(rxPosted) + if more then 1 else 0
      ensures more ==> accepted && calls[r] == old(calls[r]).(posted := old(calls[r]).posted + 1)
      ensures !more ==> ClearBits(used[..]) == 0 || !accepted
    {
      ghost var turn;
      more, turn := PostOne(r, accepted);
      AfterConcat(p, done, turn);
      evs := done + turn;
    }

    /** The repost loop of call `r` from `posted` frames on: one turn, then the rest. */
    method RepostFrom(ghost r: nat, local: int, target: nat, posted: nat, accepted: nat -> bool,
                      ghost p: Pool, ghost done: seq<Event>)
      returns (n: nat, ghost evs: seq<Event>)
      requires |owner| == used.Length && View() == After(p, done) && OnlyReposts(done)
      requires r < |calls| && calls[r].stage.Looping? && calls[r].posted == local && calls[r].target == target
      modifies this`freeCount, this`rxPosted, this`owner, this`calls, used
      ensures View() == After(p, evs) && OnlyReposts(evs)
      ensures n >= posted && rxPosted == old(rxPosted) + n - posted && local + n - posted <= Max(local, target)
      ensures local + n - posted >= target || ClearBits(used[..]) == 0 || !accepted(n)
      ensures forall i: nat :: posted <= i < n ==> accepted(i)
      decreases target - local
    {
      n, evs := posted, done;
      if local < target {
        var more;
        more, evs := PostNext(r, accepted(posted), p, done);
        if more {
          n, evs := RepostFrom(r, local + 1, target, posted + 1, accepted, p, evs);
        }
      }
    }

    /** `odl_tb5_rx_repost` with nothing between its steps, whatever other calls are
        under way: it ends with the target met, the pool empty or the ring's refusal. */
    method RepostAll(accepted: nat -> bool) returns (posted: nat, ghost evs: seq<Event>)
      requires |owner| == used.Length
      modifies this`freeCount, this`rxPosted, this`owner, this`calls, used
      ensures View() == After(old(View()), evs) && OnlyReposts(evs)
      ensures rxPosted == old(rxPosted) + posted && rxPosted <= Max(old(rxPosted), rxTarget)
      ensures rxPosted >= rxTarget || ClearBits(used[..]) == 0 || !accepted(posted)
      ensures forall i: nat :: i < posted ==> accepted(i)
    {
      ghost var r := |calls|;
      ghost var p := View();
      var local, target := BeginRepost();
      evs := [RepostBegins];
      assert After(p, evs) == After(Step(p, RepostBegins), []);
      assert calls[r] == Begun(p);
      posted, evs := RepostFrom(r, local, target, 0, accepted, p, evs);
    }
  }
}
