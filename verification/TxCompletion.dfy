/** The life of transmit messages: a producer that submits frames and finishes,
    raced by the ring's completion callbacks. */
module TxCompletion {
  /** Where the producer is. `Stopping` is the error path before it has marked
      the message failed. */
  datatype Phase = Sending | Stopping | Failed | DoneSet | Checked | Finished

  /** `struct odl_tb5_tx_msg`. `armed` and `onRing` split the pending frames into
      those not yet taken by the ring and those it owes a callback for; `testing` counts
      the callbacks between their decrement to zero and the completion test. History:
      how often the message has been freed, and how many tests came after that. */
  datatype Msg = Msg(
    pending: int,
    refs: int,
    completionRef: bool,
    done: bool,
    failed: bool,
    phase: Phase,
    armed: nat,
    onRing: nat,
    testing: nat,
    releases: nat,
    late: nat)

  /** A message with its stream's two counters. */
  datatype Tx = Tx(m: Msg, inFlight: int, completed: int)

  datatype Op =
    | Arm(frames: nat)
    | Accept
    | Reject
    | Stop
    | MarkFailed
    | SetDone
    | Check
    | PutOwn
    | Callback(canceled: bool)
    | Test

  function NewMsg(): Msg {
    Msg(0, 2, true, false, false, Sending, 0, 0, 0, 0, 0)
  }

  /** `odl_tb5_tx_msg_put`. */
  function Put(t: Tx): Tx {
    var m := t.m.(refs := t.m.refs - 1);
    if m.refs != 0 then t.(m := m)
    else Tx(m.(releases := m.releases + 1), t.inFlight - 1,
            t.completed + if m.failed then 0 else 1)
  }

  /** `odl_tb5_tx_msg_maybe_complete`. */
  function MaybeComplete(t: Tx): Tx {
    if t.m.done && t.m.pending == 0 && t.m.completionRef
    then Put(t.(m := t.m.(completionRef := false)))
    else t
  }

  predicate CanDo(m: Msg, op: Op) {
    match op
    case Arm(frames) => m.phase.Sending? && m.armed == 0 && frames > 0
    case Accept => m.phase.Sending? && m.armed > 0
    case Reject => m.phase.Sending? && m.armed > 0
    case Stop => m.phase.Sending? && m.armed == 0
    case MarkFailed => m.phase.Stopping?
    case SetDone => (m.phase.Sending? && m.armed == 0) || m.phase.Failed?
    case Check => m.phase.DoneSet?
    case PutOwn => m.phase.Checked?
    case Callback(_) => m.onRing > 0
    case Test => m.testing > 0
  }

  /** One step of the producer or of a callback. A rejection may come after part of
      a batch has been taken. */
  function Do(t: Tx, op: Op): Tx
    requires CanDo(t.m, op)
  {
    var m := t.m;
    match op
    case Arm(frames) => t.(m := m.(pending := m.pending + frames, armed := frames))
    case Accept => t.(m := m.(armed := m.armed - 1, onRing := m.onRing + 1))
    case Reject => t.(m := m.(pending := m.pending - m.armed, armed := 0, phase := Stopping))
    case Stop => t.(m := m.(phase := Stopping))
    case MarkFailed => t.(m := m.(failed := true, phase := Failed))
    case SetDone => t.(m := m.(done := true, phase := DoneSet))
    case Check => MaybeComplete(t.(m := m.(phase := Checked)))
    case PutOwn => Put(t.(m := m.(phase := Finished)))
    case Callback(canceled) =>
      t.(m := m.(failed := m.failed || canceled, pending := m.pending - 1, onRing := m.onRing - 1,
                 testing := m.testing + if m.pending == 1 then 1 else 0))
    case Test =>
      if m.releases > 0 then t.(m := m.(testing := m.testing - 1, late := m.late + 1))
      else MaybeComplete(t.(m := m.(testing := m.testing - 1)))
  }

  predicate MsgInv(m: Msg) {
    && m.pending == m.armed + m.onRing
    && m.refs == (if m.phase.Finished? then 0 else 1) + (if m.completionRef then 1 else 0)
    && m.releases == (if m.refs == 0 then 1 else 0)
    && (m.done <==> m.phase.DoneSet? || m.phase.Checked? || m.phase.Finished?)
    && (m.armed > 0 ==> m.phase.Sending?)
    && (!m.completionRef ==> m.done && m.pending == 0)
    && (m.phase.Checked? || m.phase.Finished? ==> m.pending == 0 && m.testing == 0 ==> !m.completionRef)
  }

  predicate Live(m: Msg) {
    m.releases == 0
  }

  /** The counters move exactly when the message is freed. */
  predicate Settled(t: Tx, t': Tx) {
    && (!Live(t.m) ==> !Live(t'.m) && t'.m.failed == t.m.failed)
    && t'.inFlight == t.inFlight - (if Live(t.m) && !Live(t'.m) then 1 else 0)
    && t'.completed == t.completed + (if Live(t.m) && !Live(t'.m) && !t'.m.failed then 1 else 0)
  }

  /** A completion test that runs after the producer has finished and the completion
      reference has gone: another test had found the same zero. */
  predicate LateTest(m: Msg, op: Op) {
    op.Test? && m.testing > 0 && m.phase.Finished? && !m.completionRef
  }

  /** A step keeps the message in order, moves the counters exactly when it releases the
      message, and touches a freed one exactly when it is a late test. */
  lemma DoKeepsInv(t: Tx, op: Op)
    requires MsgInv(t.m) && CanDo(t.m, op)
    ensures var t' := Do(t, op);
            && MsgInv(t'.m) && Settled(t, t')
            && t'.m.late == t.m.late + if LateTest(t.m, op) then 1 else 0
  {
    match op
    case Arm(frames) =>
    case Accept =>
    case Reject =>
    case Stop =>
    case MarkFailed =>
    case SetDone =>
    case Check =>
    case PutOwn =>
    case Callback(canceled) =>
    case Test =>
  }

  /** A test that follows its decrement at once finds the message alive. */
  lemma PromptTestIsSafe(t: Tx, canceled: bool)
    requires MsgInv(t.m) && CanDo(t.m, Callback(canceled))
    ensures var t' := Do(t, Callback(canceled)); Live(t'.m) && !LateTest(t'.m, Test)
  {
  }

  /** Callbacks never hold the producer up: what it may do depends on its own place and on
      the frames it has yet to submit, and on nothing the ring has done. */
  lemma ProducerIsFree(m: Msg, m': Msg, op: Op)
    requires m.phase == m'.phase && m.armed == m'.armed && !op.Callback? && !op.Test?
    ensures CanDo(m, op) <==> CanDo(m', op)
    ensures m.phase.Sending? && m.armed > 0 ==> CanDo(m, Accept) && CanDo(m, Reject)
    ensures m.phase.Sending? && m.armed == 0 ==> CanDo(m, Stop) && CanDo(m, SetDone)
  {
  }

  /** Otherwise the producer can free the message first. */
  lemma ProducerFreesFirst(t: Tx)
    requires t.m == NewMsg()
    ensures var onRing := Do(Do(t, Arm(1)), Accept);
            var counted := Do(onRing, Callback(false));
            var finished := Do(Do(Do(counted, SetDone), Check), PutOwn);
            finished.m.releases == 1 && LateTest(finished.m, Test)
  {
  }

  // ---- Every message can be freed ----

  /** What producer and ring do next for a message if nothing fails. */
  function NextOp(m: Msg): Op {
    if m.armed > 0 then Accept
    else if m.onRing > 0 then Callback(false)
    else if m.testing > 0 then Test
    else if m.phase.Stopping? then MarkFailed
    else if m.phase.DoneSet? then Check
    else if m.phase.Checked? then PutOwn
    else SetDone
  }

  function PhasesLeft(p: Phase): nat {
    match p
    case Stopping => 5
    case Failed => 4
    case Sending => 4
    case DoneSet => 3
    case Checked => 2
    case Finished => 0
  }

  function StepsLeft(m: Msg): nat {
    3 * m.armed + 2 * m.onRing + m.testing + PhasesLeft(m.phase)
  }

  lemma NextOpGetsOn(t: Tx)
    requires MsgInv(t.m) && StepsLeft(t.m) > 0
    ensures CanDo(t.m, NextOp(t.m)) && StepsLeft(Do(t, NextOp(t.m)).m) < StepsLeft(t.m)
  {
  }

  /** The message after everything outstanding has run its course. */
  function Completed(t: Tx): (t': Tx)
    requires MsgInv(t.m)
    ensures MsgInv(t'.m)
    decreases StepsLeft(t.m)
  {
    if StepsLeft(t.m) == 0 then t
    else
      NextOpGetsOn(t);
      DoKeepsInv(t, NextOp(t.m));
      Completed(Do(t, NextOp(t.m)))
  }

  lemma {:induction false} CompletedIsFreed(t: Tx)
    requires MsgInv(t.m)
    ensures var m := Completed(t).m; m.releases == 1 && m.pending == 0 && m.testing == 0 && m.refs == 0
    decreases StepsLeft(t.m)
  {
    if StepsLeft(t.m) > 0 {
      NextOpGetsOn(t);
      DoKeepsInv(t, NextOp(t.m));
      CompletedIsFreed(Do(t, NextOp(t.m)));
    }
  }

  // ---- A stream with many messages ----

  datatype World = World(msgs: seq<Msg>, inFlight: int, completed: int)

  datatype Event = Create | On(i: nat, op: Op)

  function Created(w: World): World {
    World(w.msgs + [NewMsg()], w.inFlight + 1, w.completed)
  }

  function Step(w: World, ev: Event): World {
    match ev
    case Create => Created(w)
    case On(i, op) =>
      if i >= |w.msgs| || !CanDo(w.msgs[i], op) then w
      else
        var t := Do(Tx(w.msgs[i], w.inFlight, w.completed), op);
        World(w.msgs[i := t.m], t.inFlight, t.completed)
  }

  function Run(evs: seq<Event>): World {
    if evs == [] then World([], 0, 0) else Step(Run(evs[..|evs| - 1]), evs[|evs| - 1])
  }

  function LiveCount(ms: seq<Msg>): nat {
    if ms == [] then 0
    else LiveCount(ms[..|ms| - 1]) + if Live(ms[|ms| - 1]) then 1 else 0
  }

  function GoodCount(ms: seq<Msg>): nat {
    if ms == [] then 0
    else GoodCount(ms[..|ms| - 1]) + if Live(ms[|ms| - 1]) || ms[|ms| - 1].failed then 0 else 1
  }

  function LateSum(ms: seq<Msg>): nat {
    if ms == [] then 0 else LateSum(ms[..|ms| - 1]) + ms[|ms| - 1].late
  }

  lemma {:induction false} LateAfterUpdate(ms: seq<Msg>, i: nat, m: Msg)
    requires i < |ms|
    ensures LateSum(ms[i := m]) == LateSum(ms) + m.late - ms[i].late
  {
    var n := |ms| - 1;
    if i == n {
      assert ms[i := m][..n] == ms[..n];
    } else {
      LateAfterUpdate(ms[..n], i, m);
      assert ms[i := m][..n] == ms[..n][i := m];
    }
  }

  lemma {:induction false} CountsAfterUpdate(ms: seq<Msg>, i: nat, m: Msg)
    requires i < |ms|
    ensures LiveCount(ms[i := m]) ==
            LiveCount(ms) + (if Live(m) then 1 else 0) - (if Live(ms[i]) then 1 else 0)
    ensures GoodCount(ms[i := m]) ==
            GoodCount(ms) + (if Live(m) || m.failed then 0 else 1)
            - (if Live(ms[i]) || ms[i].failed then 0 else 1)
  {
    var n := |ms| - 1;
    if i == n {
      assert ms[i := m][..n] == ms[..n];
    } else {
      CountsAfterUpdate(ms[..n], i, m);
      assert ms[i := m][..n] == ms[..n][i := m];
    }
  }

  lemma CountsAfterAppend(ms: seq<Msg>, m: Msg)
    ensures LiveCount(ms + [m]) == LiveCount(ms) + (if Live(m) then 1 else 0)
    ensures GoodCount(ms + [m]) == GoodCount(ms) + (if Live(m) || m.failed then 0 else 1)
  {
    assert (ms + [m])[..|ms|] == ms;
  }

  predicate AllOk(ms: seq<Msg>) {
    forall i :: 0 <= i < |ms| ==> MsgInv(ms[i])
  }

  predicate CountsOk(w: World) {
    w.inFlight == LiveCount(w.msgs) && w.completed == GoodCount(w.msgs)
  }

  predicate WorldInv(w: World) {
    AllOk(w.msgs) && CountsOk(w)
  }

  lemma AppendOk(ms: seq<Msg>, m: Msg)
    requires AllOk(ms) && MsgInv(m)
    ensures AllOk(ms + [m])
  {
  }

  lemma CreateKeepsCounts(w: World)
    requires CountsOk(w)
    ensures CountsOk(Created(w))
  {
    CountsAfterAppend(w.msgs, NewMsg());
  }

  lemma CreateKeepsInv(w: World)
    requires WorldInv(w)
    ensures WorldInv(Created(w))
  {
    AppendOk(w.msgs, NewMsg());
    CreateKeepsCounts(w);
  }

  lemma UpdateKeepsInv(w: World, i: nat, t: Tx)
    requires WorldInv(w) && i < |w.msgs| && MsgInv(t.m)
    requires Settled(Tx(w.msgs[i], w.inFlight, w.completed), t)
    ensures WorldInv(World(w.msgs[i := t.m], t.inFlight, t.completed))
  {
    CountsAfterUpdate(w.msgs, i, t.m);
  }

  lemma OpKeepsInv(w: World, i: nat, op: Op)
    requires WorldInv(w)
    ensures WorldInv(Step(w, On(i, op)))
  {
    if i < |w.msgs| && CanDo(w.msgs[i], op) {
      var t := Tx(w.msgs[i], w.inFlight, w.completed);
      DoKeepsInv(t, op);
      UpdateKeepsInv(w, i, Do(t, op));
    }
  }

  lemma StepKeepsInv(w: World, ev: Event)
    requires WorldInv(w)
    ensures WorldInv(Step(w, ev))
  {
    match ev
    case Create => CreateKeepsInv(w);
    case On(i, op) => OpKeepsInv(w, i, op);
  }

  lemma {:induction false} RunKeepsInv(evs: seq<Event>)
    ensures WorldInv(Run(evs))
  {
    if evs != [] {
      RunKeepsInv(evs[..|evs| - 1]);
      StepKeepsInv(Run(evs[..|evs| - 1]), evs[|evs| - 1]);
    }
  }

  /** Completion exactly once: in every interleaving a message is released at most
      once, only when done with no frame pending, exactly when the producer has finished
      and the completion reference has gone, and so by the time producer, ring and the
      last completion test have all let go. */
  lemma ReleasedExactlyOnce(evs: seq<Event>, i: nat)
    requires i < |Run(evs).msgs|
    ensures var m := Run(evs).msgs[i];
            && m.releases <= 1
            && (m.releases == 1 ==> m.done && m.pending == 0 && m.onRing == 0)
            && (m.releases == 1 <==> m.phase.Finished? && !m.completionRef)
            && (m.testing == 0 ==> (m.releases == 1 <==> m.phase.Finished? && m.onRing == 0))
  {
    RunKeepsInv(evs);
  }

  /** The late tests of a run. */
  function LateTests(evs: seq<Event>): nat {
    if evs == [] then 0
    else
      var w, ev := Run(evs[..|evs| - 1]), evs[|evs| - 1];
      LateTests(evs[..|evs| - 1]) +
      if ev.On? && ev.i < |w.msgs| && LateTest(w.msgs[ev.i], ev.op) then 1 else 0
  }

  lemma LateSteps(w: World, ev: Event)
    requires WorldInv(w)
    ensures LateSum(Step(w, ev).msgs) == LateSum(w.msgs) +
            if ev.On? && ev.i < |w.msgs| && LateTest(w.msgs[ev.i], ev.op) then 1 else 0
  {
    match ev
    case Create => assert (w.msgs + [NewMsg()])[..|w.msgs|] == w.msgs;
    case On(i, op) =>
      if i < |w.msgs| && CanDo(w.msgs[i], op) {
        var t := Tx(w.msgs[i], w.inFlight, w.completed);
        DoKeepsInv(t, op);
        LateAfterUpdate(w.msgs, i, Do(t, op).m);
      }
  }

  /** A run touches a freed message exactly as often as a completion test comes after the
      producer has finished and another test has taken the completion reference. */
  lemma {:induction false} FreedTouchesAreLateTests(evs: seq<Event>)
    ensures LateSum(Run(evs).msgs) == LateTests(evs)
  {
    if evs != [] {
      FreedTouchesAreLateTests(evs[..|evs| - 1]);
      RunKeepsInv(evs[..|evs| - 1]);
      LateSteps(Run(evs[..|evs| - 1]), evs[|evs| - 1]);
    }
  }

  // ---- Failure by history ----

  /** The last event of the run is an effective one on message `i`. */
  predicate Acts(evs: seq<Event>, i: nat) {
    evs != [] && evs[|evs| - 1].On? && evs[|evs| - 1].i == i &&
    var before := Run(evs[..|evs| - 1]).msgs;
    i < |before| && CanDo(before[i], evs[|evs| - 1].op)
  }

  /** Some callback of message `i` was cancelled, or its producer gave up on it. */
  predicate Spoilt(evs: seq<Event>, i: nat) {
    evs != [] &&
    (Spoilt(evs[..|evs| - 1], i) ||
     (Acts(evs, i) && (evs[|evs| - 1].op == Callback(true) || evs[|evs| - 1].op == MarkFailed)))
  }

  /** The ring refused a frame of message `i`, or its producer stopped. */
  predicate Stopped(evs: seq<Event>, i: nat) {
    evs != [] &&
    (Stopped(evs[..|evs| - 1], i) || (Acts(evs, i) && (evs[|evs| - 1].op.Reject? || evs[|evs| - 1].op.Stop?)))
  }

  lemma {:induction false} NotYetThere(evs: seq<Event>, i: nat)
    requires i >= |Run(evs).msgs|
    ensures !Spoilt(evs, i) && !Stopped(evs, i)
  {
    if evs != [] {
      NotYetThere(evs[..|evs| - 1], i);
    }
  }

  lemma FailureSteps(t: Tx, op: Op)
    requires MsgInv(t.m) && CanDo(t.m, op)
    ensures Do(t, op).m.failed <==> t.m.failed || op == Callback(true) || op == MarkFailed
    ensures op.Reject? || op.Stop? ==> Do(t, op).m.phase.Stopping?
    ensures t.m.phase.Stopping? ==> Do(t, op).m.failed || Do(t, op).m.phase.Stopping?
  {
    match op
    case Arm(frames) =>
    case Accept =>
    case Reject =>
    case Stop =>
    case MarkFailed =>
    case SetDone =>
    case Check =>
    case PutOwn =>
    case Callback(canceled) =>
    case Test =>
  }

  /** No message is stuck: in whatever state a run has left it, the producer's remaining
      steps, its frames' callbacks and their tests free it, with nothing left to come. */
  lemma EveryMessageCanBeFreed(evs: seq<Event>, i: nat)
    requires i < |Run(evs).msgs|
    ensures MsgInv(Run(evs).msgs[i])
    ensures var w := Run(evs); var m := Completed(Tx(w.msgs[i], w.inFlight, w.completed)).m;
            m.releases == 1 && m.pending == 0 && m.testing == 0
  {
    RunKeepsInv(evs);
    var w := Run(evs);
    CompletedIsFreed(Tx(w.msgs[i], w.inFlight, w.completed));
  }

  /** A message is marked failed exactly when a callback of it was cancelled or its
      producer gave up, and a refused frame leads to nothing else. */
  lemma {:induction false} FailedIffSpoilt(evs: seq<Event>, i: nat)
    requires i < |Run(evs).msgs|
    ensures Run(evs).msgs[i].failed <==> Spoilt(evs, i)
    ensures Stopped(evs, i) ==> Run(evs).msgs[i].failed || Run(evs).msgs[i].phase.Stopping?
  {
    var w, e := Run(evs[..|evs| - 1]), evs[|evs| - 1];
    RunKeepsInv(evs[..|evs| - 1]);
    if i >= |w.msgs| {
      NotYetThere(evs[..|evs| - 1], i);
    } else {
      FailedIffSpoilt(evs[..|evs| - 1], i);
      if Acts(evs, i) {
        FailureSteps(Tx(w.msgs[i], w.inFlight, w.completed), e.op);
      }
    }
  }

  /** How often a callback has brought the pending frames of message `i` to zero. */
  function Zeroes(evs: seq<Event>, i: nat): nat {
    if evs == [] then 0
    else
      var before := evs[..|evs| - 1];
      Zeroes(before, i) +
      if Acts(evs, i) && evs[|evs| - 1].op.Callback? && Run(before).msgs[i].pending == 1 then 1 else 0
  }

  /** How many completion tests callbacks of message `i` have made. */
  function Tests(evs: seq<Event>, i: nat): nat {
    if evs == [] then 0
    else Tests(evs[..|evs| - 1], i) + if Acts(evs, i) && evs[|evs| - 1].op.Test? then 1 else 0
  }

  lemma {:induction false} NothingYet(evs: seq<Event>, i: nat)
    requires i >= |Run(evs).msgs|
    ensures Zeroes(evs, i) == Tests(evs, i) == 0
  {
    if evs != [] {
      NothingYet(evs[..|evs| - 1], i);
    }
  }

  lemma TestingSteps(t: Tx, op: Op)
    requires CanDo(t.m, op)
    ensures Do(t, op).m.testing == t.m.testing +
            (if op.Callback? && t.m.pending == 1 then 1 else 0) - (if op.Test? then 1 else 0)
  {
  }

  /** A test is made for each time the pending frames reach zero, and no other. */
  lemma {:induction false} TestsFollowZeroes(evs: seq<Event>, i: nat)
    requires i < |Run(evs).msgs|
    ensures Run(evs).msgs[i].testing + Tests(evs, i) == Zeroes(evs, i)
  {
    var w, e := Run(evs[..|evs| - 1]), evs[|evs| - 1];
    if i >= |w.msgs| {
      NothingYet(evs[..|evs| - 1], i);
    } else {
      TestsFollowZeroes(evs[..|evs| - 1], i);
      if Acts(evs, i) {
        TestingSteps(Tx(w.msgs[i], w.inFlight, w.completed), e.op);
      }
    }
  }

  /** Of the first `n` messages, those freed with nothing having gone wrong. */
  function CleanlyFreed(evs: seq<Event>, n: nat): nat
    requires n <= |Run(evs).msgs|
  {
    if n == 0 then 0
    else CleanlyFreed(evs, n - 1) + if Live(Run(evs).msgs[n - 1]) || Spoilt(evs, n - 1) then 0 else 1
  }

  lemma {:induction false} GoodIsClean(evs: seq<Event>, n: nat)
    requires n <= |Run(evs).msgs|
    ensures GoodCount(Run(evs).msgs[..n]) == CleanlyFreed(evs, n)
  {
    if n > 0 {
      var ms := Run(evs).msgs;
      GoodIsClean(evs, n - 1);
      FailedIffSpoilt(evs, n - 1);
      CountsAfterAppend(ms[..n - 1], ms[n - 1]);
      assert ms[..n] == ms[..n - 1] + [ms[n - 1]];
    }
  }

  /** The stream's counters: messages in flight are the live ones, and completions
      are the released ones of which no callback was cancelled and which their producer
      did not give up. */
  lemma CountersAreExact(evs: seq<Event>)
    ensures var w := Run(evs);
            w.inFlight == LiveCount(w.msgs) && w.completed == CleanlyFreed(evs, |w.msgs|)
  {
    RunKeepsInv(evs);
    GoodIsClean(evs, |Run(evs).msgs|);
    assert Run(evs).msgs[..|Run(evs).msgs|] == Run(evs).msgs;
  }

  // ---- The objects ----

  class TxStream {
    var inFlight: int
    var completed: int

    constructor ()
      ensures inFlight == 0 && completed == 0
    {
      inFlight, completed := 0, 0;
    }
  }

  class TxMessage {
    const stream: TxStream
    var pending: int
    var refs: int
    var completionRef: bool
    var done: bool
    var failed: bool
    ghost var phase: Phase
    ghost var armed: nat
    ghost var onRing: nat
    ghost var testing: nat
    ghost var releases: nat
    ghost var late: nat

    ghost function View(): Tx
      reads this, stream
    {
      Tx(Msg(pending, refs, completionRef, done, failed, phase, armed, onRing, testing, releases, late),
         stream.inFlight, stream.completed)
    }

    constructor (s: TxStream)
      modifies s
      ensures View() == Tx(NewMsg(), old(s.inFlight) + 1, old(s.completed)) && stream == s
    {
      stream := s;
      pending, refs, completionRef, done, failed := 0, 2, true, false, false;
      phase, armed, onRing, testing, releases, late := Sending, 0, 0, 0, 0, 0;
      new;
      s.inFlight := s.inFlight + 1;
    }

    /** `odl_tb5_tx_msg_put`. */
    method PutRef()
      modifies this`refs, this`releases, stream
      ensures View() == Put(old(View()))
    {
      refs := refs - 1;
      if refs == 0 {
        if !failed {
          stream.completed := stream.completed + 1;
        }
        stream.inFlight := stream.inFlight - 1;
        releases := releases + 1;
      }
    }

    /** `odl_tb5_tx_msg_maybe_complete`. */
    method TryComplete()
      modifies this`completionRef, this`refs, this`releases, stream
      ensures View() == MaybeComplete(old(View()))
    {
      if done && pending == 0 {
        var had := completionRef;
        completionRef := false;
        if had {
          PutRef();
        }
      }
    }

    /** The decrement of both TX callbacks; the last one must test. */
    method CountDown(canceled: bool) returns (last: bool)
      requires onRing > 0
      modifies this`failed, this`pending, this`onRing, this`testing
      ensures View() == Do(old(View()), Callback(canceled)) && last == (pending == 0)
    {
      if canceled {
        failed := true;
      }
      pending := pending - 1;
      onRing := onRing - 1;
      last := pending == 0;
      testing := testing + if last then 1 else 0;
    }

    /** The test that follows, on a message still alive. */
    method TestAfter()
      requires testing > 0 && releases == 0
      modifies this`testing, this`completionRef, this`refs, this`releases, stream
      ensures View() == Do(old(View()), Test)
    {
      testing := testing - 1;
      TryComplete();
    }

    /** A whole callback with nothing between its two steps. */
    method OnCallback(canceled: bool)
      requires onRing > 0 && releases == 0
      modifies this, stream
      ensures View() == var t := Do(old(View()), Callback(canceled)); if t.m.pending == 0 then Do(t, Test) else t
    {
      var last := CountDown(canceled);
      if last {
        TestAfter();
      }
    }

    /** Arming and submitting one batch. `accepted(i)` is the ring's answer to frame
        i; a latency-mode frame is a batch of one. */
    method SubmitBatch(n: nat, accepted: nat -> bool) returns (taken: nat)
      requires phase.Sending? && armed == 0 && n > 0
      modifies this`pending, this`armed, this`onRing, this`phase
      ensures taken <= n && (forall i: nat :: i < taken ==> accepted(i))
      ensures taken < n ==> !accepted(taken)
      ensures View() == var t := old(View());
                        t.(m := t.m.(pending := t.m.pending + taken, onRing := t.m.onRing + taken,
                                     phase := if taken < n then Stopping else Sending))
    {
      pending := pending + n;
      armed := n;
      taken := 0;
      while taken < n
        invariant 0 <= taken <= n && armed == n - taken
        invariant forall i: nat :: i < taken ==> accepted(i)
        invariant pending == old(pending) + n && onRing == old(onRing) + taken && phase == Sending
      {
        if !accepted(taken) {
          pending := pending - (n - taken);
          armed := 0;
          phase := Stopping;
          return;
        }
        armed := armed - 1;
        onRing := onRing + 1;
        taken := taken + 1;
      }
    }

    method MarkDone()
      requires phase.Failed? || (phase.Sending? && armed == 0)
      modifies this`done, this`phase
      ensures View() == Do(old(View()), SetDone)
    {
      done, phase := true, DoneSet;
    }

    method CheckDone()
      requires phase.DoneSet?
      modifies this`phase, this`completionRef, this`refs, this`releases, stream
      ensures View() == Do(old(View()), Check)
    {
      phase := Checked;
      TryComplete();
    }

    method DropOwn()
      requires phase.Checked?
      modifies this`phase, this`refs, this`releases, stream
      ensures View() == Do(old(View()), PutOwn)
    {
      phase := Finished;
      PutRef();
    }

    /** The end of either sender, when no callback intervenes. */
    method FinishSending()
      requires phase.Failed? || (phase.Sending? && armed == 0)
      modifies this, stream
      ensures View() == Do(Do(Do(old(View()), SetDone), Check), PutOwn)
    {
      MarkDone();
      CheckDone();
      DropOwn();
    }
  }
}
