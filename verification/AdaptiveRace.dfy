/** Evaluations of the transmit mode that overlap: the source takes no lock around them, so
    each read and write of the shared counter and mode is a step of its own. */
module AdaptiveRace {
  import opened AdaptiveTx

  /** Where one evaluation is. `ToWrite` holds the counter it has read, plus one. */
  datatype Stage =
    | ToClear(raise: bool)
    | ToRaise
    | ToRead
    | ToWrite(value: nat)
    | ToLower
    | ToReset
    | Over

  /** The shared fields and the evaluations begun so far. */
  datatype Shared = Shared(mode: Mode, count: nat, evals: seq<Stage>)

  datatype Event = Begin(x: Load) | Advance(r: nat)

  /** Where an evaluation goes after it has looked at its load and the mode. */
  function Entry(m: Marks, mode: Mode, x: Load): Stage {
    if !x.ready then Over
    else if x.len > THROUGHPUT_THRESH then ToClear(true)
    else if mode.Latency? then if Heavy(m, x) then ToClear(true) else Over
    else if Low(m, x) then ToRead
    else ToClear(false)
  }

  function Advanced(s: Shared, r: nat): Shared
    requires r < |s.evals|
  {
    match s.evals[r]
    case ToClear(raise) => s.(count := 0, evals := s.evals[r := if raise then ToRaise else Over])
    case ToRaise => s.(mode := Throughput, evals := s.evals[r := Over])
    case ToRead => s.(evals := s.evals[r := ToWrite(s.count + 1)])
    case ToWrite(value) =>
      s.(count := value, evals := s.evals[r := if value >= MODE_HYSTERESIS then ToLower else Over])
    case ToLower => s.(mode := Latency, evals := s.evals[r := ToReset])
    case ToReset => s.(count := 0, evals := s.evals[r := Over])
    case Over => s
  }

  function Step(m: Marks, s: Shared, e: Event): Shared {
    match e
    case Begin(x) => s.(evals := s.evals + [Entry(m, s.mode, x)])
    case Advance(r) => if r < |s.evals| then Advanced(s, r) else s
  }

  function Run(m: Marks, evs: seq<Event>): Shared {
    if evs == [] then Shared(Latency, 0, []) else Step(m, Run(m, evs[..|evs| - 1]), evs[|evs| - 1])
  }

  /** An evaluation that nothing interrupts takes the step of the reference. */
  lemma AloneIsNext(m: Marks, s: Shared, x: Load)
    ensures var n := Advance(|s.evals|);
            var t := Step(m, Step(m, Step(m, Step(m, Step(m, s, Begin(x)), n), n), n), n);
            && Adaptive(t.mode, t.count) == Next(Adaptive(s.mode, s.count), m, x)
            && t.evals == s.evals + [Over]
  {
    var n := |s.evals|;
    var begun := Step(m, s, Begin(x));
    assert begun.evals[n] == Entry(m, s.mode, x);
    assert forall st: Stage :: begun.evals[n := st] == s.evals + [st];
  }

  /** The loads of the evaluations begun so far. */
  function Loads(evs: seq<Event>): seq<Load> {
    if evs == [] then []
    else Loads(evs[..|evs| - 1]) + if evs[|evs| - 1].Begin? then [evs[|evs| - 1].x] else []
  }

  /** An evaluation raises the mode only for a heavy load, and works towards lowering it
      only for a low one. */
  predicate Justified(m: Marks, stage: Stage, x: Load) {
    && (stage == ToClear(true) || stage.ToRaise? ==> x.ready && Heavy(m, x))
    && (stage.ToRead? || stage.ToWrite? || stage.ToLower? ==> x.ready && Low(m, x))
  }

  /** However evaluations overlap, the mode is raised only for a heavy load and lowered
      only for a low one. */
  lemma {:induction false} MovesAreJustified(m: Marks, evs: seq<Event>)
    ensures var s := Run(m, evs);
            |s.evals| == |Loads(evs)| && forall r :: 0 <= r < |s.evals| ==> Justified(m, s.evals[r], Loads(evs)[r])
  {
    if evs != [] {
      MovesAreJustified(m, evs[..|evs| - 1]);
    }
  }

  /** The next step of evaluation `r` sets the counter to zero. */
  predicate Clears(s: Shared, e: Event) {
    e.Advance? && e.r < |s.evals| && (s.evals[e.r].ToClear? || s.evals[e.r].ToReset?)
  }

  predicate WritesLow(s: Shared, e: Event) {
    e.Advance? && e.r < |s.evals| && s.evals[e.r].ToWrite?
  }

  /** The low loads recorded since the counter was last set to zero. */
  function LowsSince(m: Marks, evs: seq<Event>): nat {
    if evs == [] then 0
    else
      var s, e := Run(m, evs[..|evs| - 1]), evs[|evs| - 1];
      if Clears(s, e) then 0
      else LowsSince(m, evs[..|evs| - 1]) + if WritesLow(s, e) then 1 else 0
  }

  /** The next step of evaluation `r` decides for latency mode. */
  predicate Decides(s: Shared, r: nat) {
    r < |s.evals| && s.evals[r].ToWrite? && s.evals[r].value >= MODE_HYSTERESIS
  }

  /** And does so although fewer than four low loads, its own included, are on record. */
  predicate Unearned(m: Marks, evs: seq<Event>, r: nat) {
    Decides(Run(m, evs), r) && LowsSince(m, evs) + 1 < MODE_HYSTERESIS
  }

  // ---- Without a clear between a read and its write ----

  predicate NoneReading(s: Shared) {
    forall r :: 0 <= r < |s.evals| ==> !s.evals[r].ToWrite?
  }

  /** No evaluation sets the counter to zero while another is about to write what it read. */
  predicate NoStaleWrites(m: Marks, evs: seq<Event>) {
    evs == [] ||
    (NoStaleWrites(m, evs[..|evs| - 1]) &&
     (Clears(Run(m, evs[..|evs| - 1]), evs[|evs| - 1]) ==> NoneReading(Run(m, evs[..|evs| - 1]))))
  }

  /** The counter, and every value about to be written, is backed by recorded lows. */
  predicate Backed(s: Shared, lows: nat) {
    && s.count <= lows
    && forall r :: 0 <= r < |s.evals| && s.evals[r].ToWrite? ==> s.evals[r].value <= lows + 1
  }

  lemma StepKeepsBacked(m: Marks, s: Shared, e: Event, lows: nat)
    requires Backed(s, lows) && (Clears(s, e) ==> NoneReading(s))
    ensures Backed(Step(m, s, e), if Clears(s, e) then 0 else lows + if WritesLow(s, e) then 1 else 0)
  {
  }

  lemma {:induction false} RunIsBacked(m: Marks, evs: seq<Event>)
    requires NoStaleWrites(m, evs)
    ensures Backed(Run(m, evs), LowsSince(m, evs))
  {
    if evs != [] {
      RunIsBacked(m, evs[..|evs| - 1]);
      StepKeepsBacked(m, Run(m, evs[..|evs| - 1]), evs[|evs| - 1], LowsSince(m, evs[..|evs| - 1]));
    }
  }

  /** Hysteresis under overlap: in every run in which no clear falls between a read and
      its write, every decision for latency mode follows four recorded low loads. */
  lemma DecisionsAreEarned(m: Marks, evs: seq<Event>, r: nat)
    requires NoStaleWrites(m, evs)
    ensures !Unearned(m, evs, r)
  {
    RunIsBacked(m, evs);
  }

  // ---- A clear in between ----

  lemma Extend(m: Marks, evs: seq<Event>, e: Event)
    ensures Run(m, evs + [e]) == Step(m, Run(m, evs), e)
  {
    assert (evs + [e])[..|evs|] == evs;
  }

  lemma {:induction false} KeepsStage(m: Marks, evs: seq<Event>, more: seq<Event>, r: nat)
    requires r < |Run(m, evs).evals| && forall i :: 0 <= i < |more| ==> more[i] != Advance(r)
    ensures r < |Run(m, evs + more).evals| && Run(m, evs + more).evals[r] == Run(m, evs).evals[r]
    decreases |more|
  {
    if more == [] {
      assert evs + more == evs;
    } else {
      var n := |more| - 1;
      KeepsStage(m, evs, more[..n], r);
      assert evs + more == (evs + more[..n]) + [more[n]];
      Extend(m, evs + more[..n], more[n]);
    }
  }

  /** What a clear does to an evaluation that has read the counter: however the run goes on
      until its write, the write decides for latency mode unearned if and only if it had
      read three or more and fewer than three lows have been recorded by then. */
  lemma UnearnedIff(m: Marks, evs: seq<Event>, q: nat, r: nat, more: seq<Event>)
    requires Clears(Run(m, evs), Advance(q)) && r < |Run(m, evs).evals| && Run(m, evs).evals[r].ToWrite?
    requires forall i :: 0 <= i < |more| ==> more[i] != Advance(r)
    ensures var all := evs + ([Advance(q)] + more);
            Unearned(m, all, r) <==>
            Run(m, evs).evals[r].value > 3 && LowsSince(m, all) < 3
  {
    KeepsStage(m, evs, [Advance(q)] + more, r);
  }

  // ---- Such a run ----

  lemma LowRound(m: Marks, evs: seq<Event>, x: Load)
    requires Run(m, evs).mode.Throughput? && Run(m, evs).count + 1 < MODE_HYSTERESIS && x.ready && Low(m, x)
    ensures var s := Run(m, evs); var n := |s.evals|;
            Run(m, evs + [Begin(x)] + [Advance(n)] + [Advance(n)]) ==
            Shared(Throughput, s.count + 1, s.evals + [Over])
  {
    var s := Run(m, evs);
    var n := |s.evals|;
    Extend(m, evs, Begin(x));
    Extend(m, evs + [Begin(x)], Advance(n));
    Extend(m, evs + [Begin(x)] + [Advance(n)], Advance(n));
    assert (s.evals + [ToRead])[n := ToWrite(s.count + 1)][n := Over] == s.evals + [Over];
  }

  lemma HeavyRound(m: Marks, h: Load)
    requires h.ready && h.len > THROUGHPUT_THRESH
    ensures Run(m, [Begin(h)] + [Advance(0)] + [Advance(0)]) == Shared(Throughput, 0, [Over])
  {
    Extend(m, [], Begin(h));
    assert [] + [Begin(h)] == [Begin(h)] && [] + [ToClear(true)] == [ToClear(true)];
    Extend(m, [Begin(h)], Advance(0));
    Extend(m, [Begin(h)] + [Advance(0)], Advance(0));
  }

  /** After a large message, three low loads and a fourth that has read the counter, another
      large message begins. */
  lemma ThreeLowsAndAHalf(m: Marks, h: Load, x: Load) returns (evs: seq<Event>)
    requires h.ready && h.len > THROUGHPUT_THRESH && x.ready && Low(m, x)
    ensures Run(m, evs) == Shared(Throughput, 3, [Over, Over, Over, Over, ToWrite(4), ToClear(true)])
  {
    HeavyRound(m, h);
    evs := [Begin(h)] + [Advance(0)] + [Advance(0)];
    LowRound(m, evs, x);
    evs := evs + [Begin(x)] + [Advance(1)] + [Advance(1)];
    LowRound(m, evs, x);
    evs := evs + [Begin(x)] + [Advance(2)] + [Advance(2)];
    LowRound(m, evs, x);
    evs := evs + [Begin(x)] + [Advance(3)] + [Advance(3)];
    Extend(m, evs, Begin(x));
    evs := evs + [Begin(x)];
    Extend(m, evs, Advance(4));
    evs := evs + [Advance(4)];
    Extend(m, evs, Begin(h));
    evs := evs + [Begin(h)];
  }

  /** The race is real: the fourth load drops the device to latency mode although only one
      low load has come since the last large message. */
  lemma UnearnedDownshift(m: Marks, h: Load, x: Load) returns (evs: seq<Event>)
    requires h.ready && h.len > THROUGHPUT_THRESH && x.ready && Low(m, x)
    ensures Unearned(m, evs, 4) && LowsSince(m, evs) == 0
    ensures Run(m, evs + [Advance(4)] + [Advance(4)]).mode.Latency?
  {
    var before := ThreeLowsAndAHalf(m, h, x);
    evs := before + [Advance(5)];
    assert evs[..|before|] == before;
    Extend(m, before, Advance(5));
    Extend(m, evs, Advance(4));
    Extend(m, evs + [Advance(4)], Advance(4));
  }
}
