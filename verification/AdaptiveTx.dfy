/** The choice between latency and throughput mode, and its hysteresis. */
module AdaptiveTx {
  import opened Base
  import RingDepth
  import opened Wire

  const FRAME_POOL_SIZE := 4096
  const TX_POOL_RESERVE := 256
  const THROUGHPUT_THRESH := 65536
  const MODE_HYSTERESIS := 4

  datatype Mode = Latency | Throughput

  datatype Adaptive = Adaptive(mode: Mode, lows: nat)

  datatype Marks = Marks(high: nat, low: nat)

  function Watermarks(ring: nat): Marks {
    Marks(Min(ring * 3 / 4, FRAME_POOL_SIZE - TX_POOL_RESERVE),
          Min(ring / 4, (FRAME_POOL_SIZE - TX_POOL_RESERVE) / 2))
  }

  /** What one send sees: whether batch buffers exist, its length, the load. */
  datatype Load = Load(ready: bool, len: nat, used: nat)

  predicate Low(m: Marks, x: Load) {
    x.len <= THROUGHPUT_THRESH && x.used < m.low
  }

  predicate Heavy(m: Marks, x: Load) {
    x.len > THROUGHPUT_THRESH || x.used + DivUp(x.len, PAYLOAD_MAX) > m.high
  }

  /** The state after a send, as a reference: heavy loads switch up at once, and four
      low ones in a row switch down. */
  function Next(s: Adaptive, m: Marks, x: Load): Adaptive {
    if !x.ready then s
    else if x.len > THROUGHPUT_THRESH then Adaptive(Throughput, 0)
    else if s.mode.Latency? then if Heavy(m, x) then Adaptive(Throughput, 0) else s
    else if !Low(m, x) then Adaptive(Throughput, 0)
    else if s.lows + 1 >= MODE_HYSTERESIS then Adaptive(Latency, 0)
    else Adaptive(Throughput, s.lows + 1)
  }

  function Run(m: Marks, xs: seq<Load>): Adaptive {
    if xs == [] then Adaptive(Latency, 0) else Next(Run(m, xs[..|xs| - 1]), m, xs[|xs| - 1])
  }

  /** The loads seen while batch buffers existed. */
  function Ready(xs: seq<Load>): seq<Load> {
    if xs == [] then []
    else if xs[|xs| - 1].ready then Ready(xs[..|xs| - 1]) + [xs[|xs| - 1]]
    else Ready(xs[..|xs| - 1])
  }

  predicate LastLow(m: Marks, xs: seq<Load>, k: nat) {
    k <= |xs| && forall i :: |xs| - k <= i < |xs| ==> Low(m, xs[i])
  }

  lemma {:induction false} LowsAreCounted(m: Marks, xs: seq<Load>)
    ensures Run(m, xs).mode.Latency? ==> Run(m, xs).lows == 0
    ensures Run(m, xs).lows < MODE_HYSTERESIS && LastLow(m, Ready(xs), Run(m, xs).lows)
  {
    if xs != [] {
      LowsAreCounted(m, xs[..|xs| - 1]);
    }
  }

  /** Hysteresis: in every run, a switch down to latency mode comes only after four
      consecutive sends that were small and found the load below the low mark. */
  lemma DownshiftNeedsFourLows(m: Marks, xs: seq<Load>, x: Load)
    requires Run(m, xs).mode.Throughput? && Run(m, xs + [x]).mode.Latency?
    ensures LastLow(m, Ready(xs + [x]), MODE_HYSTERESIS)
  {
    assert (xs + [x])[..|xs|] == xs;
    LowsAreCounted(m, xs);
  }

  /** No flapping: at every legal ring depth, a load low enough to switch down is not
      heavy for any message up to the threshold, so latency mode is kept. */
  lemma LowIsNotHeavy(ring: nat, x: Load, s: Adaptive)
    requires RingDepth.LegalDepth(ring) && Low(Watermarks(ring), x) && s.mode.Latency?
    ensures !Heavy(Watermarks(ring), x) && Next(s, Watermarks(ring), x) == s
  {
    assert DivUp(x.len, PAYLOAD_MAX) <= 17;
  }

  /** The low loads in a row at the end of `xs`. */
  function TrailingLows(m: Marks, xs: seq<Load>): nat {
    if xs == [] || !Low(m, xs[|xs| - 1]) then 0 else TrailingLows(m, xs[..|xs| - 1]) + 1
  }

  /** The counter is exact at every legal ring depth: in throughput mode it is the number
      of low loads in a row that the device has just seen. */
  lemma {:induction false} CounterIsExact(ring: nat, xs: seq<Load>)
    requires RingDepth.LegalDepth(ring)
    ensures var s := Run(Watermarks(ring), xs);
            if s.mode.Latency? then s.lows == 0
            else s.lows == TrailingLows(Watermarks(ring), Ready(xs)) < MODE_HYSTERESIS
  {
    if xs != [] {
      var n := |xs| - 1;
      var m := Watermarks(ring);
      CounterIsExact(ring, xs[..n]);
      if xs[n].ready {
        assert Ready(xs)[..|Ready(xs)| - 1] == Ready(xs[..n]);
        if Low(m, xs[n]) && Run(m, xs[..n]).mode.Latency? {
          LowIsNotHeavy(ring, xs[n], Run(m, xs[..n]));
        }
      }
    }
  }

  lemma {:induction false} TrailingAtLeast(m: Marks, xs: seq<Load>, k: nat)
    ensures TrailingLows(m, xs) >= k <==> LastLow(m, xs, k)
    decreases |xs|
  {
    if xs != [] && k > 0 {
      var n := |xs| - 1;
      TrailingAtLeast(m, xs[..n], k - 1);
      if Low(m, xs[n]) && LastLow(m, xs[..n], k - 1) {
        assert forall i :: |xs| - k <= i < n ==> xs[..n][i] == xs[i];
      }
    }
  }

  /** Throughput mode is left exactly at the fourth low load in a row: four sends of at most
      64 KiB that each find fewer frames in use than a quarter of the ring and half of the
      pool less its reserve. */
  lemma DownshiftIsExact(ring: nat, xs: seq<Load>, x: Load)
    requires RingDepth.LegalDepth(ring) && Run(Watermarks(ring), xs).mode.Throughput?
    ensures Run(Watermarks(ring), xs + [x]).mode.Latency? <==>
            TrailingLows(Watermarks(ring), Ready(xs + [x])) == MODE_HYSTERESIS
    ensures var seen := Ready(xs + [x]);
            Run(Watermarks(ring), xs + [x]).mode.Latency? <==>
              && |seen| >= 4
              && forall i :: |seen| - 4 <= i < |seen| ==> seen[i].len <= 65536 && seen[i].used < Min(ring / 4, 1920)
  {
    TrailingAtLeast(Watermarks(ring), Ready(xs + [x]), 4);
    assert (xs + [x])[..|xs|] == xs;
    CounterIsExact(ring, xs);
    if x.ready {
      assert Ready(xs + [x])[..|Ready(xs)|] == Ready(xs);
    }
  }

  /** Latency mode is left exactly at a load that is large or that, with its own frames,
      exceeds three quarters of the ring or all of the pool but the reserve. */
  lemma UpshiftIsExact(ring: nat, xs: seq<Load>, x: Load)
    requires Run(Watermarks(ring), xs).mode.Latency?
    ensures Run(Watermarks(ring), xs + [x]).mode.Throughput? <==>
            x.ready && (x.len > 65536 || x.used + DivUp(x.len, PAYLOAD_MAX) > Min(ring * 3 / 4, 4096 - 256))
  {
    assert (xs + [x])[..|xs|] == xs;
  }

  /** With half the pool posted for receiving, throughput mode is never left: the load
      alone is above the low mark at every depth. */
  lemma {:induction false} NoDownshiftWithReceivesPosted(ring: nat, xs: seq<Load>, ys: seq<Load>)
    requires Run(Watermarks(ring), xs).mode.Throughput?
    requires forall i :: 0 <= i < |ys| ==> ys[i].used >= FRAME_POOL_SIZE / 2
    ensures Run(Watermarks(ring), xs + ys).mode.Throughput?
    decreases |ys|
  {
    if ys == [] {
      assert xs + ys == xs;
    } else {
      var n := |ys| - 1;
      assert (xs + ys)[..|xs + ys| - 1] == xs + ys[..n];
      NoDownshiftWithReceivesPosted(ring, xs, ys[..n]);
    }
  }

  /** The `tx_adaptive` fields of the device. */
  class TxAdaptive {
    var mode: Mode
    var consecutiveLow: nat
    var highWatermark: nat
    var lowWatermark: nat

    ghost function View(): Adaptive
      reads this
    {
      Adaptive(mode, consecutiveLow)
    }

    ghost function ViewMarks(): Marks
      reads this
    {
      Marks(highWatermark, lowWatermark)
    }

    constructor (ring: nat)
      ensures View() == Adaptive(Latency, 0) && ViewMarks() == Watermarks(ring)
    {
      mode, consecutiveLow := Latency, 0;
      highWatermark := Min(ring * 3 / 4, FRAME_POOL_SIZE - TX_POOL_RESERVE);
      lowWatermark := Min(ring / 4, (FRAME_POOL_SIZE - TX_POOL_RESERVE) / 2);
    }

    /** `odl_tb5_evaluate_tx_mode`. */
    method Evaluate(batchReady: bool, len: nat, poolUsed: nat) returns (chosen: Mode)
      modifies this`mode, this`consecutiveLow
      ensures View() == Next(old(View()), ViewMarks(), Load(batchReady, len, poolUsed))
      ensures chosen == if batchReady then mode else Latency
    {
      if !batchReady {
        return Latency;
      }
      if len > THROUGHPUT_THRESH {
        consecutiveLow := 0;
        mode := Throughput;
        return Throughput;
      }
      var nframes := DivUp(len, PAYLOAD_MAX);
      if mode == Latency {
        if poolUsed + nframes > highWatermark {
          consecutiveLow := 0;
          mode := Throughput;
        }
      } else if poolUsed < lowWatermark {
        consecutiveLow := consecutiveLow + 1;
        if consecutiveLow >= MODE_HYSTERESIS {
          mode := Latency;
          consecutiveLow := 0;
        }
      } else {
        consecutiveLow := 0;
      }
      chosen := mode;
    }
  }
}
