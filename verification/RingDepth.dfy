/** Ring depths: which ones are legal, what ring allocation does to a request,
    and the probe loop that falls back to shallower rings. */
module RingDepth {
  import opened Base

  const RING_SIZE_MIN := 64
  const RING_SIZE_MAX := 16384

  predicate IsPow2(n: nat) {
    n == 1 || (n > 1 && n % 2 == 0 && IsPow2(n / 2))
  }

  predicate LegalDepth(n: nat) {
    n != 0 && IsPow2(n) && RING_SIZE_MIN <= n <= RING_SIZE_MAX
  }

  /** The least power-of-two multiple of `p` that is at least `n`. */
  function RoundUpFrom(p: nat, n: nat): nat
    requires p > 0
    decreases n - p
  {
    if p >= n then p else RoundUpFrom(2 * p, n)
  }

  /** The depth `odl_tb5_rings_alloc` stores for a requested depth. */
  function AllocatedDepth(requested: nat): nat {
    RoundUpFrom(1, Min(Max(requested, RING_SIZE_MIN), RING_SIZE_MAX))
  }

  /** Consecutive powers of two differ by a factor of at least two. */
  lemma {:induction false} Pow2Gap(p: nat, n: nat)
    requires IsPow2(p) && IsPow2(n) && p < n
    ensures 2 * p <= n
    decreases n
  {
    if p > 1 {
      Pow2Gap(p / 2, n / 2);
    }
  }

  lemma DoublePow2(p: nat)
    requires IsPow2(p)
    ensures IsPow2(2 * p) && p >= 1
  {
  }

  lemma {:induction false} RoundUpFixesPow2(p: nat, n: nat)
    requires IsPow2(p) && IsPow2(n) && p <= n
    ensures RoundUpFrom(p, n) == n
    decreases n - p
  {
    if p < n {
      Pow2Gap(p, n);
      DoublePow2(p);
      RoundUpFixesPow2(2 * p, n);
    }
  }

  lemma {:induction false} RoundUpIsPow2(p: nat, c: nat, top: nat)
    requires IsPow2(p) && IsPow2(top) && p <= top && c <= top
    ensures IsPow2(RoundUpFrom(p, c)) && c <= RoundUpFrom(p, c) <= top
    decreases c - p
  {
    if p < c {
      Pow2Gap(p, top);
      DoublePow2(p);
      RoundUpIsPow2(2 * p, c, top);
    }
  }

  /** Ring allocation keeps every legal depth and makes every other one legal. */
  lemma {:induction false} AllocationKeepsExactlyLegalDepths(n: nat)
    ensures AllocatedDepth(n) == n <==> LegalDepth(n)
    ensures LegalDepth(AllocatedDepth(n))
  {
    var c := Min(Max(n, RING_SIZE_MIN), RING_SIZE_MAX);
    assert IsPow2(16384) by {
      assert IsPow2(2) && IsPow2(4) && IsPow2(8) && IsPow2(16);
      assert IsPow2(32) && IsPow2(64) && IsPow2(128) && IsPow2(256);
      assert IsPow2(512) && IsPow2(1024) && IsPow2(2048) && IsPow2(4096) && IsPow2(8192);
    }
    RoundUpIsPow2(1, c, 16384);
    if LegalDepth(n) {
      RoundUpFixesPow2(1, n);
    }
  }

  datatype Alloc = Granted | OutOfMemory | Refused(code: int)

  /** The two module parameters that `odl_tb5_init` accepts. */
  predicate ParametersOk(ringSize: nat, fallbackMin: nat) {
    LegalDepth(ringSize) &&
    (fallbackMin != 0 ==>
       IsPow2(fallbackMin) && RING_SIZE_MIN <= fallbackMin <= ringSize)
  }

  /** The probe loop. `grant` answers the ring and DMA-buffer allocation for the
      depth that `odl_tb5_rings_alloc` actually stores. */
  method ProbeDepth(ringSize: nat, fallbackMin: nat, grant: nat -> Alloc)
    returns (outcome: Alloc, depth: nat)
    requires ParametersOk(ringSize, fallbackMin)
    // Every depth tried is legal, so allocation leaves it unchanged.
    ensures LegalDepth(depth) && AllocatedDepth(depth) == depth && depth <= ringSize
    ensures outcome == grant(depth)
    // Everything deeper ran out of memory: the deepest grantable depth wins.
    ensures forall d: nat :: LegalDepth(d) && depth < d <= ringSize ==> grant(d) == OutOfMemory
    // It gives up on memory only at the floor, or with the fallback switched off.
    ensures outcome.OutOfMemory? ==>
              if fallbackMin == 0 then depth == ringSize else depth == fallbackMin
    ensures fallbackMin != 0 ==> fallbackMin <= depth
  {
    depth := ringSize;
    AllocationKeepsExactlyLegalDepths(depth);
    outcome := grant(AllocatedDepth(depth));
    while !(outcome.Granted? || outcome.Refused? || fallbackMin == 0 || depth <= fallbackMin)
      invariant LegalDepth(depth) && AllocatedDepth(depth) == depth && depth <= ringSize
      invariant outcome == grant(depth)
      invariant fallbackMin != 0 ==> fallbackMin <= depth
      invariant fallbackMin == 0 ==> depth == ringSize
      invariant forall d: nat :: LegalDepth(d) && depth < d <= ringSize ==> grant(d) == OutOfMemory
      decreases depth
    {
      var next := Max(depth / 2, fallbackMin);
      Pow2Gap(fallbackMin, depth);
      assert next == depth / 2;
      forall d: nat | LegalDepth(d) && next < d <= ringSize ensures grant(d) == OutOfMemory {
        if d < depth {
          Pow2Gap(d, depth);
          assert false;
        }
      }
      depth := next;
      AllocationKeepsExactlyLegalDepths(depth);
      outcome := grant(AllocatedDepth(depth));
    }
  }
}
