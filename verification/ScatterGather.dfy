/** Cutting a window of a scatter-gather list into ring frames, as the DMA-buf
    submit loops do for both directions. */
module ScatterGather {
  import opened Base
  import Wire

  const FRAME_SIZE := Wire.FRAME_SIZE

  /** A frame's place: a stretch of one segment. */
  datatype Chunk = Chunk(seg: nat, off: nat, len: nat)

  datatype Outcome = Done | NoSpace | RingError

  predicate Fits(segs: seq<seq<Byte>>, c: Chunk) {
    c.seg < |segs| && 0 < c.len <= FRAME_SIZE && c.off + c.len <= |segs[c.seg]|
  }

  predicate AllFit(segs: seq<seq<Byte>>, cs: seq<Chunk>) {
    forall i :: 0 <= i < |cs| ==> Fits(segs, cs[i])
  }

  function BytesOf(segs: seq<seq<Byte>>, c: Chunk): seq<Byte>
    requires Fits(segs, c)
  {
    segs[c.seg][c.off..c.off + c.len]
  }

  /** The bytes that a list of frames carries. */
  function Gather(segs: seq<seq<Byte>>, cs: seq<Chunk>): seq<Byte>
    requires AllFit(segs, cs)
  {
    if cs == [] then [] else BytesOf(segs, cs[0]) + Gather(segs, cs[1..])
  }

  lemma {:induction false} GatherConcat(segs: seq<seq<Byte>>, xs: seq<Chunk>, ys: seq<Chunk>)
    requires AllFit(segs, xs) && AllFit(segs, ys)
    ensures AllFit(segs, xs + ys)
    ensures Gather(segs, xs + ys) == Gather(segs, xs) + Gather(segs, ys)
  {
    if xs == [] {
      assert xs + ys == ys;
    } else {
      assert (xs + ys)[1..] == xs[1..] + ys;
      GatherConcat(segs, xs[1..], ys);
    }
  }

  lemma GatherFirst(segs: seq<seq<Byte>>, c: Chunk, cs: seq<Chunk>)
    requires Fits(segs, c) && AllFit(segs, cs)
    ensures AllFit(segs, [c] + cs) && Gather(segs, [c] + cs) == BytesOf(segs, c) + Gather(segs, cs)
  {
    assert ([c] + cs)[1..] == cs;
  }

  /** Frames needed for `len` bytes after skipping `skip`: each segment's share is
      cut on its own. */
  function Needed(segs: seq<seq<Byte>>, skip: nat, len: nat): nat {
    if segs == [] || len == 0 then 0
    else if skip >= |segs[0]| then Needed(segs[1..], skip - |segs[0]|, len)
    else
      var take := Min(|segs[0]| - skip, len);
      DivUp(take, FRAME_SIZE) + Needed(segs[1..], 0, len - take)
  }

  function Window(segs: seq<seq<Byte>>, skip: nat, len: nat): seq<Byte>
    requires skip + len <= |Flatten(segs)|
  {
    Flatten(segs)[skip..skip + len]
  }

  lemma WindowSkips(segs: seq<seq<Byte>>, skip: nat, len: nat)
    requires segs != [] && skip + len <= |Flatten(segs)| && skip >= |segs[0]|
    ensures skip - |segs[0]| + len <= |Flatten(segs[1..])|
    ensures Window(segs, skip, len) == Window(segs[1..], skip - |segs[0]|, len)
  {
  }

  lemma WindowSplits(segs: seq<seq<Byte>>, skip: nat, len: nat)
    requires segs != [] && skip + len <= |Flatten(segs)| && skip < |segs[0]|
    ensures var take := Min(|segs[0]| - skip, len);
            && len - take <= |Flatten(segs[1..])|
            && Window(segs, skip, len) == segs[0][skip..skip + take] + Window(segs[1..], 0, len - take)
  {
  }

  // ---- The frames ----

  function CutSegment(i: nat, pos: nat, take: nat): seq<Chunk>
    decreases take
  {
    if take == 0 then []
    else
      var n := Min(FRAME_SIZE, take);
      [Chunk(i, pos, n)] + CutSegment(i, pos + n, take - n)
  }

  function Cut(segs: seq<seq<Byte>>, i: nat, skip: nat, len: nat): seq<Chunk>
    requires i <= |segs|
    decreases |segs| - i
  {
    if i == |segs| || len == 0 then []
    else if skip >= |segs[i]| then Cut(segs, i + 1, skip - |segs[i]|, len)
    else
      var take := Min(|segs[i]| - skip, len);
      CutSegment(i, skip, take) + Cut(segs, i + 1, 0, len - take)
  }

  lemma {:induction false} CutSegmentCovers(segs: seq<seq<Byte>>, i: nat, pos: nat, take: nat)
    requires i < |segs| && pos + take <= |segs[i]|
    ensures AllFit(segs, CutSegment(i, pos, take))
    ensures Gather(segs, CutSegment(i, pos, take)) == segs[i][pos..pos + take]
    decreases take
  {
    if take > 0 {
      var n := Min(FRAME_SIZE, take);
      CutSegmentCovers(segs, i, pos + n, take - n);
      GatherFirst(segs, Chunk(i, pos, n), CutSegment(i, pos + n, take - n));
      assert segs[i][pos..pos + take] == segs[i][pos..pos + n] + segs[i][pos + n..pos + take];
    }
  }

  lemma {:induction false} CutSegmentCount(i: nat, pos: nat, take: nat)
    ensures |CutSegment(i, pos, take)| == DivUp(take, FRAME_SIZE)
    decreases take
  {
    if take > 0 {
      var n := Min(FRAME_SIZE, take);
      CutSegmentCount(i, pos + n, take - n);
    }
  }

  lemma {:induction false} CutCount(segs: seq<seq<Byte>>, i: nat, skip: nat, len: nat)
    requires i <= |segs|
    ensures |Cut(segs, i, skip, len)| == Needed(segs[i..], skip, len)
    decreases |segs| - i
  {
    if i < |segs| && len > 0 {
      assert segs[i..][1..] == segs[i + 1..];
      if skip >= |segs[i]| {
        CutCount(segs, i + 1, skip - |segs[i]|, len);
      } else {
        var take := Min(|segs[i]| - skip, len);
        CutSegmentCount(i, skip, take);
        CutCount(segs, i + 1, 0, len - take);
      }
    }
  }

  lemma SegmentThenRest(segs: seq<seq<Byte>>, i: nat, skip: nat, len: nat)
    requires i < |segs| && len > 0 && skip < |segs[i]|
    requires AllFit(segs, Cut(segs, i + 1, 0, len - Min(|segs[i]| - skip, len)))
    ensures var take := Min(|segs[i]| - skip, len);
            && AllFit(segs, Cut(segs, i, skip, len))
            && Gather(segs, Cut(segs, i, skip, len)) ==
               segs[i][skip..skip + take] + Gather(segs, Cut(segs, i + 1, 0, len - take))
  {
    var take := Min(|segs[i]| - skip, len);
    CutSegmentCovers(segs, i, skip, take);
    GatherConcat(segs, CutSegment(i, skip, take), Cut(segs, i + 1, 0, len - take));
  }

  /** Coverage: the frames carry exactly the window, in order, each at most a frame
      long and inside one segment. */
  lemma {:induction false} CutCovers(segs: seq<seq<Byte>>, i: nat, skip: nat, len: nat)
    requires i <= |segs| && skip + len <= |Flatten(segs[i..])|
    ensures AllFit(segs, Cut(segs, i, skip, len))
    ensures Gather(segs, Cut(segs, i, skip, len)) == Window(segs[i..], skip, len)
    decreases |segs| - i
  {
    if i < |segs| && len > 0 {
      assert segs[i..][1..] == segs[i + 1..];
      if skip >= |segs[i]| {
        WindowSkips(segs[i..], skip, len);
        CutCovers(segs, i + 1, skip - |segs[i]|, len);
      } else {
        WindowSplits(segs[i..], skip, len);
        var take := Min(|segs[i]| - skip, len);
        CutCovers(segs, i + 1, 0, len - take);
        SegmentThenRest(segs, i, skip, len);
      }
    }
  }

  // ---- The loops ----

  predicate AcceptedUpTo(accepted: nat -> bool, n: nat) {
    forall i: nat :: i < n ==> accepted(i)
  }

  /** What becomes of a list of frames on a ring of `ringSize` entries. */
  ghost predicate Submitted(all: seq<Chunk>, frames: seq<Chunk>, outcome: Outcome,
                            ringSize: nat, accepted: nat -> bool) {
    && frames <= all && |frames| <= ringSize && AcceptedUpTo(accepted, |frames|)
    && (outcome.Done? ==> frames == all)
    && (outcome.NoSpace? ==> |frames| == ringSize < |all|)
    && (outcome.RingError? ==> |frames| < ringSize && |frames| < |all| && !accepted(|frames|))
  }

  lemma TakeFrom(segs: seq<seq<Byte>>, i: nat, skip: nat, len: nat, before: seq<Chunk>)
    requires i < |segs| && len > 0 && skip < |segs[i]|
    ensures var take := Min(|segs[i]| - skip, len);
            before + Cut(segs, i, skip, len) ==
            (before + CutSegment(i, skip, take)) + Cut(segs, i + 1, 0, len - take)
  {
  }

  lemma StopsShort(mine: seq<Chunk>, rest: seq<Chunk>, frames: seq<Chunk>, outcome: Outcome,
                   ringSize: nat, accepted: nat -> bool)
    requires Submitted(mine, frames, outcome, ringSize, accepted) && !outcome.Done?
    ensures Submitted(mine + rest, frames, outcome, ringSize, accepted)
  {
  }

  /** The inner loop: `take` bytes of segment `i` from `pos` on, after `before`. */
  method SubmitSegment(i: nat, pos: nat, take: nat, before: seq<Chunk>, ringSize: nat, accepted: nat -> bool)
    returns (frames: seq<Chunk>, outcome: Outcome)
    requires |before| <= ringSize && AcceptedUpTo(accepted, |before|)
    ensures Submitted(before + CutSegment(i, pos, take), frames, outcome, ringSize, accepted)
  {
    ghost var all := before + CutSegment(i, pos, take);
    frames := before;
    var at: nat, left: nat := pos, take;
    while left > 0
      invariant |frames| <= ringSize && AcceptedUpTo(accepted, |frames|)
      invariant frames + CutSegment(i, at, left) == all
    {
      if |frames| >= ringSize {
        return frames, NoSpace;
      }
      if !accepted(|frames|) {
        return frames, RingError;
      }
      var chunk := Min(FRAME_SIZE, left);
      frames := frames + [Chunk(i, at, chunk)];
      at := at + chunk;
      left := left - chunk;
    }
    outcome := Done;
  }

  method SubmitAll(segs: seq<seq<Byte>>, offset: nat, len: nat, ringSize: nat, accepted: nat -> bool)
    returns (frames: seq<Chunk>, outcome: Outcome)
    ensures Submitted(Cut(segs, 0, offset, len), frames, outcome, ringSize, accepted)
  {
    ghost var all := Cut(segs, 0, offset, len);
    frames := [];
    var skip: nat, left: nat := offset, len;
    var i := 0;
    while i < |segs| && left > 0
      invariant 0 <= i <= |segs| && |frames| <= ringSize && AcceptedUpTo(accepted, |frames|)
      invariant frames + Cut(segs, i, skip, left) == all
    {
      if skip >= |segs[i]| {
        skip := skip - |segs[i]|;
      } else {
        var take := Min(|segs[i]| - skip, left);
        ghost var mine, rest := frames + CutSegment(i, skip, take), Cut(segs, i + 1, 0, left - take);
        TakeFrom(segs, i, skip, left, frames);
        frames, outcome := SubmitSegment(i, skip, take, frames, ringSize, accepted);
        if !outcome.Done? {
          StopsShort(mine, rest, frames, outcome, ringSize, accepted);
          return;
        }
        left := left - take;
        skip := 0;
      }
      i := i + 1;
    }
    outcome := Done;
  }

  /** The submit loop. It succeeds exactly when the ring is deep enough and takes every
      frame; then the frames carry exactly bytes [offset, offset + len). ENOSPC is the
      answer exactly when more frames are needed than the ring has. */
  method Submit(segs: seq<seq<Byte>>, offset: nat, len: nat, ringSize: nat, accepted: nat -> bool)
    returns (frames: seq<Chunk>, outcome: Outcome)
    requires offset + len <= |Flatten(segs)|
    ensures AllFit(segs, frames) && Gather(segs, frames) <= Window(segs, offset, len)
    ensures outcome.Done? <==>
              Needed(segs, offset, len) <= ringSize && AcceptedUpTo(accepted, Needed(segs, offset, len))
    ensures outcome.Done? ==> Gather(segs, frames) == Window(segs, offset, len)
    ensures outcome.NoSpace? <==>
              Needed(segs, offset, len) > ringSize && AcceptedUpTo(accepted, ringSize)
  {
    ghost var all := Cut(segs, 0, offset, len);
    frames, outcome := SubmitAll(segs, offset, len, ringSize, accepted);
    assert segs[0..] == segs;
    CutCovers(segs, 0, offset, len);
    CutCount(segs, 0, offset, len);
    assert all == frames + all[|frames|..];
    GatherConcat(segs, frames, all[|frames|..]);
  }

  // ---- No fewer frames would do ----

  predicate InOneSegment(segs: seq<seq<Byte>>, skip: nat, n: nat) {
    segs != [] &&
    if skip >= |segs[0]| then InOneSegment(segs[1..], skip - |segs[0]|, n) else skip + n <= |segs[0]|
  }

  /** Frame lengths that cover the window in order, each legal and in one segment. */
  predicate Plan(segs: seq<seq<Byte>>, skip: nat, len: nat, ns: seq<nat>)
    decreases |ns|
  {
    if ns == [] then len == 0
    else
      0 < ns[0] <= Min(FRAME_SIZE, len) && InOneSegment(segs, skip, ns[0]) &&
      Plan(segs, skip + ns[0], len - ns[0], ns[1..])
  }

  lemma {:induction false} OneFrameLess(segs: seq<seq<Byte>>, skip: nat, len: nat, n: nat)
    requires 0 < n <= Min(FRAME_SIZE, len) && InOneSegment(segs, skip, n)
    ensures Needed(segs, skip, len) <= 1 + Needed(segs, skip + n, len - n)
  {
    if skip >= |segs[0]| {
      OneFrameLess(segs[1..], skip - |segs[0]|, len, n);
    } else {
      var take := Min(|segs[0]| - skip, len);
      assert DivUp(take, FRAME_SIZE) <= 1 + DivUp(take - n, FRAME_SIZE);
      if len == n || skip + n == |segs[0]| {
        assert take == n;
      }
    }
  }

  /** The count in `Submit` is the least possible. */
  lemma {:induction false} NeededIsLeast(segs: seq<seq<Byte>>, skip: nat, len: nat, ns: seq<nat>)
    requires Plan(segs, skip, len, ns)
    ensures Needed(segs, skip, len) <= |ns|
    decreases |ns|
  {
    if ns != [] {
      OneFrameLess(segs, skip, len, ns[0]);
      NeededIsLeast(segs, skip + ns[0], len - ns[0], ns[1..]);
    }
  }
}
