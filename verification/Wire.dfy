/** Stream frames: their bytes on the wire, how a message is cut into them, and
    the two senders that do the cutting. */
module Wire {
  import opened Base

  const FRAME_SIZE := 4096
  const HDR_SIZE := 8
  const TAIL_RESERVE := 64
  const PAYLOAD_MAX := FRAME_SIZE - HDR_SIZE - TAIL_RESERVE
  const MAX_FRAGMENTS := 4096
  const BATCH_FRAMES := 64
  const U16 := 0x1_0000

  datatype Frame = Frame(src: Byte, dst: Byte, start: bool, end: bool, idx: nat, payload: seq<Byte>)

  predicate WellFormed(f: Frame) {
    f.idx < U16 && 0 < |f.payload| <= PAYLOAD_MAX
  }

  // ---- Bytes ----

  const DMA_MAGIC := [0x35, 0x4C, 0x44, 0x4F]
  const DMA_HDR_SIZE := 16

  function Flags(f: Frame): Byte {
    (if f.start then 1 else 0) + (if f.end then 2 else 0)
  }

  function LittleEndian(n: nat): seq<Byte>
    requires n < U16
  {
    [n % 256, n / 256]
  }

  function Encode(f: Frame): seq<Byte>
    requires WellFormed(f)
  {
    [f.src, f.dst, Flags(f), 0] + LittleEndian(|f.payload|) + LittleEndian(f.idx) + f.payload
  }

  function Word(lo: int, hi: int): int {
    lo + 256 * hi
  }

  /** `Overlong` is a payload length that the frame does not hold. */
  datatype Reading = Control(kind: Byte) | Stream(frame: Frame) | Ignored | Overlong

  /** How `odl_tb5_rx_callback` reads a received frame. */
  function Read(b: seq<Byte>): Reading {
    if |b| >= DMA_HDR_SIZE && b[..4] == DMA_MAGIC then Control(b[4])
    else if |b| < HDR_SIZE || b[1] == 0 then Ignored
    else
      var n := Word(b[4], b[5]);
      if n == 0 then Ignored
      else if HDR_SIZE + n > |b| then Overlong
      else Stream(Frame(b[0], b[1], b[2] % 2 == 1, (b[2] / 2) % 2 == 1, Word(b[6], b[7]),
                        b[HDR_SIZE..HDR_SIZE + n]))
  }

  /** Which bytes are what: a ping or pong by its magic, a stream frame by its destination
      and length, and nothing else. */
  lemma ReadSorts(b: seq<Byte>)
    ensures Read(b).Control? <==> |b| >= 16 && b[0] == 0x35 && b[1] == 0x4C && b[2] == 0x44 && b[3] == 0x4F
    ensures Read(b).Ignored? <==> !Read(b).Control? && (|b| < 8 || b[1] == 0 || b[4] == b[5] == 0)
    ensures Read(b).Overlong? <==>
            !Read(b).Control? && !Read(b).Ignored? && 8 + b[4] as int + 256 * b[5] as int > |b|
    ensures Read(b).Stream? ==>
            var f := Read(b).frame;
            && f.src == b[0] && f.dst == b[1] && (f.start <==> b[2] % 2 == 1) && (f.end <==> b[2] % 4 >= 2)
            && f.idx == b[6] as int + 256 * b[7] as int && |f.payload| == b[4] as int + 256 * b[5] as int
            && forall k :: 0 <= k < |f.payload| ==> f.payload[k] == b[8 + k]
  {
    if |b| >= 16 {
      assert b[..4] == [b[0], b[1], b[2], b[3]];
    }
  }

  /** Every frame a sender builds fits below the receive buffer, is never taken
      for a ping or pong, and reads back as itself. */
  lemma ReadsBack(f: Frame)
    requires WellFormed(f) && f.dst != 0
    ensures |Encode(f)| == HDR_SIZE + |f.payload| <= FRAME_SIZE - TAIL_RESERVE
    ensures Read(Encode(f)) == Stream(f)
  {
    var b := Encode(f);
    assert b[3] == 0 && DMA_MAGIC[3] == 0x4F;
    assert b[..4][3] == 0;
    assert b[4] == |f.payload| % 256 && b[5] == |f.payload| / 256;
    assert b[6] == f.idx % 256 && b[7] == f.idx / 256;
    assert b[HDR_SIZE..HDR_SIZE + |f.payload|] == f.payload;
  }

  // ---- Cutting a message ----

  predicate LegalLength(n: nat) {
    0 < n <= PAYLOAD_MAX * MAX_FRAGMENTS
  }

  function Count(data: seq<Byte>): nat {
    DivUp(|data|, PAYLOAD_MAX)
  }

  function Piece(data: seq<Byte>, i: nat): seq<Byte>
    requires i < Count(data)
  {
    data[i * PAYLOAD_MAX..Min((i + 1) * PAYLOAD_MAX, |data|)]
  }

  function Fragment(src: Byte, dst: Byte, data: seq<Byte>, i: nat): Frame
    requires i < Count(data)
  {
    Frame(src, dst, i == 0, i == Count(data) - 1, i, Piece(data, i))
  }

  function Fragments(src: Byte, dst: Byte, data: seq<Byte>): seq<Frame> {
    seq(Count(data), i requires 0 <= i < Count(data) => Fragment(src, dst, data, i))
  }

  /** Indices run from 0 without wrapping, every frame is well formed, and the
      pieces up to any point are the data up to that point. */
  lemma FragmentsAreWellFormed(src: Byte, dst: Byte, data: seq<Byte>, i: nat)
    requires LegalLength(|data|) && i < Count(data)
    ensures WellFormed(Fragments(src, dst, data)[i])
    ensures Fragments(src, dst, data)[i].idx == i < MAX_FRAGMENTS
    ensures i < Count(data) - 1 ==> |Piece(data, i)| == PAYLOAD_MAX
    ensures i == Count(data) - 1 ==> |Piece(data, i)| == |data| - i * PAYLOAD_MAX
  {
  }

  /** The frame both senders build: `sent` bytes have gone, `n` go now. */
  function Cut(src: Byte, dst: Byte, data: seq<Byte>, sent: nat, n: nat, idx: nat): Frame
    requires sent + n <= |data|
  {
    Frame(src, dst, sent == 0, sent + n == |data|, idx, data[sent..sent + n])
  }

  lemma CutIsFragment(src: Byte, dst: Byte, data: seq<Byte>, i: nat)
    requires LegalLength(|data|) && i < Count(data)
    ensures var sent := i * PAYLOAD_MAX; var n := Min(|data| - sent, PAYLOAD_MAX);
            Cut(src, dst, data, sent, n, i) == Fragment(src, dst, data, i)
  {
  }

  lemma NextCut(src: Byte, dst: Byte, data: seq<Byte>, k: nat)
    requires LegalLength(|data|) && k * PAYLOAD_MAX < |data|
    ensures var sent := k * PAYLOAD_MAX; var n := Min(|data| - sent, PAYLOAD_MAX);
            && k < Count(data) && (k + 1) % U16 == k + 1
            && Cut(src, dst, data, sent, n, k) == Fragments(src, dst, data)[k]
            && sent + n == Min((k + 1) * PAYLOAD_MAX, |data|)
  {
    CutIsFragment(src, dst, data, k);
  }

  /** `k` frames carry all of the data exactly when they are all its fragments. */
  lemma AllSentIff(data: seq<Byte>, k: nat)
    requires LegalLength(|data|) && k <= Count(data)
    ensures Min(k * PAYLOAD_MAX, |data|) == |data| <==> k == Count(data)
  {
  }

  /** Latency mode. `slot(i)`, `copied(i)` and `accepted(i)` tell whether a frame slot
      came in time, the copy from user space succeeded and the ring took frame i. An
      aborted send has emitted a prefix. */
  method SendLatency(src: Byte, dst: Byte, data: seq<Byte>,
                     slot: nat -> bool, copied: nat -> bool, accepted: nat -> bool)
    returns (wire: seq<Frame>, ok: bool)
    requires LegalLength(|data|)
    ensures wire <= Fragments(src, dst, data)
    ensures ok <==> forall i: nat :: i < Count(data) ==> slot(i) && copied(i) && accepted(i)
    ensures ok <==> wire == Fragments(src, dst, data)
  {
    ghost var all := Fragments(src, dst, data);
    wire := [];
    var sent, fragIdx := 0, 0;
    while sent < |data|
      invariant |wire| <= |all| && fragIdx == |wire|
      invariant sent == Min(|wire| * PAYLOAD_MAX, |data|)
      invariant wire == all[..|wire|]
      invariant forall i: nat :: i < |wire| ==> slot(i) && copied(i) && accepted(i)
    {
      var payload := Min(|data| - sent, PAYLOAD_MAX);
      var frame := Cut(src, dst, data, sent, payload, fragIdx);
      NextCut(src, dst, data, |wire|);
      if !slot(|wire|) || !copied(|wire|) || !accepted(|wire|) {
        return wire, false;
      }
      wire := wire + [frame];
      fragIdx := (fragIdx + 1) % U16;
      sent := sent + payload;
    }
    AllSentIff(data, |wire|);
    ok := true;
  }

  /** A batch of `size` bytes from frame `first` on is a run of whole frames. */
  function BatchFrames(size: nat): nat {
    DivUp(size, PAYLOAD_MAX)
  }

  lemma BatchArithmetic(data: seq<Byte>, first: nat)
    requires LegalLength(|data|) && first * PAYLOAD_MAX < |data|
    ensures var size := Min(|data| - first * PAYLOAD_MAX, BATCH_FRAMES * PAYLOAD_MAX);
            var n := BatchFrames(size);
            && 0 < n <= BATCH_FRAMES && first + n <= Count(data) <= MAX_FRAGMENTS
            && first * PAYLOAD_MAX + size == Min((first + n) * PAYLOAD_MAX, |data|)
            && (n - 1) * PAYLOAD_MAX < size <= n * PAYLOAD_MAX && n == Min(BATCH_FRAMES, Count(data) - first)
  {
  }

  /** The payload of frame `i` of a batch is what is left of the message, up to a frame. */
  lemma PayloadAt(left: nat, i: nat)
    requires i * PAYLOAD_MAX < left && i < BATCH_FRAMES
    ensures var size := Min(left, BATCH_FRAMES * PAYLOAD_MAX);
            Min(size - i * PAYLOAD_MAX, PAYLOAD_MAX) == Min(left - i * PAYLOAD_MAX, PAYLOAD_MAX)
  {
  }

  lemma StagedIsFragment(src: Byte, dst: Byte, data: seq<Byte>, first: nat, i: nat)
    requires LegalLength(|data|) && (first + i) * PAYLOAD_MAX < |data| && i < BATCH_FRAMES
    ensures var size := Min(|data| - first * PAYLOAD_MAX, BATCH_FRAMES * PAYLOAD_MAX);
            var payload := Min(size - i * PAYLOAD_MAX, PAYLOAD_MAX);
            && first + i < Count(data) && payload >= 0 && (first + i) * PAYLOAD_MAX + payload <= |data|
            && Cut(src, dst, data, first * PAYLOAD_MAX + i * PAYLOAD_MAX, payload, (first + i) % U16)
               == Fragments(src, dst, data)[first + i]
  {
    PayloadAt(|data| - first * PAYLOAD_MAX, i);
    NextCut(src, dst, data, first + i);
    assert first * PAYLOAD_MAX + i * PAYLOAD_MAX == (first + i) * PAYLOAD_MAX;
  }

  lemma FragmentCount(src: Byte, dst: Byte, data: seq<Byte>, k: nat)
    requires k * PAYLOAD_MAX < |data|
    ensures k < |Fragments(src, dst, data)| == Count(data)
  {
  }

  /** Frame `i` of the batch that starts at frame `first`. */
  method StageOne(src: Byte, dst: Byte, data: seq<Byte>, first: nat, size: nat, i: nat) returns (frame: Frame)
    requires LegalLength(|data|) && (first + i) * PAYLOAD_MAX < |data| && i < BATCH_FRAMES
    requires size == Min(|data| - first * PAYLOAD_MAX, BATCH_FRAMES * PAYLOAD_MAX)
    ensures first + i < Count(data) && frame == Fragments(src, dst, data)[first + i]
  {
    StagedIsFragment(src, dst, data, first, i);
    var offset := i * PAYLOAD_MAX;
    var payload := Min(size - offset, PAYLOAD_MAX);
    frame := Cut(src, dst, data, first * PAYLOAD_MAX + offset, payload, (first + i) % U16);
  }

  /** The staging loop over `n` frames. */
  method StageFrames(src: Byte, dst: Byte, data: seq<Byte>, first: nat, size: nat, n: nat, copied: nat -> bool)
    returns (batch: seq<Frame>, ok: bool)
    requires LegalLength(|data|) && 0 < n <= BATCH_FRAMES && (first + n - 1) * PAYLOAD_MAX < |data|
    requires size == Min(|data| - first * PAYLOAD_MAX, BATCH_FRAMES * PAYLOAD_MAX)
    ensures |batch| <= n && first + |batch| <= Count(data) && (ok <==> |batch| == n)
    ensures batch == Fragments(src, dst, data)[first..first + |batch|]
    ensures forall i: nat :: first <= i < first + |batch| ==> copied(i)
    ensures !ok ==> first + |batch| < Count(data) && !copied(first + |batch|)
  {
    ghost var all := Fragments(src, dst, data);
    FragmentCount(src, dst, data, first + n - 1);
    batch := [];
    var i := 0;
    while i < n
      invariant 0 <= i <= n && |batch| == i && first + i <= |all|
      invariant batch == all[first..first + i]
      invariant forall j: nat :: first <= j < first + i ==> copied(j)
    {
      var frame := StageOne(src, dst, data, first, size, i);
      if !copied(first + i) {
        return batch, false;
      }
      batch := batch + [frame];
      i := i + 1;
    }
    ok := true;
  }

  /** One batch of throughput mode: up to 64 frames staged from `total` on. */
  method StageBatch(src: Byte, dst: Byte, data: seq<Byte>, total: nat, first: nat, copied: nat -> bool)
    returns (batch: seq<Frame>, size: nat, ok: bool)
    requires LegalLength(|data|) && total < |data| && total == first * PAYLOAD_MAX
    ensures first + |batch| <= Count(data)
    ensures batch == Fragments(src, dst, data)[first..first + |batch|]
    ensures forall i: nat :: first <= i < first + |batch| ==> copied(i)
    ensures ok ==> 0 < |batch| && total + size == Min((first + |batch|) * PAYLOAD_MAX, |data|)
    ensures ok ==> |batch| == Min(BATCH_FRAMES, Count(data) - first)
    ensures !ok ==> first + |batch| < Count(data) && !copied(first + |batch|)
  {
    size := Min(|data| - total, BATCH_FRAMES * PAYLOAD_MAX);
    var nframes := BatchFrames(size);
    BatchArithmetic(data, first);
    batch, ok := StageFrames(src, dst, data, first, size, nframes, copied);
  }

  /** The submit loop over one staged batch. */
  method SubmitBatch(before: seq<Frame>, batch: seq<Frame>, accepted: nat -> bool)
    returns (wire: seq<Frame>, ok: bool)
    ensures before <= wire <= before + batch && (ok <==> wire == before + batch)
    ensures forall i: nat :: |before| <= i < |wire| ==> accepted(i)
    ensures !ok ==> !accepted(|wire|)
  {
    wire := before;
    var i := 0;
    while i < |batch|
      invariant 0 <= i <= |batch| && wire == before + batch[..i]
      invariant forall j: nat :: |before| <= j < |before| + i ==> accepted(j)
    {
      if !accepted(|before| + i) {
        return wire, false;
      }
      wire := wire + [batch[i]];
      i := i + 1;
    }
    ok := true;
  }

  /** Frame `i` meets no obstacle; the first of each batch also needs a buffer. */
  predicate Sendable(buffer: nat -> bool, copied: nat -> bool, accepted: nat -> bool, i: nat) {
    copied(i) && accepted(i) && (i % BATCH_FRAMES == 0 ==> buffer(i))
  }

  lemma BatchIsSendable(buffer: nat -> bool, copied: nat -> bool, accepted: nat -> bool, k: nat, end: nat)
    requires buffer(k * BATCH_FRAMES) && end <= (k + 1) * BATCH_FRAMES
    requires forall i: nat :: k * BATCH_FRAMES <= i < end ==> copied(i) && accepted(i)
    ensures forall i: nat :: k * BATCH_FRAMES <= i < end ==> Sendable(buffer, copied, accepted, i)
  {
    forall i: nat | k * BATCH_FRAMES <= i < end
      ensures Sendable(buffer, copied, accepted, i)
    {
      assert i % BATCH_FRAMES == i - k * BATCH_FRAMES;
    }
  }

  /** One turn of the throughput loop, after `k` full batches. */
  method SendBatch(src: Byte, dst: Byte, data: seq<Byte>, before: seq<Frame>, sent: nat, ghost k: nat,
                   buffer: nat -> bool, copied: nat -> bool, accepted: nat -> bool)
    returns (wire: seq<Frame>, total: nat, ok: bool)
    requires LegalLength(|data|) && before <= Fragments(src, dst, data) && |before| == k * BATCH_FRAMES
    requires sent == |before| * PAYLOAD_MAX < |data|
    ensures before <= wire <= Fragments(src, dst, data)
    ensures ok ==> |wire| == Min((k + 1) * BATCH_FRAMES, Count(data)) && sent < total
    ensures ok ==> total == Min(|wire| * PAYLOAD_MAX, |data|)
    ensures ok ==> forall i: nat :: |before| <= i < |wire| ==> Sendable(buffer, copied, accepted, i)
    ensures !ok ==> |wire| < Count(data)
    ensures !ok ==> exists i: nat :: i < Count(data) && !Sendable(buffer, copied, accepted, i)
  {
    ghost var all := Fragments(src, dst, data);
    var base := |before|;
    wire, total, ok := before, sent, false;
    NextCut(src, dst, data, base);
    if !buffer(base) {
      assert base % BATCH_FRAMES == 0;
      assert !Sendable(buffer, copied, accepted, base);
      return;
    }
    var batch, size, staged := StageBatch(src, dst, data, sent, base, copied);
    if !staged {
      assert !Sendable(buffer, copied, accepted, base + |batch|);
      return;
    }
    wire, ok := SubmitBatch(before, batch, accepted);
    assert all[..base] + batch == all[..base + |batch|];
    if !ok {
      assert !Sendable(buffer, copied, accepted, |wire|);
      return;
    }
    BatchIsSendable(buffer, copied, accepted, k, |wire|);
    total := sent + size;
  }

  /** Throughput mode: wait for a batch buffer, stage a batch, then submit its frames one
      by one. `buffer(i)` tells whether one came in time for the batch from frame i on. */
  method SendThroughput(src: Byte, dst: Byte, data: seq<Byte>,
                        buffer: nat -> bool, copied: nat -> bool, accepted: nat -> bool)
    returns (wire: seq<Frame>, ok: bool)
    requires LegalLength(|data|)
    ensures wire <= Fragments(src, dst, data)
    ensures ok <==> forall i: nat :: i < Count(data) ==> Sendable(buffer, copied, accepted, i)
    ensures ok <==> wire == Fragments(src, dst, data)
  {
    ghost var all, k := Fragments(src, dst, data), 0;
    wire := [];
    var total := 0;
    while total < |data|
      invariant |wire| <= |all| && total == Min(|wire| * PAYLOAD_MAX, |data|)
      invariant |wire| == k * BATCH_FRAMES || |wire| == |all|
      invariant wire == all[..|wire|]
      invariant forall i: nat :: i < |wire| ==> Sendable(buffer, copied, accepted, i)
      decreases |data| - total
    {
      AllSentIff(data, |wire|);
      wire, total, ok := SendBatch(src, dst, data, wire, total, k, buffer, copied, accepted);
      if !ok {
        return;
      }
      k := k + 1;
    }
    AllSentIff(data, |wire|);
    ok := true;
  }
}
