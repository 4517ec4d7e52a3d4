/** The receive side of a stream: reassembly with fragment sequencing, and what
    it delivers under every pattern of lost frames. */
module Assembly {
  import opened Base
  import opened Wire

  datatype Message = Message(src: Byte, data: seq<Byte>)

  /** The `rx_asm_*` fields. `moved` is history: the bytes that growing the buffer
      has copied for the current message. */
  datatype Asm = Asm(buf: seq<Byte>, cap: nat, src: Byte, next: nat, bad: bool, moved: nat)

  const FIRST_CAPACITY := 8192

  function Cleared(a: Asm): Asm {
    a.(buf := [], cap := 0, moved := 0)
  }

  function Opened(a: Asm, f: Frame): Asm {
    if f.start then Asm([], 0, f.src, 0, false, 0) else a
  }

  function Sequenced(a: Asm, f: Frame): Asm {
    a.(bad := a.bad || f.idx != a.next, next := (f.idx + 1) % U16)
  }

  /** `memory` tells whether a larger buffer can be had. Without one the payload
      is dropped, silently. */
  function Appended(a: Asm, f: Frame, memory: bool): Asm {
    var need := |a.buf| + |f.payload|;
    if need <= a.cap then a.(buf := a.buf + f.payload)
    else if !memory then a
    else a.(buf := a.buf + f.payload, cap := Max(FIRST_CAPACITY, Max(2 * a.cap, need)),
            moved := a.moved + |a.buf|)
  }

  function Closed(a: Asm, f: Frame): (Asm, seq<Message>) {
    if !f.end then (a, [])
    else if a.bad then (Cleared(a).(bad := false, next := 0), [])
    else (Cleared(a), if a.cap > 0 then [Message(a.src, a.buf)] else [])
  }

  /** One frame: the new assembly state and the message delivered, if any. */
  function Receive(a: Asm, f: Frame, memory: bool): (Asm, seq<Message>) {
    Closed(Appended(Sequenced(Opened(a, f), f), f, memory), f)
  }

  /** A run of frames, memory permitting: the final state and all deliveries. */
  function Feed(a: Asm, fs: seq<Frame>): (Asm, seq<Message>)
    decreases |fs|
  {
    if fs == [] then (a, [])
    else
      var (a1, out) := Receive(a, fs[0], true);
      var (a2, more) := Feed(a1, fs[1..]);
      (a2, out + more)
  }

  lemma FeedFirst(a: Asm, f: Frame, fs: seq<Frame>)
    ensures var (a1, out) := Receive(a, f, true);
            Feed(a, [f] + fs) == (Feed(a1, fs).0, out + Feed(a1, fs).1)
  {
    assert ([f] + fs)[1..] == fs;
  }

  lemma {:induction false} FeedConcat(a: Asm, xs: seq<Frame>, ys: seq<Frame>)
    ensures Feed(a, xs + ys).0 == Feed(Feed(a, xs).0, ys).0
    ensures Feed(a, xs + ys).1 == Feed(a, xs).1 + Feed(Feed(a, xs).0, ys).1
    decreases |xs|
  {
    if xs == [] {
      assert xs + ys == ys;
    } else {
      assert xs + ys == [xs[0]] + (xs[1..] + ys) && xs == [xs[0]] + xs[1..];
      FeedFirst(a, xs[0], xs[1..] + ys);
      FeedFirst(a, xs[0], xs[1..]);
      FeedConcat(Receive(a, xs[0], true).0, xs[1..], ys);
    }
  }

  // ---- One message under loss ----

  /** The frames of `fs` that the mask lets through, from index `k` on. */
  function Survivors(fs: seq<Frame>, mask: seq<bool>, k: nat): seq<Frame>
    requires |mask| == |fs| && k <= |fs|
    decreases |fs| - k
  {
    if k == |fs| then []
    else if mask[k] then [fs[k]] + Survivors(fs, mask, k + 1)
    else Survivors(fs, mask, k + 1)
  }

  predicate AllFrom(mask: seq<bool>, k: nat)
    requires k <= |mask|
  {
    forall i :: k <= i < |mask| ==> mask[i]
  }

  /** Nothing missing so far: the data up to fragment `k` is assembled. */
  predicate InStep(a: Asm, base: seq<Byte>, data: seq<Byte>, from: nat, k: nat)
    requires from <= k <= Count(data)
  {
    !a.bad && a.next == k &&
    a.buf == base + data[Min(from * PAYLOAD_MAX, |data|)..Min(k * PAYLOAD_MAX, |data|)]
  }

  /** Poisoned, or about to be by any fragment from `k` on. */
  predicate OutOfStep(a: Asm, k: nat) {
    a.bad || a.next < k
  }

  lemma ReceiveFragment(a: Asm, src: Byte, dst: Byte, data: seq<Byte>, i: nat)
    requires LegalLength(|data|) && 0 < i < Count(data)
    ensures var f := Fragment(src, dst, data, i); var (a', out) := Receive(a, f, true);
            && !f.start && f.idx == i
            && (!f.end ==> out == [] && a'.next == i + 1 && a'.bad == (a.bad || a.next != i))
            && (!f.end ==> a'.buf == a.buf + Piece(data, i) && a'.src == a.src)
            && (f.end ==> out == if a.bad || a.next != i then []
                                 else [Message(a.src, a.buf + Piece(data, i))])
            && (f.end ==> a'.buf == [] && !a'.bad && a'.src == a.src)
            && (f.end ==> a'.next == if a.bad || a.next != i then 0 else i + 1)
  {
    FragmentsAreWellFormed(src, dst, data, i);
  }

  lemma {:induction false} LostTail(a: Asm, src: Byte, dst: Byte, data: seq<Byte>, mask: seq<bool>, k: nat)
    requires LegalLength(|data|) && |mask| == Count(data) && 0 < k <= Count(data)
    requires OutOfStep(a, k)
    ensures Feed(a, Survivors(Fragments(src, dst, data), mask, k)).1 == []
    decreases Count(data) - k
  {
    var fs := Fragments(src, dst, data);
    if k < Count(data) {
      var rest := Survivors(fs, mask, k + 1);
      if mask[k] {
        ReceiveFragment(a, src, dst, data, k);
        assert ([fs[k]] + rest)[1..] == rest;
        if k + 1 < Count(data) {
          LostTail(Receive(a, fs[k], true).0, src, dst, data, mask, k + 1);
        }
      } else {
        LostTail(a, src, dst, data, mask, k + 1);
      }
    }
  }

  lemma JoinPiece(base: seq<Byte>, data: seq<Byte>, from: nat, k: nat)
    requires from <= k < Count(data)
    ensures from * PAYLOAD_MAX <= k * PAYLOAD_MAX < |data|
    ensures base + data[from * PAYLOAD_MAX..k * PAYLOAD_MAX] + Piece(data, k)
            == base + data[from * PAYLOAD_MAX..Min((k + 1) * PAYLOAD_MAX, |data|)]
  {
  }

  lemma {:induction false} InStepTail(a: Asm, base: seq<Byte>, from: nat,
                                      src: Byte, dst: Byte, data: seq<Byte>, mask: seq<bool>, k: nat)
    requires LegalLength(|data|) && |mask| == Count(data) && from <= k && 0 < k < Count(data)
    requires InStep(a, base, data, from, k)
    ensures Feed(a, Survivors(Fragments(src, dst, data), mask, k)).1 ==
            if AllFrom(mask, k) then [Message(a.src, base + data[from * PAYLOAD_MAX..])] else []
    decreases Count(data) - k
  {
    var fs := Fragments(src, dst, data);
    var rest := Survivors(fs, mask, k + 1);
    if !mask[k] {
      LostTail(a, src, dst, data, mask, k + 1);
    } else {
      ReceiveFragment(a, src, dst, data, k);
      assert ([fs[k]] + rest)[1..] == rest;
      var a' := Receive(a, fs[k], true).0;
      JoinPiece(base, data, from, k);
      if k + 1 < Count(data) {
        assert AllFrom(mask, k) <==> AllFrom(mask, k + 1);
        InStepTail(a', base, from, src, dst, data, mask, k + 1);
      } else {
        assert rest == [] && AllFrom(mask, k);
        assert data[from * PAYLOAD_MAX..|data|] == data[from * PAYLOAD_MAX..];
      }
    }
  }

  /** A message that keeps its first fragment is delivered, byte for byte, exactly
      when it loses nothing, whatever state earlier traffic left behind. */
  lemma FirstFragmentKept(a: Asm, src: Byte, dst: Byte, data: seq<Byte>, mask: seq<bool>)
    requires LegalLength(|data|) && |mask| == Count(data) && mask[0]
    ensures Feed(a, Survivors(Fragments(src, dst, data), mask, 0)).1 ==
            if AllFrom(mask, 0) then [Message(src, data)] else []
  {
    var fs := Fragments(src, dst, data);
    var rest := Survivors(fs, mask, 1);
    FragmentsAreWellFormed(src, dst, data, 0);
    assert ([fs[0]] + rest)[1..] == rest;
    var a' := Receive(a, fs[0], true).0;
    assert [] + data[0..] == data;
    if Count(data) > 1 {
      assert [] + data[0..PAYLOAD_MAX] == Piece(data, 0);
      assert AllFrom(mask, 0) <==> AllFrom(mask, 1);
      InStepTail(a', [], 0, src, dst, data, mask, 1);
    } else {
      assert Piece(data, 0) == data;
    }
  }

  // ---- Whole runs under loss ----

  /** A send and the fate of its fragments. A send aborted part-way is one whose
      fragments are all missing from the abort on. */
  datatype Send = Send(src: Byte, data: seq<Byte>, mask: seq<bool>)

  predicate LegalSend(m: Send) {
    LegalLength(|m.data|) && |m.mask| == Count(m.data)
  }

  predicate KeepsFirstOrNone(m: Send) {
    |m.mask| > 0 && (m.mask[0] || forall i :: 0 <= i < |m.mask| ==> !m.mask[i])
  }

  function Reaching(dst: Byte, m: Send): seq<Frame>
    requires LegalSend(m)
  {
    Survivors(Fragments(m.src, dst, m.data), m.mask, 0)
  }

  function Arriving(dst: Byte, ms: seq<Send>): seq<Frame>
    requires forall i :: 0 <= i < |ms| ==> LegalSend(ms[i])
  {
    if ms == [] then []
    else
      assert LegalSend(ms[0]);
      Reaching(dst, ms[0]) + Arriving(dst, ms[1..])
  }

  function Intact(ms: seq<Send>): seq<Message> {
    if ms == [] then []
    else if AllFrom(ms[0].mask, 0) then [Message(ms[0].src, ms[0].data)] + Intact(ms[1..])
    else Intact(ms[1..])
  }

  lemma {:induction false} NothingSurvives(fs: seq<Frame>, mask: seq<bool>, k: nat)
    requires |mask| == |fs| && k <= |fs| && forall i :: k <= i < |mask| ==> !mask[i]
    ensures Survivors(fs, mask, k) == []
    decreases |fs| - k
  {
    if k < |fs| {
      NothingSurvives(fs, mask, k + 1);
    }
  }

  lemma OneSend(a: Asm, dst: Byte, m: Send)
    requires LegalSend(m) && KeepsFirstOrNone(m)
    ensures Feed(a, Reaching(dst, m)).1 ==
            if AllFrom(m.mask, 0) then [Message(m.src, m.data)] else []
  {
    if m.mask[0] {
      FirstFragmentKept(a, m.src, dst, m.data, m.mask);
    } else {
      NothingSurvives(Fragments(m.src, dst, m.data), m.mask, 0);
    }
  }

  /** Loss detection: if every message keeps its first fragment or loses them all,
      then what is delivered is exactly the messages that lost nothing, in order. */
  lemma {:induction false} LossDetection(a: Asm, dst: Byte, ms: seq<Send>)
    requires forall i :: 0 <= i < |ms| ==> LegalSend(ms[i]) && KeepsFirstOrNone(ms[i])
    ensures Feed(a, Arriving(dst, ms)).1 == Intact(ms)
    decreases |ms|
  {
    if ms != [] {
      assert LegalSend(ms[0]);
      var mine := Reaching(dst, ms[0]);
      FeedConcat(a, mine, Arriving(dst, ms[1..]));
      LossDetection(Feed(a, mine).0, dst, ms[1..]);
      OneSend(a, dst, ms[0]);
    }
  }

  /** What an aborted sender has put on the wire is one of these patterns. */
  lemma {:induction false} PrefixIsAPattern(fs: seq<Frame>, n: nat, k: nat)
    requires k <= n <= |fs|
    ensures Survivors(fs, seq(|fs|, i => i < n), k) == fs[k..n]
    decreases |fs| - k
  {
    var mask := seq(|fs|, i => i < n);
    if k == n {
      NothingSurvives(fs, mask, k);
    } else {
      PrefixIsAPattern(fs, n, k + 1);
      assert fs[k..n] == [fs[k]] + fs[k + 1..n];
    }
  }

  // ---- The exact limit of loss detection ----

  /** The first surviving fragment from `k` on, or the number of fragments. */
  function FirstKept(mask: seq<bool>, k: nat): (j: nat)
    requires k <= |mask|
    ensures k <= j <= |mask| && (j < |mask| ==> mask[j])
    ensures forall i :: k <= i < j ==> !mask[i]
    decreases |mask| - k
  {
    if k == |mask| || mask[k] then k else FirstKept(mask, k + 1)
  }

  lemma {:induction false} SkipLost(fs: seq<Frame>, mask: seq<bool>, k: nat, j: nat)
    requires |mask| == |fs| && k <= j <= |fs| && forall i :: k <= i < j ==> !mask[i]
    ensures Survivors(fs, mask, k) == Survivors(fs, mask, j)
    decreases j - k
  {
    if k < j {
      SkipLost(fs, mask, k + 1, j);
    }
  }

  /** A message that lost its first fragment: its tail is delivered exactly when the
      assembly is not poisoned, the first survivor has the index that earlier traffic
      left expected, and nothing is missing after it. */
  lemma FirstFragmentLost(a: Asm, src: Byte, dst: Byte, data: seq<Byte>, mask: seq<bool>)
    requires LegalLength(|data|) && |mask| == Count(data) && !mask[0]
    ensures var j := FirstKept(mask, 0);
            Feed(a, Survivors(Fragments(src, dst, data), mask, 0)).1 ==
            if j < |mask| && !a.bad && a.next == j && AllFrom(mask, j)
            then [Message(a.src, a.buf + data[j * PAYLOAD_MAX..])] else []
  {
    var fs := Fragments(src, dst, data);
    var j := FirstKept(mask, 0);
    SkipLost(fs, mask, 0, j);
    if j < |mask| {
      if !a.bad && a.next == j {
        assert a.buf + [] == a.buf;
        InStepTail(a, a.buf, j, src, dst, data, mask, j);
      } else {
        var rest := Survivors(fs, mask, j + 1);
        ReceiveFragment(a, src, dst, data, j);
        assert ([fs[j]] + rest)[1..] == rest;
        if j + 1 < |mask| {
          LostTail(Receive(a, fs[j], true).0, src, dst, data, mask, j + 1);
        }
      }
    }
  }

  /** Only a delivery leaves a non-zero index behind at the end of a message, so
      after a drop, or on a new stream, no tail is ever mistaken for a message. */
  lemma NoForgeryWhenReset(a: Asm, src: Byte, dst: Byte, data: seq<Byte>, mask: seq<bool>)
    requires LegalLength(|data|) && |mask| == Count(data) && !mask[0] && a.next == 0
    ensures Feed(a, Survivors(Fragments(src, dst, data), mask, 0)).1 == []
  {
    FirstFragmentLost(a, src, dst, data, mask);
  }

  lemma {:induction false} AllSurvive(fs: seq<Frame>, mask: seq<bool>, k: nat)
    requires |mask| == |fs| && k <= |fs| && AllFrom(mask, k)
    ensures Survivors(fs, mask, k) == fs[k..]
    decreases |fs| - k
  {
    if k < |fs| {
      AllSurvive(fs, mask, k + 1);
    }
  }

  lemma WholeIsDelivered(a: Asm, src: Byte, dst: Byte, data: seq<Byte>)
    requires LegalLength(|data|)
    ensures Feed(a, Fragments(src, dst, data)).1 == [Message(src, data)]
  {
    var fs := Fragments(src, dst, data);
    var all := seq(Count(data), i => true);
    AllSurvive(fs, all, 0);
    FirstFragmentKept(a, src, dst, data, all);
  }

  /** Round trip: what either sender emits for a message reads back frame by frame
      and is delivered as that message, whatever came before. */
  lemma RoundTrip(a: Asm, src: Byte, dst: Byte, data: seq<Byte>)
    requires LegalLength(|data|) && dst != 0
    ensures var fs := Fragments(src, dst, data);
            && Feed(a, fs).1 == [Message(src, data)]
            && forall i :: 0 <= i < |fs| ==>
                 WellFormed(fs[i]) && Read(Encode(fs[i])) == Stream(fs[i])
  {
    var fs := Fragments(src, dst, data);
    WholeIsDelivered(a, src, dst, data);
    forall i | 0 <= i < |fs|
      ensures WellFormed(fs[i]) && Read(Encode(fs[i])) == Stream(fs[i])
    {
      FragmentsAreWellFormed(src, dst, data, i);
      ReadsBack(fs[i]);
    }
  }

  /** A message received whole leaves its fragment count expected. */
  lemma {:induction false} WholeMessageLeaves(a: Asm, src: Byte, dst: Byte, data: seq<Byte>, k: nat)
    requires LegalLength(|data|) && k < Count(data)
    requires k > 0 ==> !a.bad && a.next == k && a.src == src
    ensures var a' := Feed(a, Fragments(src, dst, data)[k..]).0;
            !a'.bad && a'.next == Count(data) && a'.buf == [] && a'.src == src
    decreases Count(data) - k
  {
    var fs := Fragments(src, dst, data)[k..];
    FragmentsAreWellFormed(src, dst, data, k);
    if k > 0 {
      ReceiveFragment(a, src, dst, data, k);
    }
    assert fs[0] == Fragment(src, dst, data, k);
    assert fs[1..] == Fragments(src, dst, data)[k + 1..];
    if k + 1 < Count(data) {
      WholeMessageLeaves(Receive(a, fs[0], true).0, src, dst, data, k + 1);
    }
  }

  lemma TailIsForged(a: Asm, src: Byte, dst: Byte, y: seq<Byte>, n: nat)
    requires LegalLength(|y|) && 0 < n < Count(y) && !a.bad && a.next == n
    ensures n * PAYLOAD_MAX < |y|
    ensures Feed(a, Fragments(src, dst, y)[n..]).1 == [Message(a.src, a.buf + y[n * PAYLOAD_MAX..])]
  {
    var all := seq(Count(y), i => true);
    AllSurvive(Fragments(src, dst, y), all, n);
    assert a.buf + [] == a.buf;
    InStepTail(a, a.buf, n, src, dst, y, all, n);
  }

  /** The undetected loss: after a message of n fragments, a longer one that loses
      exactly its first n is delivered cut short, under the earlier sender's name. */
  lemma UndetectedLoss(a: Asm, dst: Byte, src: Byte, x: seq<Byte>, src': Byte, y: seq<Byte>)
    requires LegalLength(|x|) && LegalLength(|y|) && Count(x) < Count(y)
    ensures Count(x) * PAYLOAD_MAX < |y|
    ensures Feed(a, Fragments(src, dst, x) + Fragments(src', dst, y)[Count(x)..]).1
            == [Message(src, x), Message(src, y[Count(x) * PAYLOAD_MAX..])]
  {
    var n := Count(x);
    var xs, ys := Fragments(src, dst, x), Fragments(src', dst, y)[n..];
    WholeIsDelivered(a, src, dst, x);
    WholeMessageLeaves(a, src, dst, x, 0);
    assert xs[0..] == xs;
    var a' := Feed(a, xs).0;
    TailIsForged(a', src', dst, y, n);
    assert [] + y[n * PAYLOAD_MAX..] == y[n * PAYLOAD_MAX..];
    FeedConcat(a, xs, ys);
    assert Feed(a, xs + ys).1 == [Message(src, x)] + Feed(a', ys).1;
  }

  /** A send cut off after `n` fragments leaves them open, and delivers nothing. */
  lemma {:induction false} PrefixLeaves(a: Asm, src: Byte, dst: Byte, x: seq<Byte>, n: nat)
    requires LegalLength(|x|) && 0 < n < Count(x)
    ensures n * PAYLOAD_MAX < |x|
    ensures var (a', out) := Feed(a, Fragments(src, dst, x)[..n]);
            out == [] && !a'.bad && a'.next == n && a'.src == src && a'.buf == x[..n * PAYLOAD_MAX]
  {
    var fs := Fragments(src, dst, x);
    var f := fs[n - 1];
    FragmentsAreWellFormed(src, dst, x, n - 1);
    assert fs[..n] == fs[..n - 1] + [f] && [f][1..] == [];
    FeedConcat(a, fs[..n - 1], [f]);
    var a1 := Feed(a, fs[..n - 1]).0;
    assert Feed(a1, [f]) == (Receive(a1, f, true).0, Receive(a1, f, true).1 + []);
    if n > 1 {
      PrefixLeaves(a, src, dst, x, n - 1);
      ReceiveFragment(a1, src, dst, x, n - 1);
      assert x[..(n - 1) * PAYLOAD_MAX] + Piece(x, n - 1) == x[..n * PAYLOAD_MAX];
    }
  }

  /** The undetected splice: a message cut off after n fragments, followed by one that
      loses exactly its first n, are delivered as a single message. */
  lemma SplicedMessages(a: Asm, dst: Byte, src: Byte, x: seq<Byte>, src': Byte, y: seq<Byte>, n: nat)
    requires LegalLength(|x|) && LegalLength(|y|) && 0 < n < Count(x) && n < Count(y)
    ensures n * PAYLOAD_MAX < |x| && n * PAYLOAD_MAX < |y|
    ensures Feed(a, Fragments(src, dst, x)[..n] + Fragments(src', dst, y)[n..]).1
            == [Message(src, x[..n * PAYLOAD_MAX] + y[n * PAYLOAD_MAX..])]
  {
    var xs, ys := Fragments(src, dst, x)[..n], Fragments(src', dst, y)[n..];
    PrefixLeaves(a, src, dst, x, n);
    var a' := Feed(a, xs).0;
    TailIsForged(a', src', dst, y, n);
    FeedConcat(a, xs, ys);
    assert Feed(a, xs + ys).1 == [] + Feed(a', ys).1;
  }

  // ---- Whole runs under any loss ----

  /** What the assembly keeps of the masks alone. */
  datatype Track = Track(bad: bool, next: nat)

  function TrackOf(a: Asm): Track {
    Track(a.bad, a.next)
  }

  /** Fragment `k` of `n` arrives. */
  function Passed(t: Track, k: nat, n: nat): Track {
    var bad := k > 0 && (t.bad || t.next != k);
    if k + 1 < n then Track(bad, k + 1) else Track(false, if bad then 0 else n)
  }

  /** The survivors of one message arrive, from fragment `k` on. */
  function Left(t: Track, mask: seq<bool>, k: nat): Track
    requires k <= |mask|
    decreases |mask| - k
  {
    if k == |mask| then t
    else Left(if mask[k] then Passed(t, k, |mask|) else t, mask, k + 1)
  }

  /** The tail that survives is taken for a message: no start, and the expected index
      followed by every fragment to the end. */
  predicate Forged(t: Track, mask: seq<bool>) {
    var j := FirstKept(mask, 0);
    0 < j < |mask| && !t.bad && t.next == j && AllFrom(mask, j)
  }

  function Forgeries(t: Track, ms: seq<Send>): nat
    decreases |ms|
  {
    if ms == [] then 0
    else (if Forged(t, ms[0].mask) then 1 else 0) + Forgeries(Left(t, ms[0].mask, 0), ms[1..])
  }

  lemma PassedIsReceive(a: Asm, src: Byte, dst: Byte, data: seq<Byte>, k: nat)
    requires LegalLength(|data|) && k < Count(data)
    ensures TrackOf(Receive(a, Fragment(src, dst, data, k), true).0) == Passed(TrackOf(a), k, Count(data))
  {
    FragmentsAreWellFormed(src, dst, data, k);
    if k > 0 {
      ReceiveFragment(a, src, dst, data, k);
    }
  }

  lemma {:induction false} LeftIsFeed(a: Asm, src: Byte, dst: Byte, data: seq<Byte>, mask: seq<bool>, k: nat)
    requires LegalLength(|data|) && |mask| == Count(data) && k <= Count(data)
    ensures TrackOf(Feed(a, Survivors(Fragments(src, dst, data), mask, k)).0) == Left(TrackOf(a), mask, k)
    decreases Count(data) - k
  {
    var fs := Fragments(src, dst, data);
    if k < Count(data) {
      var rest := Survivors(fs, mask, k + 1);
      assert ([fs[k]] + rest)[1..] == rest;
      if mask[k] {
        PassedIsReceive(a, src, dst, data, k);
        LeftIsFeed(Receive(a, fs[k], true).0, src, dst, data, mask, k + 1);
      } else {
        LeftIsFeed(a, src, dst, data, mask, k + 1);
      }
    }
  }

  lemma AnySend(a: Asm, dst: Byte, m: Send)
    requires LegalSend(m)
    ensures TrackOf(Feed(a, Reaching(dst, m)).0) == Left(TrackOf(a), m.mask, 0)
    ensures var out := Feed(a, Reaching(dst, m)).1;
            if AllFrom(m.mask, 0) then out == [Message(m.src, m.data)] && !Forged(TrackOf(a), m.mask)
            else |out| == if Forged(TrackOf(a), m.mask) then 1 else 0
  {
    LeftIsFeed(a, m.src, dst, m.data, m.mask, 0);
    if m.mask[0] {
      FirstFragmentKept(a, m.src, dst, m.data, m.mask);
    } else {
      FirstFragmentLost(a, m.src, dst, m.data, m.mask);
    }
  }

  /** Loss detection, exactly: for every list of messages and every pattern of losses,
      the deliveries outnumber the intact messages by the forgeries, and they are the
      intact messages, in order, if and only if there is none. */
  lemma {:induction false} LossDetectionIsExact(a: Asm, dst: Byte, ms: seq<Send>)
    requires forall i :: 0 <= i < |ms| ==> LegalSend(ms[i])
    ensures |Feed(a, Arriving(dst, ms)).1| == |Intact(ms)| + Forgeries(TrackOf(a), ms)
    ensures Feed(a, Arriving(dst, ms)).1 == Intact(ms) <==> Forgeries(TrackOf(a), ms) == 0
    decreases |ms|
  {
    if ms != [] {
      assert LegalSend(ms[0]);
      var mine := Reaching(dst, ms[0]);
      FeedConcat(a, mine, Arriving(dst, ms[1..]));
      AnySend(a, dst, ms[0]);
      LossDetectionIsExact(Feed(a, mine).0, dst, ms[1..]);
    }
  }

  // ---- Demultiplexing ----

  /** A frame for one of the open streams; anything else is ignored. */
  predicate Addressed(streams: map<Byte, Asm>, f: Frame) {
    f.dst != 0 && f.dst in streams && f.payload != []
  }

  function Tag(d: Byte, out: seq<Message>): seq<(Byte, Message)> {
    seq(|out|, i requires 0 <= i < |out| => (d, out[i]))
  }

  /** All streams of a device fed one mixed run of frames. Deliveries are tagged
      with their stream. */
  function FeedAll(streams: map<Byte, Asm>, fs: seq<Frame>): (map<Byte, Asm>, seq<(Byte, Message)>)
    decreases |fs|
  {
    if fs == [] then (streams, [])
    else if !Addressed(streams, fs[0]) then FeedAll(streams, fs[1..])
    else
      var d := fs[0].dst;
      var (a, out) := Receive(streams[d], fs[0], true);
      var (streams', more) := FeedAll(streams[d := a], fs[1..]);
      (streams', Tag(d, out) + more)
  }

  function For(d: Byte, fs: seq<Frame>): seq<Frame> {
    if fs == [] then []
    else if fs[0].dst == d && fs[0].payload != [] then [fs[0]] + For(d, fs[1..])
    else For(d, fs[1..])
  }

  function To(d: Byte, out: seq<(Byte, Message)>): seq<Message> {
    if out == [] then []
    else if out[0].0 == d then [out[0].1] + To(d, out[1..])
    else To(d, out[1..])
  }

  lemma {:induction false} ToTagged(d: Byte, e: Byte, out: seq<Message>, more: seq<(Byte, Message)>)
    ensures To(d, Tag(e, out) + more) == (if d == e then out else []) + To(d, more)
    decreases |out|
  {
    var all := Tag(e, out) + more;
    if out == [] {
      assert all == more;
    } else {
      assert all[1..] == Tag(e, out[1..]) + more;
      ToTagged(d, e, out[1..], more);
      assert out == [out[0]] + out[1..];
    }
  }

  /** However the frames of different streams are interleaved, each stream ends and
      delivers as if its own frames had come alone. */
  lemma {:induction false} StreamsAreIndependent(streams: map<Byte, Asm>, fs: seq<Frame>, d: Byte)
    requires d in streams && d != 0
    ensures d in FeedAll(streams, fs).0
    ensures FeedAll(streams, fs).0[d] == Feed(streams[d], For(d, fs)).0
    ensures To(d, FeedAll(streams, fs).1) == Feed(streams[d], For(d, fs)).1
    decreases |fs|
  {
    if fs != [] {
      if !Addressed(streams, fs[0]) {
        StreamsAreIndependent(streams, fs[1..], d);
      } else {
        var e := fs[0].dst;
        var (a, out) := Receive(streams[e], fs[0], true);
        StreamsAreIndependent(streams[e := a], fs[1..], d);
        ToTagged(d, e, out, FeedAll(streams[e := a], fs[1..]).1);
        assert d == e ==> ([fs[0]] + For(d, fs[1..]))[1..] == For(d, fs[1..]);
      }
    }
  }

  // ---- The cost of growing the buffer ----

  /** Growing has copied fewer than twice the bytes assembled, and the buffer is at
      most twice as large as they are, or of the first size. */
  predicate Amortised(a: Asm) {
    && |a.buf| <= a.cap && a.moved <= a.cap
    && (a.moved < 2 * |a.buf| || a.moved == 0)
    && a.cap <= Max(FIRST_CAPACITY, 2 * |a.buf|)
  }

  /** Growing copies what the buffer holds, and nothing else copies. */
  lemma GrowthCopies(a: Asm, f: Frame, memory: bool)
    requires |a.buf| <= a.cap
    ensures var a' := Appended(a, f, memory);
            && a'.moved == a.moved + (if a'.cap > a.cap then |a.buf| else 0)
            && (a'.cap != a.cap <==> memory && |a.buf| + |f.payload| > a.cap)
            && |a'.buf| <= a'.cap
  {
  }

  lemma ReceiveAmortised(a: Asm, f: Frame, memory: bool)
    requires Amortised(a)
    ensures Amortised(Receive(a, f, memory).0)
    ensures Amortised(Appended(Sequenced(Opened(a, f), f), f, memory))
  {
  }

  /** The bound holds of every message, just before it is delivered or dropped. */
  lemma {:induction false} GrowthIsAmortised(a: Asm, fs: seq<Frame>, f: Frame)
    requires Amortised(a)
    ensures var full := Appended(Sequenced(Opened(Feed(a, fs).0, f), f), f, true);
            && (|full.buf| > 0 ==> full.moved < 2 * |full.buf|)
            && full.cap <= Max(FIRST_CAPACITY, 2 * |full.buf|)
    decreases |fs|
  {
    if fs == [] {
      ReceiveAmortised(a, f, true);
    } else {
      ReceiveAmortised(a, fs[0], true);
      GrowthIsAmortised(Receive(a, fs[0], true).0, fs[1..], f);
    }
  }

  // ---- Refused memory ----

  function FeedWith(a: Asm, fs: seq<Frame>, memory: seq<bool>): (Asm, seq<Message>)
    requires |memory| == |fs|
    decreases |fs|
  {
    if fs == [] then (a, [])
    else
      var (a1, out) := Receive(a, fs[0], memory[0]);
      var (a2, more) := FeedWith(a1, fs[1..], memory[1..]);
      (a2, out + more)
  }

  /** Every growth that the run needs is granted. */
  predicate Granted(a: Asm, fs: seq<Frame>, memory: seq<bool>)
    requires |memory| == |fs|
    decreases |fs|
  {
    fs != [] ==>
      (memory[0] || |Opened(a, fs[0]).buf| + |fs[0].payload| <= Opened(a, fs[0]).cap) &&
      Granted(Receive(a, fs[0], memory[0]).0, fs[1..], memory[1..])
  }

  lemma {:induction false} GrantedIsAsGood(a: Asm, fs: seq<Frame>, memory: seq<bool>)
    requires |memory| == |fs| && Granted(a, fs, memory)
    ensures FeedWith(a, fs, memory) == Feed(a, fs)
    decreases |fs|
  {
    if fs != [] {
      GrantedIsAsGood(Receive(a, fs[0], memory[0]).0, fs[1..], memory[1..]);
    }
  }

  predicate NoneAsLongAs(out: seq<Message>, n: nat) {
    forall i :: 0 <= i < |out| ==> 0 < |out[i].data| < n
  }

  lemma {:induction false} RefusedTail(a: Asm, src: Byte, dst: Byte, data: seq<Byte>,
                                       memory: seq<bool>, k: nat)
    requires LegalLength(|data|) && k < Count(data) && |memory| == Count(data) - k
    requires k > 0 ==> |a.buf| <= k * PAYLOAD_MAX && (a.cap > 0 ==> a.buf != [])
    requires var fs := Fragments(src, dst, data)[k..];
             !Granted(a, fs, memory) || (k > 0 && |a.buf| < k * PAYLOAD_MAX)
    ensures NoneAsLongAs(FeedWith(a, Fragments(src, dst, data)[k..], memory).1, |data|)
    decreases Count(data) - k
  {
    var fs := Fragments(src, dst, data)[k..];
    FragmentsAreWellFormed(src, dst, data, k);
    assert fs[0] == Fragment(src, dst, data, k);
    assert fs[1..] == Fragments(src, dst, data)[k + 1..];
    if k + 1 < Count(data) {
      RefusedTail(Receive(a, fs[0], memory[0]).0, src, dst, data, memory[1..], k + 1);
    }
  }

  /** A message that arrives whole is delivered exactly when every growth it needs
      is granted; otherwise nothing of its length is delivered, and nothing empty. */
  lemma DeliveredIfGranted(a: Asm, src: Byte, dst: Byte, data: seq<Byte>, memory: seq<bool>)
    requires LegalLength(|data|) && |memory| == Count(data)
    ensures var fs := Fragments(src, dst, data); var out := FeedWith(a, fs, memory).1;
            && (Granted(a, fs, memory) <==> out == [Message(src, data)])
            && (!Granted(a, fs, memory) ==> NoneAsLongAs(out, |data|))
  {
    var fs := Fragments(src, dst, data);
    assert fs[0..] == fs;
    if Granted(a, fs, memory) {
      GrantedIsAsGood(a, fs, memory);
      WholeIsDelivered(a, src, dst, data);
    } else {
      RefusedTail(a, src, dst, data, memory, 0);
      assert [Message(src, data)][0].data == data;
    }
  }

  /** A refused growth is silent: three fragments of which the last finds no memory
      are delivered as a message of two. */
  lemma SilentTruncation(a: Asm, src: Byte, dst: Byte, data: seq<Byte>)
    requires LegalLength(|data|) && Count(data) == 3
    requires |data| > FIRST_CAPACITY
    ensures FeedWith(a, Fragments(src, dst, data), [true, true, false]).1
            == [Message(src, data[..2 * PAYLOAD_MAX])]
  {
    var fs := Fragments(src, dst, data);
    var a1 := Receive(a, fs[0], true).0;
    var a2 := Receive(a1, fs[1], true).0;
    assert fs == [fs[0], fs[1], fs[2]];
    assert a2.buf == data[..2 * PAYLOAD_MAX];
    assert Receive(a2, fs[2], false).1 == [Message(src, data[..2 * PAYLOAD_MAX])];
    assert fs[1..][1..] == [fs[2]];
    assert FeedWith(a2, [fs[2]], [false]).1 == Receive(a2, fs[2], false).1;
  }

  // ---- The stream object ----

  const RX_QUEUE_MAX := 65536

  datatype Received = Taken(m: Message) | Nothing | Shutdown | Fault

  /** The receive side of `struct odl_tb5_stream`. */
  class RxStream {
    var buf: seq<Byte>
    var cap: nat
    var src: Byte
    var next: nat
    var bad: bool
    var drops: nat
    var queue: seq<Message>
    ghost var moved: nat

    ghost function View(): Asm
      reads this
    {
      Asm(buf, cap, src, next, bad, moved)
    }

    constructor ()
      ensures View() == Asm([], 0, 0, 0, false, 0) && queue == [] && drops == 0
    {
      buf, cap, src, next, bad, drops, queue, moved := [], 0, 0, 0, false, 0, [], 0;
    }

    method Append(f: Frame, memory: bool)
      modifies this`buf, this`cap, this`moved
      ensures View() == Appended(old(View()), f, memory)
    {
      if |buf| + |f.payload| > cap {
        var newCap := Max(FIRST_CAPACITY, Max(cap * 2, |buf| + |f.payload|));
        if memory {
          moved := moved + |buf|;
          cap := newCap;
        }
      }
      if |buf| + |f.payload| <= cap {
        buf := buf + f.payload;
      }
    }

    /** `entry` tells whether a queue entry can be had. */
    method Finish(entry: bool)
      modifies this`buf, this`cap, this`moved, this`bad, this`next, this`queue
      ensures forall f: Frame :: f.end ==>
                View() == Closed(old(View()), f).0 &&
                queue == old(queue) + if entry && |old(queue)| < RX_QUEUE_MAX then Closed(old(View()), f).1 else []
    {
      if bad {
        bad, next := false, 0;
      } else if entry && cap > 0 && |queue| < RX_QUEUE_MAX {
        queue := queue + [Message(src, buf)];
      }
      buf, cap, moved := [], 0, 0;
    }

    /** The stream part of `odl_tb5_rx_callback`. */
    method OnFrame(f: Frame, memory: bool, entry: bool)
      modifies this
      ensures View() == Receive(old(View()), f, memory).0
      ensures var out := Receive(old(View()), f, memory).1;
              queue == old(queue) + if entry && |old(queue)| < RX_QUEUE_MAX then out else []
      ensures drops == old(drops) + if f.idx != Opened(old(View()), f).next then 1 else 0
    {
      if f.start {
        buf, cap, moved := [], 0, 0;
        src, next, bad := f.src, 0, false;
      }
      if f.idx != next {
        bad := true;
        drops := drops + 1;
      }
      next := (f.idx + 1) % U16;
      Append(f, memory);
      if f.end {
        Finish(entry);
      }
    }

    /** `odl_tb5_stream_recv`, when it does not wait: the oldest message, cut to the
        caller's buffer. `dying` is the stream's teardown flag, and `copied` tells whether
        the copy to the caller succeeds; a message whose copy fails is gone. */
    method Recv(bufLen: nat, dying: bool, copied: bool) returns (got: Received)
      modifies this`queue
      ensures old(queue) == [] ==> queue == [] && got == if dying then Shutdown else Nothing
      ensures old(queue) != [] ==>
                var m := old(queue)[0];
                && queue == old(queue)[1..]
                && got == if copied then Taken(m.(data := m.data[..Min(|m.data|, bufLen)])) else Fault
    {
      if queue == [] {
        return if dying then Shutdown else Nothing;
      }
      var m := queue[0];
      queue := queue[1..];
      got := if copied then Taken(m.(data := m.data[..Min(|m.data|, bufLen)])) else Fault;
    }
  }
}
