/** Length-framed transfers over an in-order message stream, and the linked queue of
    requests that one worker serves in order. */
module RcclFraming {
  import opened Base

  const CHUNK := 4000
  const HEADER := 4
  const INT_LIMIT := 0x8000_0000

  // ---- Wire format ----

  function Le32(n: nat): seq<Byte>
    requires n < INT_LIMIT
  {
    [n % 256, n / 0x100 % 256, n / 0x1_0000 % 256, n / 0x100_0000]
  }

  function Decode32(b: seq<Byte>): nat
    requires |b| >= HEADER
  {
    (b[0] as int) + 0x100 * (b[1] as int) + 0x1_0000 * (b[2] as int) + 0x100_0000 * (b[3] as int)
  }

  lemma HeaderRoundTrip(n: nat)
    requires n < INT_LIMIT
    ensures Decode32(Le32(n)) == n
  {
    assert n == n % 256 + 0x100 * (n / 0x100);
    assert n / 0x100 == n / 0x100 % 256 + 0x100 * (n / 0x1_0000);
    assert n / 0x1_0000 == n / 0x1_0000 % 256 + 0x100 * (n / 0x100_0000);
  }

  function Chunks(data: seq<Byte>): seq<seq<Byte>>
    decreases |data|
  {
    if data == [] then []
    else
      var n := Min(CHUNK, |data|);
      [data[..n]] + Chunks(data[n..])
  }

  /** A transfer on the wire: the length, then the data in chunks. */
  function Framed(data: seq<Byte>): seq<seq<Byte>>
    requires |data| < INT_LIMIT
  {
    [Le32(|data|)] + Chunks(data)
  }

  // ---- Receiving ----

  /** What a served receive request reports: the flag, the bytes taken off the stream and
      the bytes stored in the posted buffer. */
  datatype Result = Result(failed: bool, drained: nat, stored: seq<Byte>)

  /** A receive ends, leaving a stream, or waits for a message not yet sent. */
  datatype Receipt = Done(result: Result, rest: seq<seq<Byte>>) | Waiting

  datatype Collected = Collected(broken: bool, data: seq<Byte>, rest: seq<seq<Byte>>) | Blocked

  /** The chunk loop on any stream at all: each message is cut to the bytes still wanted,
      an empty one ends the loop, and a closed stream breaks it. */
  function Collect(stream: seq<seq<Byte>>, closed: bool, total: nat, got: seq<Byte>): Collected
    decreases |stream|
  {
    if |got| >= total then Collected(false, got, stream)
    else if stream == [] then if closed then Collected(true, got, []) else Blocked
    else
      var n := Min(Min(total - |got|, CHUNK), |stream[0]|);
      if n == 0 then Collected(false, got, stream[1..])
      else Collect(stream[1..], closed, total, got + stream[0][..n])
  }

  /** How much of the first message the chunk loop takes. */
  function Wants(stream: seq<seq<Byte>>, total: nat, got: seq<Byte>): nat
    requires stream != [] && |got| < total
  {
    Min(Min(total - |got|, CHUNK), |stream[0]|)
  }

  lemma CollectNext(stream: seq<seq<Byte>>, closed: bool, total: nat, got: seq<Byte>)
    requires stream != [] && |got| < total
    ensures var n := Wants(stream, total, got);
            Collect(stream, closed, total, got) ==
            if n == 0 then Collected(false, got + stream[0][..n], stream[1..])
            else Collect(stream[1..], closed, total, got + stream[0][..n])
  {
    assert got + [] == got;
  }

  /** The loop bound: a length of 2^31 or more is negative as a C int. */
  function Wanted(total: nat): nat {
    if total < INT_LIMIT then total else 0
  }

  /** The receive half of `do_transfer` for a posted buffer of `size` bytes. */
  function Receive(stream: seq<seq<Byte>>, closed: bool, size: nat): Receipt {
    if stream == [] then if closed then Done(Result(true, 0, []), []) else Waiting
    else if |stream[0]| < HEADER then Done(Result(true, 0, []), stream[1..])
    else
      var total := Decode32(stream[0]);
      match Collect(stream[1..], closed, Wanted(total), [])
      case Blocked => Waiting
      case Collected(broken, data, rest) =>
        Done(Result(broken || total > size, |data|, if total > size then [] else data), rest)
  }

  /** The chunks of some data that is still wanted are taken one by one. */
  lemma {:induction false} CollectChunks(data: seq<Byte>, rest: seq<seq<Byte>>, closed: bool,
                                         total: nat, got: seq<Byte>)
    requires |got| + |data| <= total
    ensures Collect(Chunks(data) + rest, closed, total, got) == Collect(rest, closed, total, got + data)
    decreases |data|
  {
    var stream := Chunks(data) + rest;
    if data == [] {
      assert stream == rest && got + data == got;
    } else {
      var n := Min(CHUNK, |data|);
      assert stream[0] == data[..n] && stream[1..] == Chunks(data[n..]) + rest;
      assert stream[0][..n] == data[..n];
      CollectChunks(data[n..], rest, closed, total, got + data[..n]);
      assert got + data[..n] + data[n..] == got + data;
    }
  }

  /** The result a receive of `size` bytes owes for a send of `data`. */
  function Outcome(data: seq<Byte>, size: nat): Result {
    if |data| <= size then Result(false, |data|, data) else Result(true, |data|, [])
  }

  /** One transfer: it succeeds with exactly the sender's bytes if and only if they fit;
      otherwise it fails having drained exactly that transfer and stored nothing. Either
      way the stream is left at the next header. */
  lemma ReceiveFramed(data: seq<Byte>, rest: seq<seq<Byte>>, closed: bool, size: nat)
    requires |data| < INT_LIMIT
    ensures Receive(Framed(data) + rest, closed, size) == Done(Outcome(data, size), rest)
    ensures var r := Receive(Framed(data) + rest, closed, size).result;
            && (r.failed <==> |data| > size) && r.drained == |data|
            && r.stored == if r.failed then [] else data
  {
    var stream := Framed(data) + rest;
    HeaderRoundTrip(|data|);
    assert stream[0] == Le32(|data|) && stream[1..] == Chunks(data) + rest;
    CollectChunks(data, rest, closed, |data|, []);
    assert [] + data == data;
  }

  /** What is stored always fits the posted buffer, whatever the stream holds. */
  lemma {:induction false} CollectIsBounded(stream: seq<seq<Byte>>, closed: bool, total: nat, got: seq<Byte>)
    requires |got| <= total
    ensures var c := Collect(stream, closed, total, got); c.Collected? ==> got <= c.data && |c.data| <= total
    decreases |stream|
  {
    if |got| < total && stream != [] {
      var n := Min(Min(total - |got|, CHUNK), |stream[0]|);
      if n > 0 {
        CollectIsBounded(stream[1..], closed, total, got + stream[0][..n]);
      }
    }
  }

  lemma StoredFits(stream: seq<seq<Byte>>, closed: bool, size: nat)
    ensures var r := Receive(stream, closed, size); r.Done? ==> |r.result.stored| <= size
  {
    if stream != [] && |stream[0]| >= HEADER {
      CollectIsBounded(stream[1..], closed, Wanted(Decode32(stream[0])), []);
    }
  }

  // ---- Sessions ----

  function Wire(sends: seq<seq<Byte>>): seq<seq<Byte>>
    requires forall i :: 0 <= i < |sends| ==> |sends[i]| < INT_LIMIT
  {
    if sends == [] then [] else Framed(sends[0]) + Wire(sends[1..])
  }

  datatype Session = Session(results: seq<Result>, rest: seq<seq<Byte>>)

  /** Receives of the given sizes, one after the other, until one has to wait. */
  function ReceiveAll(stream: seq<seq<Byte>>, closed: bool, sizes: seq<nat>): Session
    decreases |sizes|
  {
    if sizes == [] then Session([], stream)
    else
      match Receive(stream, closed, sizes[0])
      case Waiting => Session([], stream)
      case Done(r, rest) =>
        var s := ReceiveAll(rest, closed, sizes[1..]);
        Session([r] + s.results, s.rest)
  }

  /** What the requests of a session owe: the sends in order, and once the stream is
      closed and drained, failure for every request left. */
  function Owed(sends: seq<seq<Byte>>, closed: bool, sizes: seq<nat>): seq<Result>
    decreases |sizes|
  {
    if sizes == [] then []
    else if sends != [] then [Outcome(sends[0], sizes[0])] + Owed(sends[1..], closed, sizes[1..])
    else if closed then [Result(true, 0, [])] + Owed([], closed, sizes[1..])
    else []
  }

  lemma ReceiveFirst(data: seq<Byte>, rest: seq<seq<Byte>>, closed: bool, sizes: seq<nat>)
    requires |data| < INT_LIMIT && sizes != []
    ensures var s := ReceiveAll(rest, closed, sizes[1..]);
            ReceiveAll(Framed(data) + rest, closed, sizes) ==
            Session([Outcome(data, sizes[0])] + s.results, s.rest)
  {
    ReceiveFramed(data, rest, closed, sizes[0]);
  }

  /** Session alignment: for every sequence of sends and of posted sizes, receive i gets
      exactly send i's bytes if they fit and fails otherwise, no failure disturbs another
      request, and what is left on the wire is the framing of the sends not yet claimed. */
  lemma {:induction false} SessionAlignment(sends: seq<seq<Byte>>, closed: bool, sizes: seq<nat>)
    requires forall i :: 0 <= i < |sends| ==> |sends[i]| < INT_LIMIT
    ensures ReceiveAll(Wire(sends), closed, sizes) ==
            Session(Owed(sends, closed, sizes), Wire(sends[Min(|sends|, |sizes|)..]))
    decreases |sizes|
  {
    if sizes == [] {
      assert sends[0..] == sends;
    } else if sends != [] {
      ReceiveFirst(sends[0], Wire(sends[1..]), closed, sizes);
      SessionAlignment(sends[1..], closed, sizes[1..]);
      assert sends[1..][Min(|sends|, |sizes|) - 1..] == sends[Min(|sends|, |sizes|)..];
    } else if closed {
      SessionAlignment([], closed, sizes[1..]);
    }
  }

  /** Request i of a session owes exactly send i. */
  lemma {:induction false} OwedInOrder(sends: seq<seq<Byte>>, closed: bool, sizes: seq<nat>, i: nat)
    requires i < |sizes| && i < |sends|
    ensures i < |Owed(sends, closed, sizes)| && Owed(sends, closed, sizes)[i] == Outcome(sends[i], sizes[i])
  {
    if i > 0 {
      OwedInOrder(sends[1..], closed, sizes[1..], i - 1);
    }
  }

  lemma {:induction false} CollectEnds(stream: seq<seq<Byte>>, total: nat, got: seq<Byte>)
    ensures Collect(stream, true, total, got).Collected?
    decreases |stream|
  {
    if |got| < total && stream != [] {
      var n := Min(Min(total - |got|, CHUNK), |stream[0]|);
      if n > 0 {
        CollectEnds(stream[1..], total, got + stream[0][..n]);
      }
    }
  }

  /** A closed stream leaves no request pending, whatever had been taken off it. */
  lemma {:induction false} ClosingFinishesAll(stream: seq<seq<Byte>>, sizes: seq<nat>)
    ensures |ReceiveAll(stream, true, sizes).results| == |sizes|
    decreases |sizes|
  {
    if sizes != [] {
      if stream != [] && |stream[0]| >= HEADER {
        CollectEnds(stream[1..], Wanted(Decode32(stream[0])), []);
      }
      ClosingFinishesAll(Receive(stream, true, sizes[0]).rest, sizes[1..]);
    }
  }

  // ---- Sends that are cut short ----

  /** A send of which the stream took the first `accepted` messages. */
  datatype Attempt = Attempt(data: seq<Byte>, accepted: nat)

  predicate Sized(tries: seq<Attempt>) {
    forall i :: 0 <= i < |tries| ==> |tries[i].data| < INT_LIMIT
  }

  predicate Whole(a: Attempt)
    requires |a.data| < INT_LIMIT
  {
    a.accepted >= |Framed(a.data)|
  }

  predicate CutShort(a: Attempt)
    requires |a.data| < INT_LIMIT
  {
    0 < a.accepted < |Framed(a.data)|
  }

  function Emitted(a: Attempt): seq<seq<Byte>>
    requires |a.data| < INT_LIMIT
  {
    Framed(a.data)[..Min(a.accepted, |Framed(a.data)|)]
  }

  function CutWire(tries: seq<Attempt>): seq<seq<Byte>>
    requires Sized(tries)
  {
    if tries == [] then [] else Emitted(tries[0]) + CutWire(tries[1..])
  }

  /** The sends that reached the wire whole. */
  function Reached(tries: seq<Attempt>): seq<seq<Byte>>
    requires Sized(tries)
  {
    if tries == [] then []
    else (if Whole(tries[0]) then [tries[0].data] else []) + Reached(tries[1..])
  }

  /** Among the sends that `n` receives are for, once one has been cut part-way nothing
      more goes on the wire. */
  predicate NoCutBeforeAnother(tries: seq<Attempt>, n: nat)
    requires Sized(tries)
    decreases |tries|
  {
    if tries == [] || n == 0 then true
    else if tries[0].accepted == 0 then NoCutBeforeAnother(tries[1..], n)
    else (CutShort(tries[0]) ==> CutWire(tries[1..]) == []) && NoCutBeforeAnother(tries[1..], n - 1)
  }

  /** The messages a receive takes; one that has to wait has taken all there are. */
  function Takes(stream: seq<seq<Byte>>, size: nat): int {
    match Receive(stream, false, size)
    case Waiting => |stream|
    case Done(_, rest) => |stream| - |rest|
  }

  /** Every receive takes exactly the messages of one send. */
  predicate Aligned(tries: seq<Attempt>, sizes: seq<nat>)
    requires Sized(tries)
    decreases |tries|
  {
    if tries == [] || sizes == [] then true
    else if tries[0].accepted == 0 then Aligned(tries[1..], sizes)
    else Takes(CutWire(tries), sizes[0]) == |Emitted(tries[0])| && Aligned(tries[1..], sizes[1..])
  }

  /** A proper part of the chunks is the chunks of a proper part. */
  lemma {:induction false} ChunksPrefix(data: seq<Byte>, c: nat)
    requires c < |Chunks(data)|
    ensures c * CHUNK < |data| && Chunks(data)[..c] == Chunks(data[..c * CHUNK])
    decreases c
  {
    if c > 0 {
      assert |data| > CHUNK;
      ChunksPrefix(data[CHUNK..], c - 1);
      var part := data[..c * CHUNK];
      assert part[..CHUNK] == data[..CHUNK] && part[CHUNK..] == data[CHUNK..][..(c - 1) * CHUNK];
    }
  }

  /** What a receive makes of a send cut part-way: it goes on with whatever follows. */
  lemma ReceiveCut(a: Attempt, rest: seq<seq<Byte>>, closed: bool, size: nat)
    requires |a.data| < INT_LIMIT && CutShort(a)
    ensures (a.accepted - 1) * CHUNK < |a.data|
    ensures var c := Collect(rest, closed, |a.data|, a.data[..(a.accepted - 1) * CHUNK]);
            Receive(Emitted(a) + rest, closed, size) ==
            if c.Blocked? then Waiting
            else Done(Result(c.broken || |a.data| > size, |c.data|,
                             if |a.data| > size then [] else c.data), c.rest)
  {
    var n := a.accepted - 1;
    var stream := Emitted(a) + rest;
    HeaderRoundTrip(|a.data|);
    ChunksPrefix(a.data, n);
    var part := a.data[..n * CHUNK];
    assert stream[0] == Le32(|a.data|) && stream[1..] == Chunks(a.data)[..n] + rest;
    CollectChunks(part, rest, closed, |a.data|, []);
    assert [] + part == part;
  }

  /** A send that is cut off by the closing of the stream is reported failed, with the
      bytes that had come. */
  lemma ClosedMidTransferFails(a: Attempt, size: nat)
    requires |a.data| < INT_LIMIT && !Whole(a)
    ensures (Max(a.accepted, 1) - 1) * CHUNK <= |a.data|
    ensures var got := a.data[..(Max(a.accepted, 1) - 1) * CHUNK];
            Receive(Emitted(a), true, size) ==
            Done(Result(true, |got|, if |a.data| > size then [] else got), [])
  {
    assert Emitted(a) + [] == Emitted(a);
    if a.accepted > 0 {
      ReceiveCut(a, [], true, size);
    }
  }

  lemma {:induction false} CollectTakes(stream: seq<seq<Byte>>, total: nat, got: seq<Byte>)
    ensures var c := Collect(stream, false, total, got); c.Collected? ==> |c.rest| <= |stream|
    ensures var c := Collect(stream, false, total, got);
            stream != [] && |got| < total && c.Collected? ==> |c.rest| < |stream|
    decreases |stream|
  {
    if |got| < total && stream != [] {
      var n := Min(Min(total - |got|, CHUNK), |stream[0]|);
      if n > 0 {
        CollectTakes(stream[1..], total, got + stream[0][..n]);
      }
    }
  }

  lemma TakesOfCut(a: Attempt, rest: seq<seq<Byte>>, size: nat)
    requires |a.data| < INT_LIMIT && CutShort(a)
    ensures Takes(Emitted(a) + rest, size) == |Emitted(a)| <==> rest == []
    ensures rest == [] ==> Receive(Emitted(a) + rest, false, size).Waiting?
  {
    ReceiveCut(a, rest, false, size);
    CollectTakes(rest, |a.data|, a.data[..(a.accepted - 1) * CHUNK]);
  }

  lemma TakesOfWhole(a: Attempt, rest: seq<seq<Byte>>, size: nat)
    requires |a.data| < INT_LIMIT && Whole(a)
    ensures Takes(Emitted(a) + rest, size) == |Emitted(a)|
    ensures Receive(Emitted(a) + rest, false, size) == Done(Outcome(a.data, size), rest)
  {
    assert Emitted(a) == Framed(a.data);
    ReceiveFramed(a.data, rest, false, size);
  }

  /** The session stays aligned if and only if no send that was cut part-way is followed
      by anything on the wire. A send of which nothing was accepted does no harm. */
  lemma {:induction false} AlignedIffNoCut(tries: seq<Attempt>, sizes: seq<nat>)
    requires Sized(tries)
    ensures Aligned(tries, sizes) <==> NoCutBeforeAnother(tries, |sizes|)
    decreases |tries|
  {
    if tries != [] && sizes != [] {
      var a, rest := tries[0], CutWire(tries[1..]);
      if a.accepted == 0 {
        AlignedIffNoCut(tries[1..], sizes);
      } else {
        AlignedIffNoCut(tries[1..], sizes[1..]);
        if Whole(a) {
          TakesOfWhole(a, rest, sizes[0]);
        } else {
          TakesOfCut(a, rest, sizes[0]);
        }
      }
    }
  }

  lemma {:induction false} NothingSentNothingReached(tries: seq<Attempt>)
    requires Sized(tries) && CutWire(tries) == []
    ensures Reached(tries) == []
  {
    if tries != [] {
      assert |CutWire(tries)| == |Emitted(tries[0])| + |CutWire(tries[1..])|;
      NothingSentNothingReached(tries[1..]);
    }
  }

  /** Then the receives get exactly the sends that reached the wire whole, in order. */
  lemma {:induction false} ReachedAreServed(tries: seq<Attempt>, sizes: seq<nat>)
    requires Sized(tries) && NoCutBeforeAnother(tries, |sizes|)
    ensures ReceiveAll(CutWire(tries), false, sizes).results == Owed(Reached(tries), false, sizes)
    decreases |tries|
  {
    if tries != [] && sizes != [] {
      var a, rest := tries[0], CutWire(tries[1..]);
      if Whole(a) {
        TakesOfWhole(a, rest, sizes[0]);
        ReachedAreServed(tries[1..], sizes[1..]);
        assert Reached(tries)[1..] == Reached(tries[1..]);
      } else if CutShort(a) {
        TakesOfCut(a, rest, sizes[0]);
        NothingSentNothingReached(tries[1..]);
      } else {
        assert CutWire(tries) == rest && Reached(tries) == Reached(tries[1..]);
        ReachedAreServed(tries[1..], sizes);
      }
    }
  }

  lemma CollectHeader(next: seq<Byte>, closed: bool, total: nat, got: seq<Byte>)
    requires |next| < INT_LIMIT && |got| + HEADER == total
    ensures Collect(Framed(next), closed, total, got) == Collected(false, got + Le32(|next|), Chunks(next))
  {
    assert Framed(next)[0][..HEADER] == Le32(|next|) && Framed(next)[1..] == Chunks(next);
  }

  /** The misalignment is silent: when the chunk that is missing is as long as a header,
      the receive succeeds with the next header's bytes in its place. */
  lemma CutSendSplices(a: Attempt, next: seq<Byte>, closed: bool, size: nat)
    requires |a.data| < INT_LIMIT && |next| < INT_LIMIT && CutShort(a) && |a.data| <= size
    requires |a.data| == (a.accepted - 1) * CHUNK + HEADER
    ensures Receive(Emitted(a) + Framed(next), closed, size) ==
            Done(Result(false, |a.data|, a.data[..|a.data| - HEADER] + Le32(|next|)), Chunks(next))
  {
    ReceiveCut(a, Framed(next), closed, size);
    CollectHeader(next, closed, |a.data|, a.data[..|a.data| - HEADER]);
  }

  /** A transfer that repeats its own header. */
  function Echo(): seq<Byte> {
    Le32(2 * HEADER) + Le32(2 * HEADER)
  }

  lemma ChunksOfShort(data: seq<Byte>)
    requires 0 < |data| <= CHUNK
    ensures Chunks(data) == [data]
  {
    assert data[..|data|] == data && data[|data|..] == [];
    assert [data] + Chunks([]) == [data];
  }

  lemma CollectEcho()
    ensures Collect(Framed(Echo()), false, 2 * HEADER, []) == Collected(false, Echo(), [])
  {
    ChunksOfShort(Echo());
    var h := Le32(2 * HEADER);
    assert Framed(Echo())[1..] == [Echo()] && h[..HEADER] == h && [] + h == h;
    assert Echo()[..HEADER] == h && [Echo()][1..] == [];
    assert Collect([Echo()], false, 2 * HEADER, h) == Collect([], false, 2 * HEADER, h + h);
  }

  lemma WireOfEcho(data: seq<Byte>)
    requires |data| == 2 * HEADER
    ensures var tries := [Attempt(data, 1), Attempt(Echo(), 2)];
            && CutWire(tries) == Emitted(tries[0]) + Framed(Echo()) && CutShort(tries[0])
            && Reached(tries) == [Echo()] && !NoCutBeforeAnother(tries, 1)
  {
    ChunksOfShort(data);
    ChunksOfShort(Echo());
    var b := Attempt(Echo(), 2);
    var tries := [Attempt(data, 1), b];
    assert tries[1..] == [b] && [b][1..] == [];
    assert Whole(b) && Emitted(b) == Framed(Echo());
    assert CutWire([b]) == Framed(Echo()) + CutWire([]);
    assert Reached([b]) == [Echo()] + Reached([]);
    assert Framed(Echo()) + [] == Framed(Echo());
  }

  /** Bytes alone do not tell: this receive gets the right bytes by accident, from the
      wrong messages. */
  lemma RightBytesMisaligned(data: seq<Byte>)
    requires |data| == 2 * HEADER
    ensures var tries := [Attempt(data, 1), Attempt(Echo(), 2)];
            && !NoCutBeforeAnother(tries, 1)
            && ReceiveAll(CutWire(tries), false, [2 * HEADER]).results == Owed(Reached(tries), false, [2 * HEADER])
  {
    WireOfEcho(data);
    CollectEcho();
    assert data[..0 * CHUNK] == [];
    ReceiveCut(Attempt(data, 1), Framed(Echo()), false, 2 * HEADER);
  }

  // ---- The sending side ----

  /** The send half of `do_transfer`. `accepts` says how many messages the stream takes
      before it refuses one. */
  method Send(data: array<Byte>, accepts: nat) returns (wire: seq<seq<Byte>>, failed: bool)
    requires data.Length < INT_LIMIT
    ensures wire <= Framed(data[..]) && |wire| == Min(accepts, |Framed(data[..])|)
    ensures failed <==> accepts < |Framed(data[..])|
  {
    var size := data.Length;
    ghost var whole := data[..];
    failed := accepts == 0;
    wire := if failed then [] else [Le32(size)];
    var off := 0;
    while !failed && off < size
      invariant 0 <= off <= size
      invariant failed ==> accepts == |wire| < |Framed(whole)| && wire <= Framed(whole)
      invariant !failed ==> |wire| <= accepts && wire + Chunks(whole[off..]) == Framed(whole)
      decreases !failed, size - off
    {
      var n := Min(size - off, CHUNK);
      assert data[off..off + n] == whole[off..][..n] && whole[off..][n..] == whole[off + n..];
      assert wire + [whole[off..][..n]] + Chunks(whole[off + n..]) == Framed(whole);
      if |wire| == accepts {
        failed := true;
      } else {
        wire := wire + [data[off..off + n]];
      }
      off := off + n;
    }
  }

  // ---- The request queue and its worker ----

  class Request {
    const size: nat
    var data: seq<Byte>
    var done: bool
    var failed: bool
    var doneSize: nat
    var next: Request?

    constructor (buffer: seq<Byte>)
      requires |buffer| < INT_LIMIT
      ensures size == |buffer| && data == buffer && !done && !failed && next == null
    {
      size, data, done, failed, doneSize, next := |buffer|, buffer, false, false, 0, null;
    }

    /** The request reports `r`, with `r.stored` over the front of the posted buffer. */
    ghost predicate Reports(r: Result, buffer: seq<Byte>)
      reads this
    {
      && done && failed == r.failed && doneSize == r.drained
      && |r.stored| <= |buffer| && data == r.stored + buffer[|r.stored|..]
    }

    /** Writes `piece` at `off`, behind the bytes already stored. */
    method Store(off: nat, piece: seq<Byte>, ghost got: seq<Byte>, ghost buffer: seq<Byte>)
      requires |got| == off && off + |piece| <= |buffer| && data == got + buffer[off..]
      modifies this`data
      ensures data == got + piece + buffer[off + |piece|..]
    {
      data := data[..off] + piece + data[off + |piece|..];
    }
  }

  function Sizes(queue: seq<Request>): seq<nat> {
    if queue == [] then [] else [queue[0].size] + Sizes(queue[1..])
  }

  lemma PeelSession(stream: seq<seq<Byte>>, closed: bool, queue: seq<Request>, s: Session)
    requires queue != [] && ReceiveAll(stream, closed, Sizes(queue)) == s
    requires Receive(stream, closed, queue[0].size).Done?
    ensures var r := Receive(stream, closed, queue[0].size);
            && s.results != [] && r.result == s.results[0]
            && ReceiveAll(r.rest, closed, Sizes(queue[1..])) == Session(s.results[1..], s.rest)
  {
    assert Sizes(queue)[1..] == Sizes(queue[1..]);
  }

  lemma StuckSession(stream: seq<seq<Byte>>, closed: bool, queue: seq<Request>)
    requires queue != [] ==> Receive(stream, closed, queue[0].size).Waiting?
    ensures ReceiveAll(stream, closed, Sizes(queue)) == Session([], stream)
  {
  }

  /** The posted buffer once `got` has been received into it, or into a sink. */
  function Held(overflow: bool, got: seq<Byte>, buffer: seq<Byte>): seq<Byte>
    requires overflow || |got| <= |buffer|
  {
    if overflow then buffer else got + buffer[|got|..]
  }

  /** The first requests report these results, each over its posted buffer. */
  ghost predicate AllReport(reqs: seq<Request>, results: seq<Result>, bufs: seq<seq<Byte>>)
    requires |results| <= |reqs| == |bufs|
    reads reqs
  {
    results == [] || (reqs[0].Reports(results[0], bufs[0]) && AllReport(reqs[1..], results[1..], bufs[1..]))
  }

  lemma {:induction false} EachReports(reqs: seq<Request>, results: seq<Result>, bufs: seq<seq<Byte>>, i: nat)
    requires i < |results| <= |reqs| == |bufs| && AllReport(reqs, results, bufs)
    ensures reqs[i].Reports(results[i], bufs[i])
  {
    if i > 0 {
      EachReports(reqs[1..], results[1..], bufs[1..], i - 1);
    }
  }

  /** Distinct requests, each linked to the next and the last to `end`. */
  ghost predicate Chain(q: seq<Request>, end: Request?)
    reads q
  {
    q == [] ||
    (q[0] !in q[1..] && q[0].next == (if |q| == 1 then end else q[1]) && |q[0].data| == q[0].size &&
     Chain(q[1..], end))
  }

  lemma {:induction false} ChainSplits(q: seq<Request>, end: Request?)
    requires q != []
    ensures var n := |q| - 1;
            Chain(q, end) <==>
            Chain(q[..n], q[n]) && q[n] !in q[..n] && q[n].next == end && |q[n].data| == q[n].size
  {
    var n := |q| - 1;
    if n > 0 {
      ChainSplits(q[1..], end);
      assert q[1..][..n - 1] == q[..n][1..];
      assert q[1..] == q[..n][1..] + [q[n]] && q[..n] == [q[0]] + q[..n][1..];
    }
  }

  class Comm {
    var head: Request?
    var tail: Request?
    var incoming: seq<seq<Byte>>
    var closed: bool
    ghost var queue: seq<Request>

    /** The list from `head` to `tail` is `queue`. */
    ghost predicate Valid()
      reads this, queue
    {
      && Chain(queue, null)
      && head == (if queue == [] then null else queue[0])
      && tail == (if queue == [] then null else queue[|queue| - 1])
    }

    constructor (stream: seq<seq<Byte>>, end: bool)
      ensures Valid() && queue == [] && incoming == stream && closed == end
    {
      head, tail, incoming, closed, queue := null, null, stream, end, [];
    }

    /** `start_request`: appends a fresh request to the list, if memory for it is granted. */
    method StartRequest(buffer: seq<Byte>, granted: bool) returns (req: Request?)
      requires Valid() && |buffer| < INT_LIMIT
      modifies this`head, this`tail, this`queue, queue
      ensures Valid() && (req != null <==> granted)
      ensures granted ==> fresh(req) && queue == old(queue) + [req] && !req.done && req.data == buffer
      ensures !granted ==> queue == old(queue)
      ensures forall r :: r in old(queue) ==> r.data == old(r.data)
    {
      if !granted {
        return null;
      }
      req := new Request(buffer);
      ghost var q := queue;
      if tail != null {
        ChainSplits(q, null);
        tail.next := req;
        ChainSplits(q, req);
      } else {
        head := req;
      }
      tail := req;
      queue := queue + [req];
      assert queue[..|q|] == q;
      ChainSplits(queue, null);
    }

    /** The close in `comm_stop_worker`: messages not yet taken are gone, and every later
        receive fails. */
    method Close()
      requires Valid()
      modifies this`incoming, this`closed
      ensures Valid() && incoming == [] && closed
    {
      incoming, closed := [], true;
    }

    /** Takes the oldest request off the list. */
    method Take() returns (req: Request)
      requires Valid() && head != null
      modifies this`head, this`tail, this`queue
      ensures Valid() && [req] + queue == old(queue) && req !in queue && |req.data| == req.size
    {
      req := head;
      head := req.next;
      if head == null {
        tail := null;
      }
      queue := queue[1..];
    }

    /** One receive of the chunk loop. */
    method ReadChunk(req: Request, total: nat, overflow: bool, off: nat,
                     ghost got: seq<Byte>, ghost buffer: seq<Byte>) returns (n: nat)
      requires incoming != [] && |got| == off < total && (overflow || total <= |buffer|)
      requires req.data == Held(overflow, got, buffer)
      modifies this`incoming, req`data
      ensures n == Wants(old(incoming), total, got) && incoming == old(incoming)[1..]
      ensures off + n <= total && req.data == Held(overflow, got + old(incoming)[0][..n], buffer)
    {
      n := Min(Min(total - off, CHUNK), |incoming[0]|);
      var piece := incoming[0][..n];
      incoming := incoming[1..];
      if !overflow {
        req.Store(off, piece, got, buffer);
      }
    }

    /** The chunk loop: into the posted buffer, or into a sink on overflow. */
    method Drain(req: Request, total: nat, overflow: bool) returns (off: nat, broken: bool)
      requires Collect(incoming, closed, total, []).Collected?
      requires overflow || total <= |req.data|
      modifies this`incoming, req`data
      ensures var c := old(Collect(incoming, closed, total, []));
              && |c.data| <= total && off == |c.data| && broken == c.broken && incoming == c.rest
              && req.data == Held(overflow, c.data, old(req.data))
    {
      ghost var buffer, whole := req.data, Collect(incoming, closed, total, []);
      ghost var got: seq<Byte> := [];
      CollectIsBounded(incoming, closed, total, []);
      off, broken := 0, false;
      while off < total
        invariant |got| == off <= total && req.data == Held(overflow, got, buffer)
        invariant !broken && Collect(incoming, closed, total, got) == whole
        decreases |incoming|
      {
        if incoming == [] {
          broken := true;
          break;
        }
        CollectNext(incoming, closed, total, got);
        ghost var piece := incoming[0][..Wants(incoming, total, got)];
        var n := ReadChunk(req, total, overflow, off, got, buffer);
        got := got + piece;
        if n == 0 {
          break;
        }
        off := off + n;
      }
    }

    /** The receive half of `do_transfer`, on a stream that lets it finish. */
    method Transfer(req: Request)
      requires Receive(incoming, closed, req.size).Done? && |req.data| == req.size
      modifies this`incoming, req`data, req`done, req`failed, req`doneSize
      ensures old(Receive(incoming, closed, req.size).rest) == incoming
      ensures req.Reports(old(Receive(incoming, closed, req.size).result), old(req.data))
    {
      ghost var stream, buffer := incoming, req.data;
      var off, failed := 0, true;
      StoredFits(incoming, closed, req.size);
      if incoming != [] {
        var header := incoming[0];
        incoming := incoming[1..];
        if |header| >= HEADER {
          var total := Decode32(header);
          off, failed := Drain(req, Wanted(total), total > req.size);
          failed := failed || total > req.size;
        }
      }
      req.failed, req.doneSize, req.done := failed, off, true;
    }

    /** Serves the oldest request. */
    method ServeOne() returns (req: Request)
      requires Valid() && head != null && Receive(incoming, closed, queue[0].size).Done?
      modifies this`head, this`tail, this`queue, this`incoming, queue
      ensures Valid() && req == old(queue[0]) && queue == old(queue)[1..] && req !in queue
      ensures incoming == old(Receive(incoming, closed, queue[0].size).rest)
      ensures req.Reports(old(Receive(incoming, closed, queue[0].size).result), old(queue[0].data))
      ensures forall r :: r in queue ==> r.data == old(r.data)
    {
      req := Take();
      Transfer(req);
    }

    /** One turn of the worker's loop in a session. */
    method ServeNext(ghost s: Session, ghost bufs: seq<seq<Byte>>) returns (req: Request)
      requires Valid() && s == ReceiveAll(incoming, closed, Sizes(queue)) && head != null
      requires Receive(incoming, closed, head.size).Done?
      requires |bufs| == |queue| && forall i :: 0 <= i < |queue| ==> queue[i].data == bufs[i]
      modifies this`head, this`tail, this`queue, this`incoming, queue
      ensures Valid() && req == old(queue)[0] && queue == old(queue)[1..] && req !in queue
      ensures s.results != [] && req.Reports(s.results[0], bufs[0])
      ensures Session(s.results[1..], s.rest) == ReceiveAll(incoming, closed, Sizes(queue))
      ensures forall i :: 0 <= i < |queue| ==> queue[i].data == bufs[1..][i]
    {
      PeelSession(incoming, closed, queue, s);
      ghost var rest := queue[1..];
      assert forall i :: 0 <= i < |rest| ==> rest[i].data == bufs[1..][i];
      req := ServeOne();
    }

    /** The worker until the list is empty or a receive has to wait: one turn of its loop,
        then the rest. `bufs` are the posted buffers. */
    method Serve(ghost s: Session, ghost bufs: seq<seq<Byte>>)
      requires Valid() && s == ReceiveAll(incoming, closed, Sizes(queue))
      requires |bufs| == |queue| && forall i :: 0 <= i < |queue| ==> queue[i].data == bufs[i]
      modifies this`head, this`tail, this`queue, this`incoming, queue
      ensures Valid() && |s.results| <= |old(queue)| && queue == old(queue)[|s.results|..]
      ensures incoming == s.rest
      ensures AllReport(old(queue), s.results, bufs)
      decreases |queue|
    {
      if head != null && Receive(incoming, closed, head.size).Done? {
        ghost var all, n := queue, |s.results|;
        var req := ServeNext(s, bufs);
        Serve(Session(s.results[1..], s.rest), bufs[1..]);
        assert all[1..][n - 1..] == all[n..];
      } else {
        StuckSession(incoming, closed, queue);
      }
    }
  }
}
