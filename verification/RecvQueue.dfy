/** The receive side of a queue pair: buffers posted by the application, and a single
    drainer that moves stream messages into them. */
module RecvQueue {
  import opened Base
  import opened Circular
  import opened CompletionQueue
  import opened Assembly

  const RQ_DEPTH := 256

  datatype RecvWr = RecvWr(id: nat, numSge: nat, buf: nat, len: nat)

  /** How one drain attempt on a posted buffer ended. A copy error has used up its
      message; the other errors have not. */
  datatype Outcome = Got(m: Message) | CopyError(m: Message) | OtherError

  datatype RecvResult = Normal | CopyFails | Fails

  datatype Drainer =
    | Idle
    | Holding(wr: RecvWr)
    | Have(wr: RecvWr, o: Outcome)
    | Consumed(wr: RecvWr, o: Outcome)

  /** Bytes written to a posted buffer. */
  datatype Landing = Landing(buf: nat, bytes: seq<Byte>)

  /** The receive side, with history: messages that arrived, non-empty buffers accepted
      in order, how each ended so far, bytes written, completions published. */
  datatype Qp = Qp(
    ring: Ring<RecvWr>,
    stream: seq<Message>,
    drainer: Drainer,
    arrived: seq<Message>,
    posted: seq<RecvWr>,
    ended: seq<Outcome>,
    landings: seq<Landing>,
    published: seq<Wc>)

  datatype Event =
    | Arrives(m: Message)
    | PostRecv(wrs: seq<RecvWr>)
    | DrainPeeks
    | DrainReceives(result: RecvResult)
    | DrainConsumes
    | DrainPublishes

  function Start(): Qp {
    Qp(Ring(seq(RQ_DEPTH, i => RecvWr(0, 0, 0, 0)), 0, 0, 0), [], Idle, [], [], [], [], [])
  }

  /** `odl_post_recv`: requests in order until the ring is full; empty ones are skipped. */
  function Post(q: Qp, wrs: seq<RecvWr>): Qp
    requires RingOk(q.ring)
    decreases |wrs|
  {
    if wrs == [] || q.ring.count == |q.ring.slots| then q
    else if wrs[0].numSge == 0 then Post(q, wrs[1..])
    else
      PutAppends(q.ring, wrs[0]);
      Post(q.(ring := Put(q.ring, wrs[0]), posted := q.posted + [wrs[0]]), wrs[1..])
  }

  function Truncated(wr: RecvWr, m: Message): seq<Byte> {
    m.data[..Min(wr.len, |m.data|)]
  }

  function Completion(wr: RecvWr, o: Outcome): Wc {
    match o
    case Got(m) => Wc(wr.id, true, true, |Truncated(wr, m)|, m.src)
    case CopyError(_) => Wc(wr.id, false, true, 0, 0)
    case OtherError => Wc(wr.id, false, true, 0, 0)
  }

  function Land(wr: RecvWr, o: Outcome): seq<Landing> {
    if o.Got? then [Landing(wr.buf, Truncated(wr, o.m))] else []
  }

  /** What the stream answers; nothing when it would block. */
  function Answer(q: Qp, result: RecvResult): Option<Outcome> {
    if result.Fails? then Some(OtherError)
    else if q.stream == [] then None
    else if result.CopyFails? then Some(CopyError(q.stream[0]))
    else Some(Got(q.stream[0]))
  }

  /** The drainer's receive ended with `o`. */
  function Took(q: Qp, o: Outcome): Qp
    requires q.drainer.Holding? && (o.OtherError? || q.stream != [])
  {
    q.(drainer := Have(q.drainer.wr, o), ended := q.ended + [o],
       stream := if o.OtherError? then q.stream else q.stream[1..],
       landings := q.landings + Land(q.drainer.wr, o))
  }

  function Step(q: Qp, e: Event): Qp
    requires RingOk(q.ring)
  {
    match e
    case Arrives(m) => q.(stream := q.stream + [m], arrived := q.arrived + [m])
    case PostRecv(wrs) => Post(q, wrs)
    case DrainPeeks =>
      if !q.drainer.Idle? || q.ring.count == 0 then q
      else q.(drainer := Holding(q.ring.slots[q.ring.head]))
    case DrainReceives(result) =>
      if !q.drainer.Holding? then q
      else if Answer(q, result).None? then q.(drainer := Idle)
      else Took(q, Answer(q, result).value)
    case DrainConsumes =>
      if !q.drainer.Have? then q
      else q.(drainer := Consumed(q.drainer.wr, q.drainer.o),
              ring := if q.ring.count > 0 then Pop(q.ring) else q.ring)
    case DrainPublishes =>
      if !q.drainer.Consumed? then q
      else q.(drainer := Idle, published := q.published + [Completion(q.drainer.wr, q.drainer.o)])
  }

  // ---- Invariant ----

  /** Buffers taken out of the ring so far. */
  function Retired(q: Qp): int {
    |q.ended| - if q.drainer.Have? then 1 else 0
  }

  predicate BuffersOk(q: Qp) {
    && RingOk(q.ring) && 0 <= Retired(q) <= |q.posted| && Queue(q.ring) == q.posted[Retired(q)..]
    && (q.drainer.Holding? || q.drainer.Have? ==>
          Retired(q) < |q.posted| && q.drainer.wr == q.posted[Retired(q)])
    && (q.drainer.Have? || q.drainer.Consumed? ==>
          |q.ended| > 0 && q.drainer.o == q.ended[|q.ended| - 1] &&
          |q.ended| <= |q.posted| && q.drainer.wr == q.posted[|q.ended| - 1])
  }

  function TakenBy(ended: seq<Outcome>): seq<Message> {
    if ended == [] then []
    else
      var n := |ended| - 1;
      TakenBy(ended[..n]) + if ended[n].OtherError? then [] else [ended[n].m]
  }

  function Landings(posted: seq<RecvWr>, ended: seq<Outcome>): seq<Landing>
    requires |ended| <= |posted|
  {
    if ended == [] then []
    else
      var n := |ended| - 1;
      Landings(posted, ended[..n]) + Land(posted[n], ended[n])
  }

  function Completions(posted: seq<RecvWr>, ended: seq<Outcome>): seq<Wc>
    requires |ended| <= |posted|
  {
    seq(|ended|, i requires 0 <= i < |ended| => Completion(posted[i], ended[i]))
  }

  function Pending(q: Qp): seq<Wc> {
    if q.drainer.Have? || q.drainer.Consumed? then [Completion(q.drainer.wr, q.drainer.o)] else []
  }

  predicate ArrivedOk(arrived: seq<Message>, ended: seq<Outcome>, stream: seq<Message>) {
    arrived == TakenBy(ended) + stream
  }

  predicate LandedOk(landings: seq<Landing>, posted: seq<RecvWr>, ended: seq<Outcome>) {
    |ended| <= |posted| && landings == Landings(posted, ended)
  }

  predicate PublishedOk(wcs: seq<Wc>, posted: seq<RecvWr>, ended: seq<Outcome>) {
    |ended| <= |posted| && wcs == Completions(posted, ended)
  }

  predicate MatchOk(q: Qp) {
    && ArrivedOk(q.arrived, q.ended, q.stream)
    && LandedOk(q.landings, q.posted, q.ended)
    && PublishedOk(q.published + Pending(q), q.posted, q.ended)
  }

  predicate Inv(q: Qp) {
    BuffersOk(q) && MatchOk(q)
  }

  lemma {:induction false} LandingsIgnoreLater(posted: seq<RecvWr>, more: seq<RecvWr>, ended: seq<Outcome>)
    requires |ended| <= |posted|
    ensures Landings(posted + more, ended) == Landings(posted, ended)
  {
    if ended != [] {
      LandingsIgnoreLater(posted, more, ended[..|ended| - 1]);
    }
  }

  lemma PutKeepsBuffers(q: Qp, wr: RecvWr)
    requires BuffersOk(q) && q.ring.count < |q.ring.slots|
    ensures BuffersOk(q.(ring := Put(q.ring, wr), posted := q.posted + [wr]))
  {
    PutAppends(q.ring, wr);
    assert (q.posted + [wr])[Retired(q)..] == q.posted[Retired(q)..] + [wr];
  }

  lemma PutKeepsMatch(q: Qp, wr: RecvWr)
    requires RingOk(q.ring) && MatchOk(q) && q.ring.count < |q.ring.slots|
    ensures MatchOk(q.(ring := Put(q.ring, wr), posted := q.posted + [wr]))
  {
    LandingsIgnoreLater(q.posted, [wr], q.ended);
    assert Completions(q.posted + [wr], q.ended) == Completions(q.posted, q.ended);
  }

  lemma PutKeepsInv(q: Qp, wr: RecvWr)
    requires Inv(q) && q.ring.count < |q.ring.slots|
    ensures Inv(q.(ring := Put(q.ring, wr), posted := q.posted + [wr]))
  {
    PutKeepsBuffers(q, wr);
    PutKeepsMatch(q, wr);
  }

  lemma {:induction false} PostKeepsInv(q: Qp, wrs: seq<RecvWr>)
    requires Inv(q)
    ensures Inv(Post(q, wrs))
    decreases |wrs|
  {
    if wrs != [] && q.ring.count < |q.ring.slots| {
      if wrs[0].numSge == 0 {
        PostKeepsInv(q, wrs[1..]);
      } else {
        PutKeepsInv(q, wrs[0]);
        PostKeepsInv(q.(ring := Put(q.ring, wrs[0]), posted := q.posted + [wrs[0]]), wrs[1..]);
      }
    }
  }

  lemma PeekKeepsInv(q: Qp)
    requires Inv(q)
    ensures Inv(Step(q, DrainPeeks))
  {
    if q.drainer.Idle? && q.ring.count > 0 {
      PopDropsFirst(q.ring);
      assert Queue(q.ring)[0] == q.posted[Retired(q)..][0];
    }
  }

  lemma ReceiveKeepsBuffers(q: Qp, result: RecvResult)
    requires Inv(q)
    ensures BuffersOk(Step(q, DrainReceives(result)))
  {
  }

  lemma TakeOneMore(arrived: seq<Message>, ended: seq<Outcome>, stream: seq<Message>, o: Outcome)
    requires ArrivedOk(arrived, ended, stream) && (o.OtherError? || (stream != [] && o.m == stream[0]))
    ensures ArrivedOk(arrived, ended + [o], if o.OtherError? then stream else stream[1..])
  {
    assert (ended + [o])[..|ended|] == ended;
    if !o.OtherError? {
      assert stream == [stream[0]] + stream[1..];
    }
  }

  lemma LandOneMore(landings: seq<Landing>, posted: seq<RecvWr>, ended: seq<Outcome>, o: Outcome)
    requires LandedOk(landings, posted, ended) && |ended| < |posted|
    ensures LandedOk(landings + Land(posted[|ended|], o), posted, ended + [o])
  {
    assert (ended + [o])[..|ended|] == ended;
  }

  lemma CompleteOneMore(wcs: seq<Wc>, posted: seq<RecvWr>, ended: seq<Outcome>, o: Outcome)
    requires PublishedOk(wcs, posted, ended) && |ended| < |posted|
    ensures PublishedOk(wcs + [Completion(posted[|ended|], o)], posted, ended + [o])
  {
  }

  lemma TookKeepsMatch(q: Qp, o: Outcome)
    requires q.drainer.Holding? && (o.OtherError? || (q.stream != [] && o.m == q.stream[0]))
    requires MatchOk(q) && |q.ended| < |q.posted| && q.drainer.wr == q.posted[|q.ended|]
    ensures MatchOk(Took(q, o))
  {
    TakeOneMore(q.arrived, q.ended, q.stream, o);
    LandOneMore(q.landings, q.posted, q.ended, o);
    assert q.published + Pending(q) == q.published;
    CompleteOneMore(q.published, q.posted, q.ended, o);
  }

  lemma ReceiveKeepsMatch(q: Qp, result: RecvResult)
    requires Inv(q)
    ensures MatchOk(Step(q, DrainReceives(result)))
  {
    if q.drainer.Holding? && Answer(q, result).Some? {
      TookKeepsMatch(q, Answer(q, result).value);
    }
  }

  lemma ConsumeKeepsInv(q: Qp)
    requires Inv(q)
    ensures Inv(Step(q, DrainConsumes))
  {
    if q.drainer.Have? {
      assert |Queue(q.ring)| == |q.posted| - Retired(q) > 0;
      PopDropsFirst(q.ring);
      assert q.posted[Retired(q)..][1..] == q.posted[Retired(q) + 1..];
    }
  }

  lemma StepKeepsInv(q: Qp, e: Event)
    requires Inv(q)
    ensures Inv(Step(q, e))
  {
    match e
    case Arrives(m) =>
      assert TakenBy(q.ended) + (q.stream + [m]) == TakenBy(q.ended) + q.stream + [m];
    case PostRecv(wrs) => PostKeepsInv(q, wrs);
    case DrainPeeks => PeekKeepsInv(q);
    case DrainReceives(result) =>
      ReceiveKeepsBuffers(q, result);
      ReceiveKeepsMatch(q, result);
    case DrainConsumes => ConsumeKeepsInv(q);
    case DrainPublishes =>
  }

  function Run(evs: seq<Event>): (q: Qp)
    ensures Inv(q)
  {
    if evs == [] then Start()
    else
      var q := Run(evs[..|evs| - 1]);
      StepKeepsInv(q, evs[|evs| - 1]);
      Step(q, evs[|evs| - 1])
  }

  // ---- Matching ----

  lemma {:induction false} TakenAt(ended: seq<Outcome>, i: nat)
    requires i < |ended|
    ensures TakenBy(ended[..i]) <= TakenBy(ended)
    ensures var n := |TakenBy(ended[..i])|;
            !ended[i].OtherError? ==> n < |TakenBy(ended)| && TakenBy(ended)[n] == ended[i].m
    decreases |ended|
  {
    var k := |ended| - 1;
    if i < k {
      TakenAt(ended[..k], i);
      assert ended[..k][..i] == ended[..i];
    }
  }

  lemma StillThere<T>(xs: seq<T>, ys: seq<T>, more: seq<T>)
    requires xs <= ys
    ensures xs <= ys + more && forall i :: 0 <= i < |ys| ==> (ys + more)[i] == ys[i]
  {
  }

  lemma {:induction false} LandedAt(posted: seq<RecvWr>, ended: seq<Outcome>, i: nat)
    requires i < |ended| <= |posted|
    ensures Landings(posted, ended[..i]) <= Landings(posted, ended)
    ensures var n := |Landings(posted, ended[..i])|;
            ended[i].Got? ==>
              n < |Landings(posted, ended)| &&
              Landings(posted, ended)[n] == Landing(posted[i].buf, Truncated(posted[i], ended[i].m))
    decreases |ended|
  {
    var k := |ended| - 1;
    if i < k {
      LandedAt(posted, ended[..k], i);
      assert ended[..k][..i] == ended[..i] && ended[..k][i] == ended[i];
      StillThere(Landings(posted, ended[..i]), Landings(posted, ended[..k]), Land(posted[k], ended[k]));
    }
  }

  // ---- What the caller asked for ----

  function NonEmpty(wrs: seq<RecvWr>): seq<RecvWr> {
    if wrs == [] then []
    else
      var n := |wrs| - 1;
      NonEmpty(wrs[..n]) + if wrs[n].numSge > 0 then [wrs[n]] else []
  }

  /** `NonEmpty` keeps the requests with memory, all of them, in order. */
  lemma NonEmptyOne(w: RecvWr)
    ensures NonEmpty([]) == [] && NonEmpty([w]) == if w.numSge > 0 then [w] else []
  {
    assert [w][..0] == [];
  }

  lemma {:induction false} NonEmptyConcat(xs: seq<RecvWr>, ys: seq<RecvWr>)
    ensures NonEmpty(xs + ys) == NonEmpty(xs) + NonEmpty(ys)
    decreases |ys|
  {
    if ys == [] {
      assert xs + ys == xs;
    } else {
      var n := |ys| - 1;
      assert (xs + ys)[..|xs + ys| - 1] == xs + ys[..n];
      NonEmptyConcat(xs, ys[..n]);
    }
  }

  /** How many requests of a list are gone through when `room` buffers fit. */
  function Considered(wrs: seq<RecvWr>, room: nat): (n: nat)
    ensures n <= |wrs|
    decreases |wrs|
  {
    if wrs == [] || room == 0 then 0
    else 1 + Considered(wrs[1..], if wrs[0].numSge > 0 then room - 1 else room)
  }

  /** What is kept of a list. */
  function Kept(wrs: seq<RecvWr>, room: nat): seq<RecvWr> {
    NonEmpty(wrs[..Considered(wrs, room)])
  }

  lemma KeepsFirst(wrs: seq<RecvWr>, room: nat)
    requires wrs != [] && room > 0
    ensures Kept(wrs, room) ==
            if wrs[0].numSge > 0 then [wrs[0]] + Kept(wrs[1..], room - 1) else Kept(wrs[1..], room)
  {
    var n := Considered(wrs, room);
    assert wrs[..n] == [wrs[0]] + wrs[1..][..n - 1];
    NonEmptyConcat([wrs[0]], wrs[1..][..n - 1]);
    NonEmptyOne(wrs[0]);
  }

  /** It is the longest part of the list that fits. */
  lemma {:induction false} KeptFills(wrs: seq<RecvWr>, room: nat)
    ensures |Kept(wrs, room)| <= room && (Considered(wrs, room) < |wrs| ==> |Kept(wrs, room)| == room)
    decreases |wrs|
  {
    if wrs != [] && room > 0 {
      KeepsFirst(wrs, room);
      KeptFills(wrs[1..], if wrs[0].numSge > 0 then room - 1 else room);
    }
  }

  function Room(q: Qp): nat
    requires RingOk(q.ring)
  {
    |q.ring.slots| - q.ring.count
  }

  /** The same, one request after the other. */
  function Fitting(wrs: seq<RecvWr>, room: nat): seq<RecvWr>
    decreases |wrs|
  {
    if wrs == [] || room == 0 then []
    else if wrs[0].numSge > 0 then [wrs[0]] + Fitting(wrs[1..], room - 1)
    else Fitting(wrs[1..], room)
  }

  lemma {:induction false} FittingIsKept(wrs: seq<RecvWr>, room: nat)
    ensures Fitting(wrs, room) == Kept(wrs, room)
    decreases |wrs|
  {
    if wrs == [] || room == 0 {
      assert wrs[..0] == [];
    } else {
      KeepsFirst(wrs, room);
      FittingIsKept(wrs[1..], if wrs[0].numSge > 0 then room - 1 else room);
    }
  }

  lemma {:induction false} PostsFitting(q: Qp, wrs: seq<RecvWr>)
    requires RingOk(q.ring)
    ensures Post(q, wrs).posted == q.posted + Fitting(wrs, Room(q))
    decreases |wrs|
  {
    if wrs != [] && Room(q) > 0 {
      if wrs[0].numSge == 0 {
        PostsFitting(q, wrs[1..]);
      } else {
        PutAppends(q.ring, wrs[0]);
        PostsFitting(q.(ring := Put(q.ring, wrs[0]), posted := q.posted + [wrs[0]]), wrs[1..]);
      }
    }
  }

  lemma PostedInOrder(q: Qp, wrs: seq<RecvWr>)
    requires RingOk(q.ring)
    ensures Post(q, wrs).posted == q.posted + Kept(wrs, Room(q))
  {
    PostsFitting(q, wrs);
    FittingIsKept(wrs, Room(q));
  }

  lemma {:induction false} PostLeaves(q: Qp, wrs: seq<RecvWr>)
    requires RingOk(q.ring)
    ensures Post(q, wrs).ended == q.ended && |Post(q, wrs).ring.slots| == |q.ring.slots|
    decreases |wrs|
  {
    if wrs != [] && q.ring.count < |q.ring.slots| {
      if wrs[0].numSge == 0 {
        PostLeaves(q, wrs[1..]);
      } else {
        PutAppends(q.ring, wrs[0]);
        PostLeaves(q.(ring := Put(q.ring, wrs[0]), posted := q.posted + [wrs[0]]), wrs[1..]);
      }
    }
  }

  lemma SlotsStay(q: Qp, e: Event)
    requires RingOk(q.ring)
    ensures |Step(q, e).ring.slots| == |q.ring.slots|
    ensures !e.PostRecv? ==> Step(q, e).posted == q.posted
  {
    if e.PostRecv? {
      PostLeaves(q, e.wrs);
    }
  }

  /** The buffers a run has taken from its callers: of each list, in order, the non-empty
      requests of the longest part that fits the ring. */
  function Listed(evs: seq<Event>): seq<RecvWr> {
    if evs == [] then []
    else
      var before, e := evs[..|evs| - 1], evs[|evs| - 1];
      Listed(before) + if e.PostRecv? then Kept(e.wrs, Room(Run(before))) else []
  }

  lemma PostedSteps(q: Qp, e: Event)
    requires RingOk(q.ring)
    ensures Step(q, e).posted == q.posted + if e.PostRecv? then Kept(e.wrs, Room(q)) else []
  {
    if e.PostRecv? {
      PostedInOrder(q, e.wrs);
    } else {
      SlotsStay(q, e);
    }
  }

  lemma {:induction false} PostedIsListed(evs: seq<Event>)
    ensures Run(evs).posted == Listed(evs) && |Run(evs).ring.slots| == RQ_DEPTH
  {
    if evs != [] {
      var q, e := Run(evs[..|evs| - 1]), evs[|evs| - 1];
      PostedIsListed(evs[..|evs| - 1]);
      SlotsStay(q, e);
      PostedSteps(q, e);
    }
  }

  lemma EndedSteps(q: Qp, e: Event)
    requires Inv(q)
    ensures var next := |TakenBy(q.ended)|;
            Step(q, e).ended ==
            if !e.DrainReceives? || !q.drainer.Holding? then q.ended
            else if e.result.Fails? then q.ended + [OtherError]
            else if next >= |q.arrived| then q.ended
            else q.ended + [if e.result.CopyFails? then CopyError(q.arrived[next]) else Got(q.arrived[next])]
  {
    if e.PostRecv? {
      PostLeaves(q, e.wrs);
    }
  }

  /** How the run's receives ended, from the stream's answers alone: a failure uses up no
      message, a failed copy and a success use up the next one. */
  function Answers(evs: seq<Event>): seq<Outcome> {
    if evs == [] then []
    else
      var before, e := evs[..|evs| - 1], evs[|evs| - 1];
      var q, so := Run(before), Answers(before);
      var next := |TakenBy(so)|;
      if !e.DrainReceives? || !q.drainer.Holding? then so
      else if e.result.Fails? then so + [OtherError]
      else if next >= |q.arrived| then so
      else so + [if e.result.CopyFails? then CopyError(q.arrived[next]) else Got(q.arrived[next])]
  }

  lemma {:induction false} EndedIsAnswers(evs: seq<Event>)
    ensures Run(evs).ended == Answers(evs)
  {
    if evs != [] {
      var q, e := Run(evs[..|evs| - 1]), evs[|evs| - 1];
      EndedIsAnswers(evs[..|evs| - 1]);
      EndedSteps(q, e);
    }
  }

  /** Receive matching: in every run the i-th completion reports the i-th buffer of the
      callers' lists, once. Its message, if it used one up, is the next that no earlier
      receive had used up, and if it succeeded, the front of that message landed in its
      buffer, whatever other receives fail. */
  lemma ReceiveMatching(evs: seq<Event>, i: nat)
    requires i < |Run(evs).published|
    ensures var q := Run(evs);
            && |q.published| <= |q.ended| <= |q.published| + 1 && |q.ended| <= |q.posted|
            && q.posted == Listed(evs) && q.ended == Answers(evs)
            && q.published[i].wrId == q.posted[i].id && q.published[i].recv
            && (q.published[i].ok <==> q.ended[i].Got?)
            && (!q.published[i].ok ==> q.published[i].byteLen == 0)
    ensures var q := Run(evs); var n := |TakenBy(q.ended[..i])|;
            !q.ended[i].OtherError? ==> n < |q.arrived| && q.ended[i].m == q.arrived[n]
    ensures var q := Run(evs); var n := |TakenBy(q.ended[..i])|; var k := |Landings(q.posted, q.ended[..i])|;
            q.ended[i].Got? ==>
              var len := Min(q.posted[i].len, |q.arrived[n].data|);
              && k < |q.landings|
              && q.landings[k].buf == q.posted[i].buf && q.landings[k].bytes == q.arrived[n].data[..len]
              && q.published[i].srcQp == q.arrived[n].src && q.published[i].byteLen == len
  {
    var q := Run(evs);
    var cs := Completions(q.posted, q.ended);
    assert (q.published + Pending(q))[i] == cs[i];
    PostedIsListed(evs);
    EndedIsAnswers(evs);
    TakenAt(q.ended, i);
    LandedAt(q.posted, q.ended, i);
  }

  lemma {:induction false} AllGotCounts(posted: seq<RecvWr>, ended: seq<Outcome>)
    requires |ended| <= |posted| && forall i :: 0 <= i < |ended| ==> ended[i].Got?
    ensures |TakenBy(ended)| == |Landings(posted, ended)| == |ended|
  {
    if ended != [] {
      AllGotCounts(posted, ended[..|ended| - 1]);
    }
  }

  /** While no earlier receive has failed, the i-th completion is for the i-th message that
      arrived, and on success that message is the i-th to land. */
  lemma NoFailuresBefore(evs: seq<Event>, i: nat)
    requires i < |Run(evs).published| && !Run(evs).ended[i].OtherError?
    requires forall j :: 0 <= j < i ==> Run(evs).ended[j].Got?
    ensures var q := Run(evs);
            i < |q.arrived| && q.ended[i].m == q.arrived[i] && i < |Listed(evs)| && q.posted == Listed(evs)
    ensures var q := Run(evs);
            q.ended[i].Got? ==>
              i < |q.landings| && q.landings[i].buf == Listed(evs)[i].buf &&
              q.landings[i].bytes == q.arrived[i].data[..Min(Listed(evs)[i].len, |q.arrived[i].data|)]
  {
    var q := Run(evs);
    ReceiveMatching(evs, i);
    assert forall j :: 0 <= j < i ==> q.ended[..i][j].Got?;
    AllGotCounts(q.posted, q.ended[..i]);
  }

  /** No message is lost or taken twice: those the drainer took, followed by those still
      in the stream, are those that arrived, whatever receives fail. */
  lemma MessagesConserved(evs: seq<Event>)
    ensures var q := Run(evs);
            q.arrived == TakenBy(q.ended) + q.stream && Queue(q.ring) == q.posted[Retired(q)..]
  {
  }

  function After(q: Qp, e: Event): (q': Qp)
    requires Inv(q)
    ensures Inv(q')
  {
    StepKeepsInv(q, e);
    Step(q, e)
  }

  /** One turn of the drainer, or what is left of the turn it is in. */
  function Turn(q: Qp): (q': Qp)
    requires Inv(q)
    ensures Inv(q')
  {
    After(After(After(After(q, DrainPeeks), DrainReceives(Normal)), DrainConsumes), DrainPublishes)
  }

  lemma PeekedTurn(q: Qp)
    requires RingOk(q.ring) && q.drainer.Idle? && q.ring.count > 0 && q.stream != []
    ensures var q' := Step(q, DrainPeeks); q' == q.(drainer := q'.drainer) && q'.drainer.Holding?
  {
  }

  lemma ReceivedTurn(q: Qp)
    requires RingOk(q.ring)
    ensures var q' := Step(q, DrainReceives(Normal));
            && !q'.drainer.Holding? && q'.posted == q.posted && q'.arrived == q.arrived && q'.ring == q.ring
            && (q.drainer.Holding? && q.stream != [] ==> q'.drainer.Have?)
            && (!q.drainer.Holding? ==> q' == q)
  {
  }

  lemma FinishedTurn(q: Qp)
    requires Inv(q) && !q.drainer.Holding?
    ensures var q' := After(After(q, DrainConsumes), DrainPublishes);
            && q'.drainer.Idle? && q'.posted == q.posted && q'.arrived == q.arrived
            && q'.ring.count == q.ring.count - if q.drainer.Have? then 1 else 0
  {
    if q.drainer.Have? {
      assert |Queue(q.ring)| == |q.posted| - Retired(q) > 0;
      PopDropsFirst(q.ring);
    }
  }

  lemma TurnEnds(q: Qp)
    requires Inv(q)
    ensures var q' := Turn(q);
            && q'.drainer.Idle? && q'.posted == q.posted && q'.arrived == q.arrived
            && (q.drainer.Idle? && q.ring.count > 0 && q.stream != [] ==> q'.ring.count == q.ring.count - 1)
  {
    if q.drainer.Idle? && q.ring.count > 0 && q.stream != [] {
      PeekedTurn(q);
    }
    var p := After(q, DrainPeeks);
    ReceivedTurn(p);
    FinishedTurn(After(p, DrainReceives(Normal)));
  }

  /** Turn after turn until there is no message left or no buffer. */
  function Turns(q: Qp): (q': Qp)
    requires Inv(q) && q.drainer.Idle?
    ensures Inv(q')
    decreases q.ring.count
  {
    if q.ring.count == 0 || q.stream == [] then q
    else
      TurnEnds(q);
      Turns(Turn(q))
  }

  lemma {:induction false} TurnsEnd(q: Qp)
    requires Inv(q) && q.drainer.Idle?
    ensures var q' := Turns(q);
            && q'.drainer.Idle? && q'.posted == q.posted && q'.arrived == q.arrived
            && (q'.ring.count == 0 || q'.stream == [])
    decreases q.ring.count
  {
    if q.ring.count > 0 && q.stream != [] {
      TurnEnds(q);
      TurnsEnd(Turn(q));
    }
  }

  lemma NothingLeft(q: Qp)
    requires Inv(q) && q.drainer.Idle? && (q.ring.count == 0 || q.stream == [])
    ensures |q.published| == |q.ended|
    ensures |q.ended| == |q.posted| || |TakenBy(q.ended)| == |q.arrived|
  {
    assert |Queue(q.ring)| == |q.posted| - |q.ended|;
  }

  /** Nothing stands in the way of a message: from every reachable state the drainer can,
      by itself, go on until every message has been taken or every buffer used up, with each
      receive reported. */
  lemma EveryMessageCanLand(evs: seq<Event>)
    ensures Turn(Run(evs)).drainer.Idle?
    ensures var q := Run(evs); var q' := Turns(Turn(q));
            && q'.posted == q.posted && q'.arrived == q.arrived && |q'.published| == |q'.ended|
            && (|q'.ended| == |q.posted| || |TakenBy(q'.ended)| == |q.arrived|)
  {
    TurnEnds(Run(evs));
    TurnsEnd(Turn(Run(evs)));
    NothingLeft(Turns(Turn(Run(evs))));
  }

  /** A drain that finds nothing leaves no trace. */
  lemma BusyChangesNothing(q: Qp, result: RecvResult)
    requires RingOk(q.ring) && q.drainer.Idle? && q.ring.count > 0 && q.stream == [] && !result.Fails?
    ensures Step(Step(q, DrainPeeks), DrainReceives(result)) == q
  {
  }

  function DropOne(msgs: seq<Message>): seq<Message> {
    if msgs == [] then [] else msgs[1..]
  }

  /** How a receive ends that finds these messages waiting. */
  function Ended(msgs: seq<Message>, copied: bool): Outcome {
    if msgs == [] then OtherError else if copied then Got(msgs[0]) else CopyError(msgs[0])
  }

  function Offered(queue: seq<Wc>, depth: nat, wc: Wc): seq<Wc> {
    if |queue| < depth then queue + [wc] else queue
  }

  function OfferedAll(queue: seq<Wc>, depth: nat, wcs: seq<Wc>): seq<Wc> {
    if wcs == [] then queue
    else Offered(OfferedAll(queue, depth, wcs[..|wcs| - 1]), depth, wcs[|wcs| - 1])
  }

  /** With room for all of them nothing is dropped. */
  lemma {:induction false} RoomForAll(queue: seq<Wc>, depth: nat, wcs: seq<Wc>)
    requires |queue| <= depth
    ensures OfferedAll(queue, depth, wcs) == queue + wcs[..Min(|wcs|, depth - |queue|)]
  {
    if wcs == [] {
      assert queue + [] == queue;
    } else {
      var n := |wcs| - 1;
      RoomForAll(queue, depth, wcs[..n]);
      if n < depth - |queue| {
        assert wcs[..n] + [wcs[n]] == wcs && wcs[..n][..n] == wcs[..n] && wcs[..n + 1] == wcs;
      }
    }
  }

  /** The completions of the first `n` buffers when these messages are waiting. */
  function Reported(bufs: seq<RecvWr>, msgs: seq<Message>, copied: nat -> bool, n: nat): (r: seq<Wc>)
    requires n <= |bufs|
    ensures |r| == n
  {
    if n == 0 then []
    else
      Reported(bufs, msgs, copied, n - 1) +
      [Completion(bufs[n - 1], Ended(msgs[Min(n - 1, |msgs|)..], copied(n - 1)))]
  }

  /** Completion i names buffer i. It is a success exactly if there was a message i and it
      could be copied, and then tells the sender and how much of the message fitted. */
  lemma {:induction false} ReportedAt(bufs: seq<RecvWr>, msgs: seq<Message>, copied: nat -> bool, n: nat, i: nat)
    requires i < n <= |bufs|
    ensures var wc := Reported(bufs, msgs, copied, n)[i];
            && wc.wrId == bufs[i].id && wc.recv && (wc.ok <==> i < |msgs| && copied(i))
            && (wc.ok ==> wc.byteLen == Min(bufs[i].len, |msgs[i].data|) && wc.srcQp == msgs[i].src)
            && (!wc.ok ==> wc.byteLen == 0)
    decreases n
  {
    if i < n - 1 {
      ReportedAt(bufs, msgs, copied, n - 1, i);
    }
  }

  lemma ReportNext(bufs: seq<RecvWr>, msgs: seq<Message>, copied: nat -> bool, n: nat, before: seq<Wc>, depth: nat)
    requires n < |bufs|
    ensures OfferedAll(before, depth, Reported(bufs, msgs, copied, n + 1)) ==
            Offered(OfferedAll(before, depth, Reported(bufs, msgs, copied, n)), depth,
                    Completion(bufs[n..][0], Ended(msgs[Min(n, |msgs|)..], copied(n))))
    ensures bufs[n..][1..] == bufs[n + 1..]
    ensures DropOne(msgs[Min(n, |msgs|)..]) == msgs[Min(n + 1, |msgs|)..]
  {
    assert Reported(bufs, msgs, copied, n + 1)[..n] == Reported(bufs, msgs, copied, n);
  }

  lemma ConsideredNext(wrs: seq<RecvWr>, n: nat, room: nat, queue: seq<RecvWr>)
    requires n < |wrs| && room > 0
    ensures var w := wrs[n];
            && Considered(wrs[n..], room) == 1 + Considered(wrs[n + 1..], if w.numSge > 0 then room - 1 else room)
            && queue + NonEmpty(wrs[..n + 1]) == queue + NonEmpty(wrs[..n]) + if w.numSge > 0 then [w] else []
  {
    assert wrs[n..][1..] == wrs[n + 1..] && wrs[..n + 1][..n] == wrs[..n];
  }

  /** The receive ring of `struct odl_verbs_qp`. */
  class RecvRing {
    const slots: array<RecvWr>
    var head: nat
    var tail: nat
    var count: nat

    ghost function View(): Ring<RecvWr>
      reads this, slots
    {
      Ring(slots[..], head, tail, count)
    }

    ghost predicate Valid()
      reads this, slots
    {
      RingOk(View())
    }

    constructor ()
      ensures Valid() && fresh(slots) && Queue(View()) == [] && slots.Length == RQ_DEPTH
    {
      slots := new RecvWr[RQ_DEPTH](i => RecvWr(0, 0, 0, 0));
      head, tail, count := 0, 0, 0;
    }

    method PutOne(wr: RecvWr)
      requires Valid() && count < slots.Length
      modifies this`tail, this`count, slots
      ensures Valid() && Queue(View()) == old(Queue(View())) + [wr] && count == old(count) + 1
    {
      PutAppends(View(), wr);
      slots[tail] := wr;
      tail := if tail + 1 == slots.Length then 0 else tail + 1;
      count := count + 1;
    }

    method TakeOne()
      requires Valid() && count > 0
      modifies this`head, this`count
      ensures Valid() && Queue(View()) == old(Queue(View()))[1..]
    {
      PopDropsFirst(View());
      head := if head + 1 == slots.Length then 0 else head + 1;
      count := count - 1;
    }

    /** One request: a non-empty one goes to the tail, an empty one nowhere. */
    method PostOne(wr: RecvWr)
      requires Valid() && count < slots.Length
      modifies this`tail, this`count, slots
      ensures Valid() && Queue(View()) == old(Queue(View())) + if wr.numSge > 0 then [wr] else []
      ensures count == old(count) + if wr.numSge > 0 then 1 else 0
    {
      if wr.numSge > 0 {
        PutOne(wr);
      }
    }

    /** `odl_post_recv`: how many of the requests were accepted or skipped, and a ring
        that now ends with their non-empty ones. */
    method PostAll(wrs: seq<RecvWr>) returns (n: nat)
      requires Valid()
      modifies this`tail, this`count, slots
      ensures Valid() && n <= |wrs| && (n < |wrs| ==> count == slots.Length)
      ensures Queue(View()) == old(Queue(View())) + NonEmpty(wrs[..n])
      ensures n == Considered(wrs, slots.Length - old(count))
    {
      n := 0;
      ghost var queue, total := Queue(View()), Considered(wrs, slots.Length - count);
      assert wrs[..0] == [] && wrs[0..] == wrs && queue + [] == queue;
      while n < |wrs|
        invariant Valid() && n <= |wrs|
        invariant Queue(View()) == queue + NonEmpty(wrs[..n])
        invariant total == n + Considered(wrs[n..], slots.Length - count)
      {
        if count >= slots.Length {
          return;
        }
        ConsideredNext(wrs, n, slots.Length - count, queue);
        PostOne(wrs[n]);
        n := n + 1;
      }
    }

    /** One turn of the drain loop, whatever the stream answers and however full the
        completion queue is. */
    method DrainOne(s: RxStream, cq: Cq, dying: bool, copied: bool) returns (more: bool)
      requires Valid() && cq.Valid() && count > 0
      modifies this`head, this`count, s`queue, cq, cq.ring
      ensures Valid() && cq.Valid() && (more <==> old(s.queue) != [] || dying)
      ensures count == old(count) - if more then 1 else 0
      ensures !more ==> Queue(View()) == old(Queue(View())) && s.queue == []
      ensures !more ==> cq.Contents() == old(cq.Contents())
      ensures more ==> s.queue == DropOne(old(s.queue)) && Queue(View()) == old(Queue(View()))[1..]
      ensures more ==> cq.Contents() == Offered(old(cq.Contents()), cq.cqe,
                         Completion(old(Queue(View()))[0], Ended(old(s.queue), copied)))
    {
      PopDropsFirst(View());
      var wr := slots[head];
      var got := s.Recv(wr.len, dying, copied);
      if got.Nothing? {
        return false;
      }
      TakeOne();
      var wc := if got.Taken? then Wc(wr.id, true, true, |got.m.data|, got.m.src)
                else Wc(wr.id, false, true, 0, 0);
      var ok := cq.Post(wc);
      more := true;
    }

    /** After `n` turns of a drain that began with these buffers, messages and completions. */
    ghost predicate Drained(s: RxStream, cq: Cq, bufs: seq<RecvWr>, msgs: seq<Message>, before: seq<Wc>,
                            copied: nat -> bool, n: nat)
      reads this, slots, s, cq, cq.ring
    {
      && Valid() && cq.Valid() && n + count == |bufs|
      && s.queue == msgs[Min(n, |msgs|)..] && Queue(View()) == bufs[n..]
      && cq.Contents() == OfferedAll(before, cq.cqe, Reported(bufs, msgs, copied, n))
    }

    lemma DrainStarts(s: RxStream, cq: Cq, copied: nat -> bool)
      requires Valid() && cq.Valid()
      ensures Drained(s, cq, Queue(View()), s.queue, cq.Contents(), copied, 0)
    {
      assert Queue(View())[0..] == Queue(View()) && s.queue[0..] == s.queue;
    }

    method DrainNext(s: RxStream, cq: Cq, dying: bool, copied: nat -> bool, n: nat,
                     ghost bufs: seq<RecvWr>, ghost msgs: seq<Message>, ghost before: seq<Wc>)
      returns (more: bool)
      requires Drained(s, cq, bufs, msgs, before, copied, n) && count > 0
      modifies this`head, this`count, s`queue, cq, cq.ring
      ensures more <==> n < |msgs| || dying
      ensures Drained(s, cq, bufs, msgs, before, copied, if more then n + 1 else n)
      ensures count == old(count) - if more then 1 else 0
    {
      ReportNext(bufs, msgs, copied, n, before, cq.cqe);
      more := DrainOne(s, cq, dying, copied(n));
    }

    /** The drain loop from its turn `at` on: one turn, then the rest. */
    method DrainFrom(s: RxStream, cq: Cq, dying: bool, copied: nat -> bool, at: nat,
                     ghost bufs: seq<RecvWr>, ghost msgs: seq<Message>, ghost before: seq<Wc>)
      returns (n: nat)
      requires Drained(s, cq, bufs, msgs, before, copied, at) && (at <= |msgs| || dying)
      modifies this`head, this`count, s`queue, cq, cq.ring
      ensures n == if dying then |bufs| else Min(|bufs|, |msgs|)
      ensures Drained(s, cq, bufs, msgs, before, copied, n)
      decreases count
    {
      if count == 0 {
        return at;
      }
      var more := DrainNext(s, cq, dying, copied, at, bufs, msgs, before);
      if !more {
        return at;
      }
      n := DrainFrom(s, cq, dying, copied, at + 1, bufs, msgs, before);
    }

    /** `odl_rq_drain`: one completion for each buffer that a message, a failed copy or the
        stream's teardown uses up, in order, as far as the completion queue has room; the
        rest stays where it was. */
    method Drain(s: RxStream, cq: Cq, dying: bool, copied: nat -> bool) returns (n: nat)
      requires Valid() && cq.Valid()
      modifies this`head, this`count, s`queue, cq, cq.ring
      ensures n == if dying then old(count) else Min(old(count), |old(s.queue)|)
      ensures Drained(s, cq, old(Queue(View())), old(s.queue), old(cq.Contents()), copied, n)
    {
      DrainStarts(s, cq, copied);
      n := DrainFrom(s, cq, dying, copied, 0, Queue(View()), s.queue, cq.Contents());
    }
  }
}
