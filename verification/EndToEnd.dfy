/** The layers joined: from the buffers a caller posts for sending to the buffers another
    caller has posted for receiving, over a link that loses nothing. */
module EndToEnd {
  import opened Base
  import CompletionQueue
  import Wire
  import Assembly
  import SendQueue
  import RecvQueue

  /** Every message on the wire is host bytes of a length the stream takes. */
  predicate HostOnly(wire: seq<SendQueue.OnWire>) {
    forall i :: 0 <= i < |wire| ==> wire[i].bytes.Some? && Wire.LegalLength(|wire[i].bytes.value|)
  }

  /** The frames of all messages, in order and all of them. */
  function Frames(src: Byte, dst: Byte, wire: seq<SendQueue.OnWire>): seq<Wire.Frame>
    requires HostOnly(wire)
  {
    if wire == [] then []
    else
      var n := |wire| - 1;
      Frames(src, dst, wire[..n]) + Wire.Fragments(src, dst, wire[n].bytes.value)
  }

  function Messages(src: Byte, wire: seq<SendQueue.OnWire>): seq<Assembly.Message>
    requires HostOnly(wire)
  {
    seq(|wire|, i requires 0 <= i < |wire| => Assembly.Message(src, wire[i].bytes.value))
  }

  lemma {:induction false} LosslessLink(a: Assembly.Asm, src: Byte, dst: Byte, wire: seq<SendQueue.OnWire>)
    requires HostOnly(wire)
    ensures Assembly.Feed(a, Frames(src, dst, wire)).1 == Messages(src, wire)
  {
    if wire != [] {
      var n := |wire| - 1;
      assert Messages(src, wire) == Messages(src, wire[..n]) + [Assembly.Message(src, wire[n].bytes.value)];
      LosslessLink(a, src, dst, wire[..n]);
      var before, last := Frames(src, dst, wire[..n]), Wire.Fragments(src, dst, wire[n].bytes.value);
      Assembly.FeedConcat(a, before, last);
      Assembly.WholeIsDelivered(Assembly.Feed(a, before).0, src, dst, wire[n].bytes.value);
    }
  }

  /** The send side's run and the receive side's run, joined by a lossless link: what has
      arrived is what reassembly has delivered of the frames sent, or the first part of it. */
  predicate Joined(q: SendQueue.Qp, r: RecvQueue.Qp, a: Assembly.Asm, src: Byte, dst: Byte) {
    HostOnly(q.wire) && r.arrived <= Assembly.Feed(a, Frames(src, dst, q.wire)).1
  }

  /** Find the request whose message was the i-th. */
  lemma {:induction false} NthSent(log: seq<SendQueue.Entry>, oks: seq<bool>, m: nat, i: nat) returns (j: nat)
    requires m <= |oks| <= |log| && i < SendQueue.SentBefore(log, oks, m)
    ensures j < m && oks[j] && log[j].wr.numSge > 0 && SendQueue.SentBefore(log, oks, j) == i
    decreases m
  {
    if SendQueue.SentBefore(log, oks, m - 1) == i {
      j := m - 1;
    } else {
      j := NthSent(log, oks, m - 1, i);
    }
  }

  lemma MessageOf(c: SendQueue.Config, depth: nat, mem: SendQueue.Memory, sends: seq<SendQueue.Event>, i: nat)
    returns (j: nat)
    requires depth > 0 && !c.direct && i < |SendQueue.Run(c, depth, mem, sends).wire|
    ensures var q := SendQueue.Run(c, depth, mem, sends);
            var log, oks := SendQueue.Log(c, depth, mem, sends), SendQueue.Outcomes(c, depth, mem, sends);
            && j < |oks| <= |log| == |q.accepted| && oks[j] && log[j].wr.numSge > 0
            && SendQueue.SentBefore(log, oks, j) == i && q.accepted[j].wr == log[j].wr
            && SendQueue.Delivers(q.wire[i], q.accepted[j], log[j].mem)
  {
    SendQueue.PayloadSnapshot(c, depth, mem, sends);
    var oks := SendQueue.Outcomes(c, depth, mem, sends);
    j := NthSent(SendQueue.Log(c, depth, mem, sends), oks, |oks|, i);
  }

  /** The i-th receive completion is a success for the i-th message on the wire. */
  lemma MessageLands(q: SendQueue.Qp, recvs: seq<RecvQueue.Event>, a: Assembly.Asm, src: Byte, dst: Byte, i: nat)
    requires Joined(q, RecvQueue.Run(recvs), a, src, dst) && i < |RecvQueue.Run(recvs).published|
    requires forall j :: 0 <= j <= i ==> RecvQueue.Run(recvs).ended[j].Got?
    ensures var r, to := RecvQueue.Run(recvs), RecvQueue.Listed(recvs);
            && i < |q.wire| && i < |to| && i < |r.landings| && r.landings[i].buf == to[i].buf
            && var bytes := q.wire[i].bytes.value;
            && r.landings[i].bytes == bytes[..Min(to[i].len, |bytes|)]
            && r.published[i] == CompletionQueue.Wc(to[i].id, true, true, Min(to[i].len, |bytes|), src)
  {
    var r := RecvQueue.Run(recvs);
    LosslessLink(a, src, dst, q.wire);
    RecvQueue.ReceiveMatching(recvs, i);
    RecvQueue.NoFailuresBefore(recvs, i);
    assert r.arrived[i] == Messages(src, q.wire)[i];
  }

  /** `bytes` are the first that `wr` names in `mem`, as many as fit in `room`. */
  predicate FrontOf(bytes: seq<Byte>, room: nat, wr: SendQueue.Wr, mem: SendQueue.Memory) {
    wr.buf in mem && wr.len <= |mem[wr.buf]| ==>
      |bytes| == Min(room, wr.len) && forall k :: 0 <= k < |bytes| ==> bytes[k] == mem[wr.buf][k]
  }

  /** End to end: with direct sending off, over a link that loses nothing, and while no
      receive fails, take the i-th request `j` that was sent. The bytes its memory held
      when it was posted land, cut to size, in the i-th buffer listed for receiving,
      whatever either caller does meanwhile; and the receive completion names that buffer's
      request, the sender and the length. */
  lemma BytesArrive(c: SendQueue.Config, depth: nat, mem: SendQueue.Memory, sends: seq<SendQueue.Event>,
                    recvs: seq<RecvQueue.Event>, a: Assembly.Asm, src: Byte, dst: Byte, i: nat) returns (j: nat)
    requires depth > 0 && !c.direct
    requires Joined(SendQueue.Run(c, depth, mem, sends), RecvQueue.Run(recvs), a, src, dst)
    requires i < |RecvQueue.Run(recvs).published|
    requires forall j :: 0 <= j <= i ==> RecvQueue.Run(recvs).ended[j].Got?
    ensures var log, oks := SendQueue.Log(c, depth, mem, sends), SendQueue.Outcomes(c, depth, mem, sends);
            && j < |oks| <= |log| && oks[j] && log[j].wr.numSge > 0 && !log[j].wr.dmabuf
            && SendQueue.SentBefore(log, oks, j) == i
    ensures var sent, r := SendQueue.Log(c, depth, mem, sends)[j], RecvQueue.Run(recvs);
            var to := RecvQueue.Listed(recvs);
            && i < |to| && i < |r.landings| && r.landings[i].buf == to[i].buf
            && FrontOf(r.landings[i].bytes, to[i].len, sent.wr, sent.mem)
            && r.published[i] == CompletionQueue.Wc(to[i].id, true, true, |r.landings[i].bytes|, src)
    ensures var q, r := SendQueue.Run(c, depth, mem, sends), RecvQueue.Run(recvs);
            && j < |q.accepted| && |r.landings[i].bytes| <= |q.accepted[j].bytes|
            && r.landings[i].bytes == q.accepted[j].bytes[..|r.landings[i].bytes|]
  {
    var q := SendQueue.Run(c, depth, mem, sends);
    MessageLands(q, recvs, a, src, dst, i);
    j := MessageOf(c, depth, mem, sends, i);
  }
}
