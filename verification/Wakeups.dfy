/** The eventfd of a completion queue: posts to an armed queue write it, and a poll that
    has emptied the ring reads it after releasing the lock. */
module Wakeups {
  import opened Base

  /** Completions waiting, whether the queue is armed, the eventfd's counter, and the polls
      that have emptied the ring and not yet read the eventfd. Each is recorded by the
      number of steps of the run up to the release of its lock. */
  datatype Bell = Bell(waiting: nat, armed: bool, events: nat, readers: seq<nat>)

  datatype Event = Post | Arm | Poll(n: nat) | Read(i: nat)

  predicate RingsBell(b: Bell, cap: nat, e: Event) {
    e.Post? && b.armed && b.waiting < cap
  }

  predicate Empties(b: Bell, e: Event) {
    e.Poll? && 0 < b.waiting <= e.n
  }

  /** One step, after which the run has `now` of them. */
  function Step(b: Bell, cap: nat, e: Event, now: nat): Bell {
    match e
    case Post =>
      if b.waiting >= cap then b
      else b.(waiting := b.waiting + 1, armed := false, events := b.events + if b.armed then 1 else 0)
    case Arm => b.(armed := true)
    case Poll(n) =>
      b.(waiting := b.waiting - Min(n, b.waiting), readers := b.readers + if Empties(b, e) then [now] else [])
    case Read(i) =>
      if i >= |b.readers| then b else b.(events := 0, readers := b.readers[..i] + b.readers[i + 1..])
  }

  function Run(cap: nat, evs: seq<Event>): Bell {
    if evs == [] then Bell(0, false, 0, [])
    else Step(Run(cap, evs[..|evs| - 1]), cap, evs[|evs| - 1], |evs|)
  }

  /** The armed posts since the eventfd was last read. */
  function Rung(cap: nat, evs: seq<Event>): nat {
    if evs == [] then 0
    else
      var b, e := Run(cap, evs[..|evs| - 1]), evs[|evs| - 1];
      if e.Read? && e.i < |b.readers| then 0
      else Rung(cap, evs[..|evs| - 1]) + if RingsBell(b, cap, e) then 1 else 0
  }

  /** No more completions wait than the queue has room for, and the eventfd counts the armed
      posts since it was last read. */
  lemma {:induction false} BellIsExact(cap: nat, evs: seq<Event>)
    ensures Run(cap, evs).waiting <= cap && Run(cap, evs).events == Rung(cap, evs)
  {
    if evs != [] {
      BellIsExact(cap, evs[..|evs| - 1]);
    }
  }

  /** A poll goes on to read the eventfd exactly if it has taken the last completion. */
  lemma ReadsIfEmptied(cap: nat, evs: seq<Event>, n: nat)
    ensures var b, b' := Run(cap, evs), Run(cap, evs + [Poll(n)]);
            && b'.waiting == (if n < b.waiting then b.waiting - n else 0)
            && b'.readers == b.readers + if b.waiting > 0 && b'.waiting == 0 then [|evs| + 1] else []
  {
    assert (evs + [Poll(n)])[..|evs|] == evs;
  }

  /** An armed post at step `k` or later. */
  predicate ArmedPostSince(cap: nat, evs: seq<Event>, k: nat) {
    |evs| > k &&
    (RingsBell(Run(cap, evs[..|evs| - 1]), cap, evs[|evs| - 1]) || ArmedPostSince(cap, evs[..|evs| - 1], k))
  }

  /** The number of steps up to the last poll that emptied the ring. */
  function Emptied(cap: nat, evs: seq<Event>): (k: nat)
    ensures k <= |evs|
  {
    if evs == [] then 0
    else if Empties(Run(cap, evs[..|evs| - 1]), evs[|evs| - 1]) then |evs|
    else Emptied(cap, evs[..|evs| - 1])
  }

  /** A completion that was to wake the caller is waiting, and the eventfd does not show it. */
  predicate Missed(cap: nat, evs: seq<Event>) {
    Run(cap, evs).events == 0 && ArmedPostSince(cap, evs, Emptied(cap, evs))
  }

  /** A completion whose post rang since the ring was last emptied is still there. */
  lemma {:induction false} MissedIsWaiting(cap: nat, evs: seq<Event>)
    ensures ArmedPostSince(cap, evs, Emptied(cap, evs)) ==> Run(cap, evs).waiting > 0
  {
    if evs != [] {
      MissedIsWaiting(cap, evs[..|evs| - 1]);
    }
  }

  /** No poll that is about to read released its lock after the ring was last emptied. */
  lemma {:induction false} ReadersAreEarlier(cap: nat, evs: seq<Event>, i: nat)
    requires i < |Run(cap, evs).readers|
    ensures Run(cap, evs).readers[i] <= Emptied(cap, evs)
  {
    var b := Run(cap, evs[..|evs| - 1]);
    match evs[|evs| - 1]
    case Read(j) =>
      if j < |b.readers| {
        ReadersAreEarlier(cap, evs[..|evs| - 1], if i < j then i else i + 1);
      } else {
        ReadersAreEarlier(cap, evs[..|evs| - 1], i);
      }
    case Poll(n) =>
      if i < |b.readers| {
        ReadersAreEarlier(cap, evs[..|evs| - 1], i);
      }
    case _ => ReadersAreEarlier(cap, evs[..|evs| - 1], i);
  }

  /** Wake-ups are lost by reads alone. */
  lemma OnlyReadsLose(cap: nat, evs: seq<Event>)
    requires evs != [] && Missed(cap, evs) && !Missed(cap, evs[..|evs| - 1])
    ensures evs[|evs| - 1].Read? && evs[|evs| - 1].i < |Run(cap, evs[..|evs| - 1]).readers|
  {
  }

  /** A read leaves a wake-up missed if and only if an armed post came since the ring was
      last emptied, and that is after the reading poll released its lock. */
  lemma ReadLosesIff(cap: nat, evs: seq<Event>, i: nat)
    requires i < |Run(cap, evs).readers|
    ensures Missed(cap, evs + [Read(i)]) <==> ArmedPostSince(cap, evs, Emptied(cap, evs))
    ensures Run(cap, evs).readers[i] <= Emptied(cap, evs)
  {
    ReadersAreEarlier(cap, evs, i);
    assert (evs + [Read(i)])[..|evs|] == evs;
  }

  /** No poll runs while another is about to read. */
  predicate OnePoller(cap: nat, evs: seq<Event>) {
    evs == [] ||
    (OnePoller(cap, evs[..|evs| - 1]) && (evs[|evs| - 1].Poll? ==> Run(cap, evs[..|evs| - 1]).readers == []))
  }

  lemma {:induction false} OneReader(cap: nat, evs: seq<Event>)
    requires OnePoller(cap, evs)
    ensures var rs := Run(cap, evs).readers; rs == [] || rs == [Emptied(cap, evs)]
  {
    if evs != [] {
      OneReader(cap, evs[..|evs| - 1]);
    }
  }

  /** With one poller: its read loses a wake-up if and only if an armed post falls between
      the release of its lock and the read. */
  lemma LonePollerLosesIff(cap: nat, evs: seq<Event>)
    requires OnePoller(cap, evs) && Run(cap, evs).readers != []
    ensures Missed(cap, evs + [Read(0)]) <==> ArmedPostSince(cap, evs, Run(cap, evs).readers[0])
  {
    OneReader(cap, evs);
    ReadLosesIff(cap, evs, 0);
  }

  /** A read at once after the release loses nothing. */
  lemma PromptReadIsSafe(cap: nat, evs: seq<Event>, n: nat)
    requires Empties(Run(cap, evs), Poll(n))
    ensures var polled := evs + [Poll(n)];
            !Missed(cap, polled + [Read(|Run(cap, polled).readers| - 1)])
  {
    var polled := evs + [Poll(n)];
    assert polled[..|evs|] == evs;
    ReadLosesIff(cap, polled, |Run(cap, polled).readers| - 1);
    assert Emptied(cap, polled) == |polled|;
  }

  /** The loss is real: one completion waits, and nothing is left to wake its caller. */
  lemma WakeupLost(cap: nat)
    requires cap > 0
    ensures var evs := [Post, Arm, Poll(1), Post, Read(0)];
            Missed(cap, evs) && Run(cap, evs) == Bell(1, false, 0, [])
  {
    var e1, e2, e3, e4 := [Post], [Post, Arm], [Post, Arm, Poll(1)], [Post, Arm, Poll(1), Post];
    assert e1[..0] == [] && Run(cap, e1) == Bell(1, false, 0, []);
    assert e2[..1] == e1 && Run(cap, e2) == Bell(1, true, 0, []);
    assert e3[..2] == e2 && Run(cap, e3) == Bell(0, true, 0, [3]) && Emptied(cap, e3) == 3;
    assert e4[..3] == e3 && Run(cap, e4) == Bell(1, false, 1, [3]);
    assert ArmedPostSince(cap, e4, 3) && Emptied(cap, e4) == 3;
    ReadLosesIff(cap, e4, 0);
    assert e4 + [Read(0)] == [Post, Arm, Poll(1), Post, Read(0)];
    assert (e4 + [Read(0)])[..4] == e4;
  }
}
