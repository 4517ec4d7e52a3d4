/** A circular array with head, tail and count, as the send and receive queues of a
    queue pair use it. */
module Circular {
  datatype Ring<T> = Ring(slots: seq<T>, head: nat, tail: nat, count: nat)

  function Wrap<T>(r: Ring<T>, i: nat): nat {
    if i < |r.slots| then i else i - |r.slots|
  }

  predicate RingOk<T>(r: Ring<T>) {
    r.head < |r.slots| && r.count <= |r.slots| && r.tail == Wrap(r, r.head + r.count)
  }

  /** The occupied slots, oldest first. */
  function Queue<T>(r: Ring<T>): seq<T>
    requires RingOk(r)
  {
    seq(r.count, i requires 0 <= i < r.count => r.slots[Wrap(r, r.head + i)])
  }

  function Put<T>(r: Ring<T>, x: T): Ring<T>
    requires RingOk(r) && r.count < |r.slots|
  {
    Ring(r.slots[r.tail := x], r.head, Wrap(r, r.tail + 1), r.count + 1)
  }

  function Pop<T>(r: Ring<T>): Ring<T>
    requires RingOk(r) && r.count > 0
  {
    Ring(r.slots, Wrap(r, r.head + 1), r.tail, r.count - 1)
  }

  /** Writing at the tail appends and leaves every occupied slot alone. */
  lemma PutAppends<T>(r: Ring<T>, x: T)
    requires RingOk(r) && r.count < |r.slots|
    ensures RingOk(Put(r, x)) && Queue(Put(r, x)) == Queue(r) + [x]
    ensures r.count > 0 ==> Put(r, x).slots[r.head] == r.slots[r.head]
  {
    var r' := Put(r, x);
    forall i | 0 <= i < r'.count ensures Queue(r')[i] == (Queue(r) + [x])[i] {
      if i < r.count {
        assert Wrap(r, r.head + i) != r.tail;
      }
    }
    if r.count > 0 {
      assert Wrap(r, r.head + 0) != r.tail;
    }
  }

  /** Advancing the head drops the oldest. */
  lemma PopDropsFirst<T>(r: Ring<T>)
    requires RingOk(r) && r.count > 0
    ensures RingOk(Pop(r)) && Queue(r)[0] == r.slots[r.head] && Queue(Pop(r)) == Queue(r)[1..]
  {
    assert Queue(r)[0] == r.slots[Wrap(r, r.head + 0)];
    forall i | 0 <= i < r.count - 1 ensures Queue(Pop(r))[i] == Queue(r)[1..][i] {
      assert Queue(r)[i + 1] == r.slots[Wrap(r, r.head + (i + 1))];
      assert Queue(Pop(r))[i] == r.slots[Wrap(r, Pop(r).head + i)];
      assert Wrap(r, Pop(r).head + i) == Wrap(r, r.head + (i + 1));
    }
  }
}
