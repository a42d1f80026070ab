/**
 * The bounded queue that carries parsed records from the reader to one
 * worker: a circular buffer of `QUEUE_CAPACITY` slots with a head, a tail, a
 * count and a flag that the producers have finished.
 *
 * The mutex and the two condition variables are not modelled. A blocking
 * `while` wait becomes a precondition: the call is made once the condition
 * the wait loop waits for holds.
 */
module ShardQueue {
  import opened Wrappers

  /** `QUEUE_CAPACITY`. */
  const Capacity: nat := 2048

  /** Slot `i` places after `head`, wrapping around the buffer. */
  function Slot(head: nat, i: nat): (s: nat)
    ensures s < Capacity
    ensures head + i < Capacity ==> s == head + i
    ensures Capacity <= head + i < 2 * Capacity ==> s == head + i - Capacity
  {
    (head + i) % Capacity
  }

  /** Advancing the head by one and then counting i slots is counting i + 1 slots. */
  lemma SlotAdvance(head: nat, i: nat)
    requires head < Capacity && i < Capacity
    ensures Slot(Slot(head, 1), i) == Slot(head, i + 1)
  {
  }

  /** Fewer than `Capacity` consecutive slots after a head are pairwise distinct. */
  lemma SlotsDistinct(head: nat, i: nat, j: nat)
    requires head < Capacity && i < j < Capacity
    ensures Slot(head, i) != Slot(head, j)
  {
  }

  class Queue<T(0)> {
    var buffer: array<T>
    var head: nat
    var tail: nat
    var count: nat
    var producersFinished: bool
    /** The queued items, oldest first. */
    ghost var Contents: seq<T>

    ghost predicate Valid()
      reads this, buffer
    {
      buffer.Length == Capacity &&
      head < Capacity && tail < Capacity && count <= Capacity &&
      tail == Slot(head, count) &&
      |Contents| == count &&
      forall i :: 0 <= i < count ==> Contents[i] == buffer[Slot(head, i)]
    }

    /** `queue_init`: an empty queue whose producers have not finished. */
    constructor ()
      ensures Valid() && fresh(buffer)
      ensures Contents == [] && !producersFinished
      ensures head == 0 && tail == 0 && count == 0
    {
      buffer := new T[Capacity];
      head, tail, count := 0, 0, 0;
      producersFinished := false;
      Contents := [];
    }

    /**
     * `queue_push`: the record goes into the tail slot and the tail advances.
     * The producer waits while the queue is full, so the call happens with a
     * free slot.
     */
    method Push(x: T)
      requires Valid() && count < Capacity
      modifies this, buffer
      ensures Valid() && buffer == old(buffer)
      ensures Contents == old(Contents) + [x]
      ensures buffer[old(tail)] == x
      ensures forall j :: 0 <= j < Capacity && j != old(tail) ==> buffer[j] == old(buffer[j])
      ensures head == old(head) && tail == Slot(old(tail), 1) && count == old(count) + 1
      ensures producersFinished == old(producersFinished)
    {
      buffer[tail] := x;
      forall i | 0 <= i < count
        ensures buffer[Slot(head, i)] == old(buffer[Slot(head, i)])
      {
        SlotsDistinct(head, i, count);
      }
      tail := Slot(tail, 1);
      SlotAdvance(head, count);
      count := count + 1;
      Contents := Contents + [x];
    }

    /**
     * `queue_pop`: the oldest record when there is one. The consumer waits
     * while the queue is empty and the producers are still running, so the
     * call happens once one of the two has changed; `None` (the source's
     * NULL) then means empty and finished.
     */
    method Pop() returns (r: Option<T>)
      requires Valid() && (count > 0 || producersFinished)
      modifies this
      ensures Valid() && buffer == old(buffer)
      ensures old(count) > 0 ==> r == Some(old(buffer[head])) && r == Some(old(Contents)[0])
      ensures old(count) > 0 ==> Contents == old(Contents)[1..]
      ensures old(count) > 0 ==> head == Slot(old(head), 1) && count == old(count) - 1
      ensures old(count) == 0 ==> r == None && Contents == old(Contents)
      ensures old(count) == 0 ==> head == old(head) && count == old(count)
      ensures tail == old(tail) && buffer[..] == old(buffer[..])
      ensures r.None? <==> old(count) == 0
      ensures producersFinished == old(producersFinished)
    {
      r := None;
      if count > 0 {
        r := Some(buffer[head]);
        assert buffer[head] == Contents[0] by {
          assert Slot(head, 0) == head;
        }
        forall i | 0 <= i < count - 1
          ensures Contents[i + 1] == buffer[Slot(Slot(head, 1), i)]
        {
          SlotAdvance(head, i);
        }
        head := Slot(head, 1);
        count := count - 1;
        Contents := Contents[1..];
      }
    }

    /**
     * `queue_signal_producers_finished`: raises the flag and touches nothing
     * else, so signalling twice is signalling once.
     */
    method SignalProducersFinished()
      requires Valid()
      modifies this`producersFinished
      ensures Valid() && producersFinished
      ensures Contents == old(Contents)
    {
      producersFinished := true;
    }

    /**
     * `queue_destroy`: visits the live slots `(head + i) % QUEUE_CAPACITY` for
     * `i < count`, releasing each. The released items come back, in the order
     * visited; they are exactly the queued ones, oldest first.
     */
    method Destroy() returns (freed: seq<T>)
      requires Valid()
      ensures freed == Contents
    {
      freed := [];
      var i := 0;
      while i < count
        invariant 0 <= i <= count
        invariant freed == Contents[..i]
      {
        freed := freed + [buffer[Slot(head, i)]];
        i := i + 1;
      }
    }
  }
}
