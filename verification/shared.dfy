/**
 * The collection the workers publish their devices into and the writer
 * reads: `allDevicesData`, its count and its capacity. The count is the
 * length of `data`.
 */
module SharedData {
  import opened Aggregates

  /** The initial `allDevicesCapacity`. */
  const InitialCapacity: nat := 16

  /**
   * The capacity after appending n more devices to a collection of `count`
   * devices with capacity `cap`: before each append, a full collection
   * doubles its capacity.
   */
  function CapacityAfter(cap: nat, count: nat, n: nat): nat
    decreases n
  {
    if n == 0 then cap
    else CapacityAfter(if count >= cap then cap * 2 else cap, count + 1, n - 1)
  }

  /** Doubling before each append keeps a positive capacity ahead of the count. */
  lemma {:induction false} CapacityAfterCovers(cap: nat, count: nat, n: nat)
    requires 0 < cap && count <= cap
    ensures count + n <= CapacityAfter(cap, count, n)
    ensures cap <= CapacityAfter(cap, count, n)
    decreases n
  {
    if n > 0 {
      CapacityAfterCovers(if count >= cap then cap * 2 else cap, count + 1, n - 1);
    }
  }

  /** Doubling a zero capacity leaves it zero, so a reset collection never grows. */
  lemma {:induction false} CapacityAfterZero(count: nat, n: nat)
    ensures CapacityAfter(0, count, n) == 0
    decreases n
  {
    if n > 0 {
      CapacityAfterZero(count + 1, n - 1);
    }
  }

  class DeviceCollection {
    var data: seq<DeviceAggregates>
    var capacity: nat

    /**
     * Room for every published device. The writer's cleanup leaves the
     * collection empty with capacity 0, after which nothing is published.
     */
    predicate Valid()
      reads this
    {
      |data| <= capacity
    }

    /** The collection as the program starts with it: empty, capacity 16. */
    constructor ()
      ensures Valid() && data == [] && capacity == InitialCapacity
    {
      data := [];
      capacity := InitialCapacity;
    }

    /**
     * One step of a worker's publication: the device is appended, after the
     * capacity doubles if the collection is full.
     */
    method Append(d: DeviceAggregates)
      requires Valid() && capacity > 0
      modifies this
      ensures Valid() && capacity > 0
      ensures data == old(data) + [d]
      ensures capacity == CapacityAfter(old(capacity), |old(data)|, 1)
    {
      if |data| >= capacity {
        capacity := capacity * 2;
      }
      data := data + [d];
    }
  }
}
