/**
 * A worker thread: it drains its shard queue, folding every observation
 * into a two-level table (devices, then months, then six sensor cells), and
 * finally publishes its devices into the shared collection.
 *
 * The table is the worker's list `myDevices` with its capacity. Each device
 * and month is a value in that list; the method that records an observation
 * replaces the entries it changes.
 */
module WorkerThread {
  import opened Wrappers
  import opened CStrings
  import opened Aggregates
  import ShardQueue
  import SharedData

  /** The initial `myDevicesCapacity`. */
  const InitialDevicesCapacity: nat := 16

  /** The first position of a device with this id, if any. */
  function IndexOfDevice(devs: seq<DeviceAggregates>, id: string): (r: Option<nat>)
    ensures r.Some? ==> r.value < |devs| && devs[r.value].deviceId == id
    ensures r.Some? ==> forall j :: 0 <= j < r.value ==> devs[j].deviceId != id
    ensures r.None? ==> forall j :: 0 <= j < |devs| ==> devs[j].deviceId != id
  {
    if devs == [] then None
    else if devs[0].deviceId == id then Some(0)
    else match IndexOfDevice(devs[1..], id)
      case None => None
      case Some(i) => Some(i + 1)
  }

  /** The first position of a month with this period, if any. */
  function IndexOfMonth(months: seq<MonthAggregates>, anoMes: string): (r: Option<nat>)
    ensures r.Some? ==> r.value < |months| && months[r.value].anoMes == anoMes
    ensures r.Some? ==> forall j :: 0 <= j < r.value ==> months[j].anoMes != anoMes
    ensures r.None? ==> forall j :: 0 <= j < |months| ==> months[j].anoMes != anoMes
  {
    if months == [] then None
    else if months[0].anoMes == anoMes then Some(0)
    else match IndexOfMonth(months[1..], anoMes)
      case None => None
      case Some(i) => Some(i + 1)
  }

  /** A device entry as it is created: the id, no months, no capacity. */
  function NewDevice(id: string): DeviceAggregates {
    DeviceAggregates(id, [], 0)
  }

  /** A month as it is created: the period and six freshly initialised sensors. */
  function NewMonth(anoMes: string): MonthAggregates {
    MonthAggregates(anoMes, FreshSensors())
  }

  /** The month capacity after growth: 8 the first time, then doubling. */
  function GrowMonthly(cap: nat): (c: nat)
    ensures c > cap
  {
    if cap == 0 then 8 else cap * 2
  }

  /** The observation applied to its sensor cell of a month. */
  function RecordInMonth(m: MonthAggregates, o: ParsedData): MonthAggregates {
    m.(sensorData := m.sensorData[o.sensor := Observe(m.sensorData[o.sensor], o.value)])
  }

  /** The observation applied to a device: to its month, created at the end when absent. */
  function RecordInDevice(d: DeviceAggregates, o: ParsedData): DeviceAggregates {
    match IndexOfMonth(d.months, o.anoMes)
    case Some(j) => d.(months := d.months[j := RecordInMonth(d.months[j], o)])
    case None =>
      var cap := if |d.months| >= d.monthlyCapacity then GrowMonthly(d.monthlyCapacity) else d.monthlyCapacity;
      d.(months := d.months + [RecordInMonth(NewMonth(o.anoMes), o)], monthlyCapacity := cap)
  }

  /** The observation applied to the device list: to its device, created at the end when absent. */
  function RecordInDevices(devs: seq<DeviceAggregates>, o: ParsedData): seq<DeviceAggregates> {
    match IndexOfDevice(devs, o.deviceId)
    case Some(i) => devs[i := RecordInDevice(devs[i], o)]
    case None => devs + [RecordInDevice(NewDevice(o.deviceId), o)]
  }

  /** The device list after the observations `obs`, in order. */
  function RecordAll(devs: seq<DeviceAggregates>, obs: seq<ParsedData>): seq<DeviceAggregates> {
    if obs == [] then devs else RecordInDevices(RecordAll(devs, obs[..|obs| - 1]), obs[|obs| - 1])
  }

  /** The statistics the table holds for one (device, period, sensor) cell; absent cells are fresh. */
  function CellOf(devs: seq<DeviceAggregates>, id: string, anoMes: string, k: SensorIndex): SensorStats {
    match IndexOfDevice(devs, id)
    case None => InitSensorStats()
    case Some(i) =>
      match IndexOfMonth(devs[i].months, anoMes)
      case None => InitSensorStats()
      case Some(j) => devs[i].months[j].sensorData[k]
  }

  /** The values of the observations addressed to one cell, in order. */
  function ValuesFor(obs: seq<ParsedData>, id: string, anoMes: string, k: SensorIndex): seq<real> {
    if obs == [] then []
    else
      var o := obs[|obs| - 1];
      var prior := ValuesFor(obs[..|obs| - 1], id, anoMes, k);
      if o.deviceId == id && o.anoMes == anoMes && o.sensor == k then prior + [o.value] else prior
  }

  predicate WellFormedMonth(m: MonthAggregates) {
    forall k :: 0 <= k < |m.sensorData| ==> Consistent(m.sensorData[k])
  }

  /** Months of a device: within capacity, well formed, with pairwise distinct periods. */
  predicate WellFormedDevice(d: DeviceAggregates) {
    |d.months| <= d.monthlyCapacity &&
    (forall j :: 0 <= j < |d.months| ==> WellFormedMonth(d.months[j])) &&
    forall j, l :: 0 <= j < l < |d.months| ==> d.months[j].anoMes != d.months[l].anoMes
  }

  /** A device list: well-formed devices with pairwise distinct ids. */
  predicate WellFormedDevices(devs: seq<DeviceAggregates>) {
    (forall i :: 0 <= i < |devs| ==> WellFormedDevice(devs[i])) &&
    forall i, l :: 0 <= i < l < |devs| ==> devs[i].deviceId != devs[l].deviceId
  }

  lemma RecordInMonthWellFormed(m: MonthAggregates, o: ParsedData)
    requires WellFormedMonth(m)
    ensures WellFormedMonth(RecordInMonth(m, o))
    ensures RecordInMonth(m, o).anoMes == m.anoMes
  {
  }

  lemma RecordInDeviceWellFormed(d: DeviceAggregates, o: ParsedData)
    requires WellFormedDevice(d)
    ensures WellFormedDevice(RecordInDevice(d, o))
    ensures RecordInDevice(d, o).deviceId == d.deviceId
  {
    match IndexOfMonth(d.months, o.anoMes)
    case Some(j) =>
      RecordInMonthWellFormed(d.months[j], o);
    case None =>
      RecordInMonthWellFormed(NewMonth(o.anoMes), o);
  }

  /**
   * Recording keeps the table well formed: device ids stay pairwise
   * distinct, periods within a device stay pairwise distinct, every month
   * keeps six consistent cells.
   */
  lemma RecordPreservesWellFormed(devs: seq<DeviceAggregates>, o: ParsedData)
    requires WellFormedDevices(devs)
    ensures WellFormedDevices(RecordInDevices(devs, o))
  {
    match IndexOfDevice(devs, o.deviceId)
    case Some(i) =>
      RecordInDeviceWellFormed(devs[i], o);
    case None =>
      RecordInDeviceWellFormed(NewDevice(o.deviceId), o);
  }

  /**
   * An observation goes to the existing device with its id, in place, or to
   * a new device appended at the end; the ids already in the list keep their
   * positions.
   */
  lemma RecordKeepsDeviceOrder(devs: seq<DeviceAggregates>, o: ParsedData)
    ensures var r := RecordInDevices(devs, o);
      (IndexOfDevice(devs, o.deviceId).Some? ==> |r| == |devs|) &&
      (IndexOfDevice(devs, o.deviceId).None? ==> |r| == |devs| + 1 && r[|devs|].deviceId == o.deviceId) &&
      forall i :: 0 <= i < |devs| ==> r[i].deviceId == devs[i].deviceId
  {
    match IndexOfDevice(devs, o.deviceId)
    case Some(i) =>
      RecordInDeviceWellFormedId(devs[i], o);
    case None =>
      RecordInDeviceWellFormedId(NewDevice(o.deviceId), o);
  }

  lemma RecordInDeviceWellFormedId(d: DeviceAggregates, o: ParsedData)
    ensures RecordInDevice(d, o).deviceId == d.deviceId
  {
  }

  /** Replacing an entry by one with the same id does not move the first match of any id. */
  lemma IndexOfDeviceReplace(devs: seq<DeviceAggregates>, i: nat, d: DeviceAggregates, id: string)
    requires i < |devs| && d.deviceId == devs[i].deviceId
    ensures IndexOfDevice(devs[i := d], id) == IndexOfDevice(devs, id)
  {
    var r, r' := IndexOfDevice(devs, id), IndexOfDevice(devs[i := d], id);
    if r.Some? {
      assert devs[i := d][r.value].deviceId == id;
    }
    if r'.Some? {
      assert devs[i := d][r'.value].deviceId == devs[r'.value].deviceId;
    }
  }

  /** Appending an entry finds it only for an id absent before. */
  lemma IndexOfDeviceAppend(devs: seq<DeviceAggregates>, d: DeviceAggregates, id: string)
    ensures IndexOfDevice(devs + [d], id) ==
      if IndexOfDevice(devs, id).Some? then IndexOfDevice(devs, id)
      else if d.deviceId == id then Some(|devs|) else None
  {
    var r, r' := IndexOfDevice(devs, id), IndexOfDevice(devs + [d], id);
    assert forall j :: 0 <= j < |devs| ==> (devs + [d])[j] == devs[j];
    assert (devs + [d])[|devs|] == d;
  }

  lemma IndexOfMonthReplace(months: seq<MonthAggregates>, j: nat, m: MonthAggregates, anoMes: string)
    requires j < |months| && m.anoMes == months[j].anoMes
    ensures IndexOfMonth(months[j := m], anoMes) == IndexOfMonth(months, anoMes)
  {
    var r, r' := IndexOfMonth(months, anoMes), IndexOfMonth(months[j := m], anoMes);
    if r.Some? {
      assert months[j := m][r.value].anoMes == anoMes;
    }
    if r'.Some? {
      assert months[j := m][r'.value].anoMes == months[r'.value].anoMes;
    }
  }

  lemma IndexOfMonthAppend(months: seq<MonthAggregates>, m: MonthAggregates, anoMes: string)
    ensures IndexOfMonth(months + [m], anoMes) ==
      if IndexOfMonth(months, anoMes).Some? then IndexOfMonth(months, anoMes)
      else if m.anoMes == anoMes then Some(|months|) else None
  {
    assert forall j :: 0 <= j < |months| ==> (months + [m])[j] == months[j];
    assert (months + [m])[|months|] == m;
  }

  /** The cell a device holds for a period and a sensor; absent cells are fresh. */
  function DeviceCell(d: DeviceAggregates, anoMes: string, k: SensorIndex): SensorStats {
    match IndexOfMonth(d.months, anoMes)
    case None => InitSensorStats()
    case Some(j) => d.months[j].sensorData[k]
  }

  /** Recording into a device changes its addressed cell by `Observe` and no other cell. */
  lemma RecordInDeviceCell(d: DeviceAggregates, o: ParsedData, anoMes: string, k: SensorIndex)
    ensures DeviceCell(RecordInDevice(d, o), anoMes, k) ==
      if anoMes == o.anoMes && k == o.sensor then Observe(DeviceCell(d, anoMes, k), o.value)
      else DeviceCell(d, anoMes, k)
  {
    match IndexOfMonth(d.months, o.anoMes)
    case Some(j) =>
      var m' := RecordInMonth(d.months[j], o);
      IndexOfMonthReplace(d.months, j, m', anoMes);
      if anoMes == o.anoMes {
        assert IndexOfMonth(d.months, anoMes) == Some(j);
      } else {
        match IndexOfMonth(d.months, anoMes)
        case None =>
        case Some(j2) => assert j2 != j;
      }
    case None =>
      IndexOfMonthAppend(d.months, RecordInMonth(NewMonth(o.anoMes), o), anoMes);
  }

  lemma CellOfDevice(devs: seq<DeviceAggregates>, id: string, anoMes: string, k: SensorIndex)
    ensures CellOf(devs, id, anoMes, k) ==
      match IndexOfDevice(devs, id)
      case None => InitSensorStats()
      case Some(i) => DeviceCell(devs[i], anoMes, k)
  {
  }

  /**
   * An update touches only the addressed (device, period, sensor) cell:
   * that cell goes through `Observe`, every other cell is unchanged.
   */
  lemma RecordTouchesOneCell(devs: seq<DeviceAggregates>, o: ParsedData, id: string, anoMes: string, k: SensorIndex)
    ensures CellOf(RecordInDevices(devs, o), id, anoMes, k) ==
      if id == o.deviceId && anoMes == o.anoMes && k == o.sensor
      then Observe(CellOf(devs, id, anoMes, k), o.value)
      else CellOf(devs, id, anoMes, k)
  {
    CellOfDevice(devs, id, anoMes, k);
    CellOfDevice(RecordInDevices(devs, o), id, anoMes, k);
    match IndexOfDevice(devs, o.deviceId)
    case Some(i) =>
      var d' := RecordInDevice(devs[i], o);
      RecordInDeviceWellFormedId(devs[i], o);
      IndexOfDeviceReplace(devs, i, d', id);
      RecordInDeviceCell(devs[i], o, anoMes, k);
    case None =>
      var d' := RecordInDevice(NewDevice(o.deviceId), o);
      RecordInDeviceWellFormedId(NewDevice(o.deviceId), o);
      IndexOfDeviceAppend(devs, d', id);
      RecordInDeviceCell(NewDevice(o.deviceId), o, anoMes, k);
      assert (devs + [d'])[|devs|] == d';
  }

  /**
   * What a worker computes: starting from an empty table, every cell holds
   * the statistics of exactly the values addressed to it, in arrival order
   * (by `StatsOfSummary`: their count, sum, minimum and maximum).
   */
  lemma {:induction false} RecordAllCells(obs: seq<ParsedData>, id: string, anoMes: string, k: SensorIndex)
    ensures CellOf(RecordAll([], obs), id, anoMes, k) == StatsOf(ValuesFor(obs, id, anoMes, k))
  {
    if obs != [] {
      var init, o := obs[..|obs| - 1], obs[|obs| - 1];
      RecordAllCells(init, id, anoMes, k);
      RecordTouchesOneCell(RecordAll([], init), o, id, anoMes, k);
      var vs := ValuesFor(init, id, anoMes, k);
      assert (vs + [o.value])[..|vs|] == vs;
    }
  }

  lemma {:induction false} RecordAllWellFormed(devs: seq<DeviceAggregates>, obs: seq<ParsedData>)
    requires WellFormedDevices(devs)
    ensures WellFormedDevices(RecordAll(devs, obs))
  {
    if obs != [] {
      RecordAllWellFormed(devs, obs[..|obs| - 1]);
      RecordPreservesWellFormed(RecordAll(devs, obs[..|obs| - 1]), obs[|obs| - 1]);
    }
  }

  class Worker {
    var devices: seq<DeviceAggregates>
    var capacity: nat

    predicate Valid()
      reads this
    {
      WellFormedDevices(devices) && |devices| <= capacity && capacity >= InitialDevicesCapacity
    }

    /** The worker's list as the thread starts: empty, capacity 16. */
    constructor ()
      ensures Valid() && devices == [] && capacity == InitialDevicesCapacity
    {
      devices := [];
      capacity := InitialDevicesCapacity;
    }

    /** The scan for the device: the first entry whose id compares equal under `strcmp`. */
    method FindDevice(id: string) returns (r: Option<nat>)
      ensures r == IndexOfDevice(devices, id)
    {
      var i := 0;
      while i < |devices|
        invariant 0 <= i <= |devices|
        invariant forall j :: 0 <= j < i ==> devices[j].deviceId != id
      {
        StrCmpZero(devices[i].deviceId, id);
        if StrCmp(devices[i].deviceId, id) == 0 {
          return Some(i);
        }
        i := i + 1;
      }
      return None;
    }

    /** The scan for the period within one device, by `strcmp` as well. */
    static method FindMonth(d: DeviceAggregates, anoMes: string) returns (r: Option<nat>)
      ensures r == IndexOfMonth(d.months, anoMes)
    {
      var i := 0;
      while i < |d.months|
        invariant 0 <= i <= |d.months|
        invariant forall j :: 0 <= j < i ==> d.months[j].anoMes != anoMes
      {
        StrCmpZero(d.months[i].anoMes, anoMes);
        if StrCmp(d.months[i].anoMes, anoMes) == 0 {
          return Some(i);
        }
        i := i + 1;
      }
      return None;
    }

    /**
     * The update of one sensor cell: the first value sets the minimum and
     * the maximum and marks the cell initialised; later values are compared
     * against them. Every value is added to the sum and counted.
     */
    static method UpdateSensor(s: SensorStats, v: real) returns (r: SensorStats)
      ensures r == Observe(s, v)
    {
      r := s;
      if !r.initialized {
        r := r.(min := v);
        r := r.(max := v);
        r := r.(initialized := true);
      } else {
        if v < r.min {
          r := r.(min := v);
        }
        if v > r.max {
          r := r.(max := v);
        }
      }
      r := r.(sum := r.sum + v);
      r := r.(count := r.count + 1);
    }

    /**
     * One iteration of the drain loop: find or create the device (doubling
     * the list's capacity when full), find or create the month (capacity 8,
     * then doubling), then update the addressed sensor.
     */
    method Record(o: ParsedData)
      requires Valid()
      modifies this
      ensures Valid()
      ensures devices == RecordInDevices(old(devices), o)
      ensures capacity ==
        if IndexOfDevice(old(devices), o.deviceId).None? && |old(devices)| >= old(capacity)
        then 2 * old(capacity) else old(capacity)
    {
      ghost var devs0 := devices;
      RecordPreservesWellFormed(devices, o);
      var found := FindDevice(o.deviceId);
      var di: nat;
      if found.None? {
        if |devices| >= capacity {
          capacity := capacity * 2;
        }
        devices := devices + [NewDevice(o.deviceId)];
        di := |devices| - 1;
      } else {
        di := found.value;
      }
      var dev := devices[di];
      assert dev == (if found.None? then NewDevice(o.deviceId) else devs0[di]);
      var month := FindMonth(dev, o.anoMes);
      var mi: nat;
      if month.None? {
        var cap := dev.monthlyCapacity;
        if |dev.months| >= cap {
          cap := GrowMonthly(cap);
        }
        dev := dev.(months := dev.months + [NewMonth(o.anoMes)], monthlyCapacity := cap);
        mi := |dev.months| - 1;
      } else {
        mi := month.value;
      }
      ghost var target := RecordInDevice(if found.None? then NewDevice(o.deviceId) else devs0[di], o);
      var m := dev.months[mi];
      var cell := UpdateSensor(m.sensorData[o.sensor], o.value);
      m := m.(sensorData := m.sensorData[o.sensor := cell]);
      dev := dev.(months := dev.months[mi := m]);
      assert dev == target;
      devices := devices[di := dev];
      if found.None? {
        assert devices == devs0 + [RecordInDevice(NewDevice(o.deviceId), o)];
      }
    }

    /**
     * The drain loop: pop until the queue reports that it is empty and its
     * producers have finished, recording every observation in arrival order.
     */
    method Run(q: ShardQueue.Queue<ParsedData>)
      requires Valid() && q.Valid() && q.producersFinished
      modifies this, q
      ensures Valid() && q.Valid() && q.Contents == []
      ensures devices == RecordAll(old(devices), old(q.Contents))
    {
      ghost var pending := q.Contents;
      ghost var n := 0;
      while true
        invariant Valid() && q.Valid() && q.producersFinished
        invariant n <= |pending| && q.Contents == pending[n..]
        invariant devices == RecordAll(old(devices), pending[..n])
        decreases |q.Contents|
      {
        var data := q.Pop();
        if data.None? {
          break;
        }
        Record(data.value);
        assert pending[..n + 1][..n] == pending[..n];
        n := n + 1;
      }
      assert pending[..n] == pending;
    }

    /**
     * Publication: the worker's devices are appended, in order, to the shared
     * collection, the capacity doubling whenever it is full; earlier entries
     * are unchanged.
     */
    method Publish(shared: SharedData.DeviceCollection)
      requires shared.Valid() && shared.capacity > 0
      modifies shared
      ensures shared.Valid() && shared.capacity > 0
      ensures shared.data == old(shared.data) + devices
      ensures shared.capacity == SharedData.CapacityAfter(old(shared.capacity), |old(shared.data)|, |devices|)
    {
      var i := 0;
      while i < |devices|
        invariant 0 <= i <= |devices|
        invariant shared.Valid() && shared.capacity > 0
        invariant shared.data == old(shared.data) + devices[..i]
        invariant SharedData.CapacityAfter(shared.capacity, |shared.data|, |devices| - i) ==
          SharedData.CapacityAfter(old(shared.capacity), |old(shared.data)|, |devices|)
      {
        shared.Append(devices[i]);
        assert devices[..i + 1] == devices[..i] + [devices[i]];
        i := i + 1;
      }
      assert devices[..i] == devices;
    }
  }
}
