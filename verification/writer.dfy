/**
 * The writer thread: once the workers have published, it computes every
 * cell's average, sorts the devices by id and each device's months by
 * period, emits one output row per sensor cell that holds data, and clears
 * the shared collection.
 *
 * The output file is modelled as the sequence of rows it receives; the
 * header line and the `%.2f` formatting are not modelled.
 */
module Writer {
  import opened CStrings
  import opened Aggregates
  import opened Sorting
  import SharedData

  /** The sort key of `compare_device_aggregates`. */
  function DeviceKey(d: DeviceAggregates): string {
    d.deviceId
  }

  /** The sort key of `compare_ano_mes_aggregates`. */
  function MonthKey(m: MonthAggregates): string {
    m.anoMes
  }

  /**
   * `compare_device_aggregates`: a consistent `qsort` comparator: zero
   * exactly on equal ids, and swapping the arguments flips the sign.
   */
  function CompareDeviceAggregates(a: DeviceAggregates, b: DeviceAggregates): (r: int)
    ensures -1 <= r <= 1
    ensures r == 0 <==> a.deviceId == b.deviceId
    ensures StrCmp(b.deviceId, a.deviceId) == -r
  {
    StrCmpZero(a.deviceId, b.deviceId);
    StrCmpAntiSymmetric(a.deviceId, b.deviceId);
    StrCmp(a.deviceId, b.deviceId)
  }

  /** `compare_ano_mes_aggregates`: the same, on periods. */
  function CompareAnoMesAggregates(a: MonthAggregates, b: MonthAggregates): (r: int)
    ensures -1 <= r <= 1
    ensures r == 0 <==> a.anoMes == b.anoMes
    ensures StrCmp(b.anoMes, a.anoMes) == -r
  {
    StrCmpZero(a.anoMes, b.anoMes);
    StrCmpAntiSymmetric(a.anoMes, b.anoMes);
    StrCmp(a.anoMes, b.anoMes)
  }

  /** Sorted by device id exactly when `compare_device_aggregates` puts no neighbouring pair out of order. */
  lemma DevicesSortedByComparator(s: seq<DeviceAggregates>)
    ensures SortedBy(s, DeviceKey) <==> forall i :: 0 < i < |s| ==> CompareDeviceAggregates(s[i - 1], s[i]) <= 0
  {
    SortedByAdjacent(s, DeviceKey);
  }

  /** Sorted by period exactly when `compare_ano_mes_aggregates` puts no neighbouring pair out of order. */
  lemma MonthsSortedByComparator(s: seq<MonthAggregates>)
    ensures SortedBy(s, MonthKey) <==> forall i :: 0 < i < |s| ==> CompareAnoMesAggregates(s[i - 1], s[i]) <= 0
  {
    SortedByAdjacent(s, MonthKey);
  }

  /**
   * A cell with its average: `sum / count` when something was counted,
   * otherwise 0. Nothing else in the cell changes.
   */
  function WithAverage(s: SensorStats): (r: SensorStats)
    ensures r == s.(avg := r.avg)
    ensures s.count > 0 ==> r.avg * (s.count as real) == s.sum
    ensures s.count == 0 ==> r.avg == 0.0
  {
    if s.count > 0 then s.(avg := s.sum / s.count as real) else s.(avg := 0.0)
  }

  function AveragedMonth(m: MonthAggregates): MonthAggregates {
    m.(sensorData := seq(NumSensors, k requires 0 <= k < NumSensors => WithAverage(m.sensorData[k])))
  }

  function AveragedDevice(d: DeviceAggregates): DeviceAggregates {
    d.(months := seq(|d.months|, j requires 0 <= j < |d.months| => AveragedMonth(d.months[j])))
  }

  /** The collection with every cell's average computed. */
  function Averaged(devs: seq<DeviceAggregates>): seq<DeviceAggregates> {
    seq(|devs|, i requires 0 <= i < |devs| => AveragedDevice(devs[i]))
  }

  /** Averaging touches only the `avg` field of the cells: ids, periods and shape stay. */
  lemma AveragedCells(devs: seq<DeviceAggregates>, i: nat, j: nat, k: SensorIndex)
    requires i < |devs| && j < |devs[i].months|
    ensures |Averaged(devs)| == |devs| && |Averaged(devs)[i].months| == |devs[i].months|
    ensures Averaged(devs)[i].deviceId == devs[i].deviceId
    ensures Averaged(devs)[i].months[j].anoMes == devs[i].months[j].anoMes
    ensures Averaged(devs)[i].months[j].sensorData[k] == WithAverage(devs[i].months[j].sensorData[k])
  {
  }

  /** A device with its months sorted by period. */
  function SortMonths(d: DeviceAggregates): DeviceAggregates {
    d.(months := SortBy(d.months, MonthKey))
  }

  /** Every device with its months sorted. */
  function MonthsSorted(devs: seq<DeviceAggregates>): seq<DeviceAggregates> {
    seq(|devs|, i requires 0 <= i < |devs| => SortMonths(devs[i]))
  }

  /** The collection as the writer emits it: devices sorted by id, each device's months by period. */
  function Ordered(devs: seq<DeviceAggregates>): seq<DeviceAggregates> {
    MonthsSorted(SortBy(devs, DeviceKey))
  }

  /** One line of the output: device, period, sensor (index and name), maximum, average, minimum. */
  datatype Row = Row(device: string, period: string, sensor: SensorIndex, sensorName: string,
                     max: real, avg: real, min: real)

  /** The emission condition: the cell is initialised and counted something. */
  predicate Emitted(s: SensorStats) {
    s.initialized && s.count > 0
  }

  function RowOf(id: string, period: string, k: SensorIndex, s: SensorStats): Row {
    Row(id, period, k, SensorNames[k], s.max, s.avg, s.min)
  }

  /** The rows of a month's first n sensors, in sensor order. */
  function MonthRows(id: string, m: MonthAggregates, n: nat): seq<Row>
    requires n <= NumSensors
  {
    if n == 0 then []
    else
      MonthRows(id, m, n - 1) +
      (if Emitted(m.sensorData[n - 1]) then [RowOf(id, m.anoMes, n - 1, m.sensorData[n - 1])] else [])
  }

  /** The rows of a device's first n months, in month order. */
  function DeviceRows(d: DeviceAggregates, n: nat): seq<Row>
    requires n <= |d.months|
  {
    if n == 0 then [] else DeviceRows(d, n - 1) + MonthRows(d.deviceId, d.months[n - 1], NumSensors)
  }

  /** The rows of the first n devices, in device order. */
  function ListRows(devs: seq<DeviceAggregates>, n: nat): seq<Row>
    requires n <= |devs|
  {
    if n == 0 then [] else ListRows(devs, n - 1) + DeviceRows(devs[n - 1], |devs[n - 1].months|)
  }

  /** Everything the writer writes for a published collection. */
  function Report(devs: seq<DeviceAggregates>): seq<Row> {
    var ordered := Ordered(Averaged(devs));
    ListRows(ordered, |ordered|)
  }

  // Which rows come out.

  /** r is the row of one of the month's cells that holds data. */
  predicate MonthRow(id: string, m: MonthAggregates, r: Row) {
    exists k: SensorIndex :: Emitted(m.sensorData[k]) && r == RowOf(id, m.anoMes, k, m.sensorData[k])
  }

  /** r is the row of a cell with data in one of the device's months. */
  predicate DeviceRow(d: DeviceAggregates, r: Row) {
    exists j :: 0 <= j < |d.months| && MonthRow(d.deviceId, d.months[j], r)
  }

  /** r is the row of a cell with data of one of the devices. */
  predicate ListRow(devs: seq<DeviceAggregates>, r: Row) {
    exists i :: 0 <= i < |devs| && DeviceRow(devs[i], r)
  }

  lemma {:induction false} MonthRowsMembers(id: string, m: MonthAggregates, n: nat, r: Row)
    requires n <= NumSensors
    ensures r in MonthRows(id, m, n) <==>
      exists k: SensorIndex :: k < n && Emitted(m.sensorData[k]) && r == RowOf(id, m.anoMes, k, m.sensorData[k])
  {
    if n > 0 {
      MonthRowsMembers(id, m, n - 1, r);
    }
  }

  lemma {:induction false} DeviceRowsMembers(d: DeviceAggregates, n: nat, r: Row)
    requires n <= |d.months|
    ensures r in DeviceRows(d, n) <==> exists j :: 0 <= j < n && MonthRow(d.deviceId, d.months[j], r)
  {
    if n > 0 {
      DeviceRowsMembers(d, n - 1, r);
      MonthRowsMembers(d.deviceId, d.months[n - 1], NumSensors, r);
    }
  }

  lemma {:induction false} ListRowsMembers(devs: seq<DeviceAggregates>, n: nat, r: Row)
    requires n <= |devs|
    ensures r in ListRows(devs, n) <==> exists i :: 0 <= i < n && DeviceRow(devs[i], r)
  {
    if n > 0 {
      ListRowsMembers(devs, n - 1, r);
      DeviceRowsMembers(devs[n - 1], |devs[n - 1].months|, r);
    }
  }

  /** Sorting a device's months does not change which rows it has. */
  lemma SortMonthsRows(d: DeviceAggregates, r: Row)
    ensures DeviceRow(SortMonths(d), r) <==> DeviceRow(d, r)
  {
    var ms, ms' := d.months, SortMonths(d).months;
    if DeviceRow(d, r) {
      var j :| 0 <= j < |ms| && MonthRow(d.deviceId, ms[j], r);
      assert ms[j] in multiset(ms');
      var j' :| 0 <= j' < |ms'| && ms'[j'] == ms[j];
    }
    if DeviceRow(SortMonths(d), r) {
      var j' :| 0 <= j' < |ms'| && MonthRow(d.deviceId, ms'[j'], r);
      assert ms'[j'] in multiset(ms);
      var j :| 0 <= j < |ms| && ms[j] == ms'[j'];
    }
  }

  /** Putting the collection in output order does not change which rows it has. */
  lemma OrderedRows(devs: seq<DeviceAggregates>, r: Row)
    ensures ListRow(Ordered(devs), r) <==> ListRow(devs, r)
  {
    var sorted, ord := SortBy(devs, DeviceKey), Ordered(devs);
    if ListRow(devs, r) {
      var i :| 0 <= i < |devs| && DeviceRow(devs[i], r);
      assert devs[i] in multiset(sorted);
      var i' :| 0 <= i' < |sorted| && sorted[i'] == devs[i];
      SortMonthsRows(sorted[i'], r);
      assert DeviceRow(ord[i'], r);
    }
    if ListRow(ord, r) {
      var i' :| 0 <= i' < |ord| && DeviceRow(ord[i'], r);
      SortMonthsRows(sorted[i'], r);
      assert sorted[i'] in multiset(devs);
      var i :| 0 <= i < |devs| && devs[i] == sorted[i'];
    }
  }

  /**
   * The output holds exactly one kind of row: a row for each cell of the
   * collection that is initialised and counted something, carrying the
   * cell's device, period, sensor name, maximum, average and minimum
   * (`AveragedCells` gives the average as `sum / count`). Cells without data
   * never appear.
   */
  lemma ReportRows(devs: seq<DeviceAggregates>, r: Row)
    ensures r in Report(devs) <==> ListRow(Averaged(devs), r)
  {
    var ord := Ordered(Averaged(devs));
    ListRowsMembers(ord, |ord|, r);
    OrderedRows(Averaged(devs), r);
  }

  // In which order.

  /** Device first, then period, then sensor index. */
  predicate RowBefore(a: Row, b: Row) {
    StrCmp(a.device, b.device) < 0 ||
    (a.device == b.device && (StrCmp(a.period, b.period) < 0 || (a.period == b.period && a.sensor < b.sensor)))
  }

  predicate RowsInOrder(rows: seq<Row>) {
    forall p, q :: 0 <= p < q < |rows| ==> RowBefore(rows[p], rows[q])
  }

  lemma ConcatInOrder(a: seq<Row>, b: seq<Row>)
    requires RowsInOrder(a) && RowsInOrder(b)
    requires forall p, q :: 0 <= p < |a| && 0 <= q < |b| ==> RowBefore(a[p], b[q])
    ensures RowsInOrder(a + b)
  {
    forall p, q | 0 <= p < q < |a + b|
      ensures RowBefore((a + b)[p], (a + b)[q])
    {
      if q < |a| {
        assert (a + b)[p] == a[p] && (a + b)[q] == a[q];
      } else if p < |a| {
        assert (a + b)[p] == a[p] && (a + b)[q] == b[q - |a|];
      } else {
        assert (a + b)[p] == b[p - |a|] && (a + b)[q] == b[q - |a|];
      }
    }
  }

  /** A month's rows: its device and period, sensors below n, ascending. */
  lemma {:induction false} MonthRowsInOrder(id: string, m: MonthAggregates, n: nat)
    requires n <= NumSensors
    ensures forall p :: 0 <= p < |MonthRows(id, m, n)| ==>
      MonthRows(id, m, n)[p].device == id && MonthRows(id, m, n)[p].period == m.anoMes &&
      MonthRows(id, m, n)[p].sensor < n
    ensures RowsInOrder(MonthRows(id, m, n))
  {
    if n > 0 {
      MonthRowsInOrder(id, m, n - 1);
      var a := MonthRows(id, m, n - 1);
      var b := if Emitted(m.sensorData[n - 1]) then [RowOf(id, m.anoMes, n - 1, m.sensorData[n - 1])] else [];
      ConcatInOrder(a, b);
      assert MonthRows(id, m, n) == a + b;
      forall p | 0 <= p < |a + b|
        ensures (a + b)[p].device == id && (a + b)[p].period == m.anoMes && (a + b)[p].sensor < n
      {
        if p < |a| {
          assert (a + b)[p] == a[p];
        } else {
          assert (a + b)[p] == b[p - |a|];
        }
      }
    }
  }

  /** A device's rows, over months in strictly ascending period order: its id, ascending. */
  lemma {:induction false} DeviceRowsInOrder(d: DeviceAggregates, n: nat)
    requires n <= |d.months| && StrictlySortedBy(d.months, MonthKey)
    ensures forall p :: 0 <= p < |DeviceRows(d, n)| ==>
      DeviceRows(d, n)[p].device == d.deviceId &&
      exists j :: 0 <= j < n && DeviceRows(d, n)[p].period == d.months[j].anoMes
    ensures RowsInOrder(DeviceRows(d, n))
  {
    if n > 0 {
      DeviceRowsInOrder(d, n - 1);
      var a := DeviceRows(d, n - 1);
      var m := d.months[n - 1];
      var b := MonthRows(d.deviceId, m, NumSensors);
      MonthRowsInOrder(d.deviceId, m, NumSensors);
      forall p, q | 0 <= p < |a| && 0 <= q < |b|
        ensures RowBefore(a[p], b[q])
      {
        var j :| 0 <= j < n - 1 && a[p].period == d.months[j].anoMes;
        assert StrCmp(MonthKey(d.months[j]), MonthKey(d.months[n - 1])) < 0;
      }
      ConcatInOrder(a, b);
      forall p | 0 <= p < |a + b|
        ensures (a + b)[p].device == d.deviceId &&
          exists j :: 0 <= j < n && (a + b)[p].period == d.months[j].anoMes
      {
        if p < |a| {
          assert (a + b)[p] == a[p];
        } else {
          assert (a + b)[p] == b[p - |a|];
        }
      }
    }
  }

  /** The rows of devices in strictly ascending id order, each with ordered months: ascending. */
  lemma {:induction false} ListRowsInOrder(devs: seq<DeviceAggregates>, n: nat)
    requires n <= |devs| && StrictlySortedBy(devs, DeviceKey)
    requires forall i :: 0 <= i < |devs| ==> StrictlySortedBy(devs[i].months, MonthKey)
    ensures forall p :: 0 <= p < |ListRows(devs, n)| ==> FromDevices(ListRows(devs, n)[p], devs, n)
    ensures RowsInOrder(ListRows(devs, n))
  {
    if n > 0 {
      var a := ListRows(devs, n - 1);
      var d := devs[n - 1];
      var b := DeviceRows(d, |d.months|);
      assert RowsInOrder(a) && forall p :: 0 <= p < |a| ==> FromDevices(a[p], devs, n - 1) by {
        ListRowsInOrder(devs, n - 1);
      }
      assert RowsInOrder(b) && forall q :: 0 <= q < |b| ==> b[q].device == devs[n - 1].deviceId by {
        DeviceRowsInOrder(d, |d.months|);
      }
      assert ListRows(devs, n) == a + b;
      DevicesBefore(devs, n, a, b);
      ConcatInOrder(a, b);
      DevicesOfConcat(devs, n, a, b, ListRows(devs, n));
    } else {
      assert ListRows(devs, n) == [];
    }
  }

  /** Rows of the first n - 1 devices come before the rows of device n - 1. */
  lemma DevicesBefore(devs: seq<DeviceAggregates>, n: nat, a: seq<Row>, b: seq<Row>)
    requires 0 < n <= |devs| && StrictlySortedBy(devs, DeviceKey)
    requires forall p :: 0 <= p < |a| ==> FromDevices(a[p], devs, n - 1)
    requires forall q :: 0 <= q < |b| ==> b[q].device == devs[n - 1].deviceId
    ensures forall p, q :: 0 <= p < |a| && 0 <= q < |b| ==> RowBefore(a[p], b[q])
  {
    forall p, q | 0 <= p < |a| && 0 <= q < |b|
      ensures RowBefore(a[p], b[q])
    {
      assert FromDevices(a[p], devs, n - 1);
      var i :| 0 <= i < n - 1 && a[p].device == devs[i].deviceId;
      assert StrCmp(DeviceKey(devs[i]), DeviceKey(devs[n - 1])) < 0;
    }
  }

  /** The row carries the id of one of the first n devices. */
  predicate FromDevices(r: Row, devs: seq<DeviceAggregates>, n: nat)
    requires n <= |devs|
  {
    exists i :: 0 <= i < n && r.device == devs[i].deviceId
  }

  /** Every row of the first n devices carries the id of one of them. */
  lemma DevicesOfConcat(devs: seq<DeviceAggregates>, n: nat, a: seq<Row>, b: seq<Row>, c: seq<Row>)
    requires 0 < n <= |devs| && c == a + b
    requires forall p :: 0 <= p < |a| ==> FromDevices(a[p], devs, n - 1)
    requires forall q :: 0 <= q < |b| ==> b[q].device == devs[n - 1].deviceId
    ensures forall p :: 0 <= p < |c| ==> FromDevices(c[p], devs, n)
  {
    forall p | 0 <= p < |c|
      ensures FromDevices(c[p], devs, n)
    {
      if p < |a| {
        assert c[p] == a[p];
        assert FromDevices(a[p], devs, n - 1);
        var i :| 0 <= i < n - 1 && a[p].device == devs[i].deviceId;
        assert 0 <= i < n && c[p].device == devs[i].deviceId;
      } else {
        assert c[p] == b[p - |a|];
        assert 0 <= n - 1 < n && c[p].device == devs[n - 1].deviceId;
      }
    }
  }

  /**
   * Rows come out by device id, then by period, then by sensor index, each
   * pair strictly ordered, provided device ids are pairwise distinct and
   * so are the periods within each device (as a worker's table keeps them
   * and as sharding by device keeps them across workers).
   */
  lemma ReportInOrder(devs: seq<DeviceAggregates>)
    requires DistinctKeys(devs, DeviceKey)
    requires forall i :: 0 <= i < |devs| ==> DistinctKeys(devs[i].months, MonthKey)
    ensures RowsInOrder(Report(devs))
  {
    var avg := Averaged(devs);
    AveragedDistinct(devs);
    OrderedStrict(avg);
    ListRowsInOrder(Ordered(avg), |Ordered(avg)|);
  }

  /** Averaging keeps every device id and every period, so distinct keys stay distinct. */
  lemma AveragedDistinct(devs: seq<DeviceAggregates>)
    requires DistinctKeys(devs, DeviceKey)
    requires forall i :: 0 <= i < |devs| ==> DistinctKeys(devs[i].months, MonthKey)
    ensures DistinctKeys(Averaged(devs), DeviceKey)
    ensures forall i :: 0 <= i < |devs| ==> DistinctKeys(Averaged(devs)[i].months, MonthKey)
  {
    var avg := Averaged(devs);
    forall i | 0 <= i < |devs| ensures DistinctKeys(avg[i].months, MonthKey) {
      forall j, l | 0 <= j < l < |avg[i].months|
        ensures MonthKey(avg[i].months[j]) != MonthKey(avg[i].months[l])
      {
        assert avg[i].months[j].anoMes == devs[i].months[j].anoMes;
        assert avg[i].months[l].anoMes == devs[i].months[l].anoMes;
      }
    }
  }

  /**
   * With distinct device ids and distinct periods within each device, the
   * order the writer emits in is strict: devices by id, each device's months
   * by period.
   */
  lemma OrderedStrict(devs: seq<DeviceAggregates>)
    requires DistinctKeys(devs, DeviceKey)
    requires forall i :: 0 <= i < |devs| ==> DistinctKeys(devs[i].months, MonthKey)
    ensures StrictlySortedBy(Ordered(devs), DeviceKey)
    ensures forall i :: 0 <= i < |Ordered(devs)| ==> StrictlySortedBy(Ordered(devs)[i].months, MonthKey)
  {
    var sorted := SortBy(devs, DeviceKey);
    SortStrict(devs, DeviceKey);
    var ord := Ordered(devs);
    assert StrictlySortedBy(ord, DeviceKey) by {
      forall i, j | 0 <= i < j < |ord| ensures StrCmp(DeviceKey(ord[i]), DeviceKey(ord[j])) < 0 {
        assert ord[i].deviceId == sorted[i].deviceId && ord[j].deviceId == sorted[j].deviceId;
      }
    }
    forall i | 0 <= i < |ord| ensures StrictlySortedBy(ord[i].months, MonthKey) {
      assert sorted[i] in multiset(devs);
      var i0 :| 0 <= i0 < |devs| && devs[i0] == sorted[i];
      SortStrict(sorted[i].months, MonthKey);
    }
  }

  // The writer's loops.

  /** The average loop over one month's six sensors. */
  method AverageMonth(m: MonthAggregates) returns (r: MonthAggregates)
    ensures r == AveragedMonth(m)
  {
    var sensors := m.sensorData;
    var k := 0;
    while k < NumSensors
      invariant 0 <= k <= NumSensors && |sensors| == NumSensors
      invariant forall l :: 0 <= l < k ==> sensors[l] == WithAverage(m.sensorData[l])
      invariant forall l :: k <= l < NumSensors ==> sensors[l] == m.sensorData[l]
    {
      if sensors[k].count > 0 {
        sensors := sensors[k := sensors[k].(avg := sensors[k].sum / sensors[k].count as real)];
      } else {
        sensors := sensors[k := sensors[k].(avg := 0.0)];
      }
      k := k + 1;
    }
    r := m.(sensorData := sensors);
  }

  /** The average loop over a device's months. */
  method AverageDevice(d: DeviceAggregates) returns (r: DeviceAggregates)
    ensures r == AveragedDevice(d)
  {
    var months := d.months;
    var j := 0;
    while j < |months|
      invariant 0 <= j <= |months| && |months| == |d.months|
      invariant forall l :: 0 <= l < j ==> months[l] == AveragedMonth(d.months[l])
      invariant forall l :: j <= l < |months| ==> months[l] == d.months[l]
    {
      var m := AverageMonth(months[j]);
      months := months[j := m];
      j := j + 1;
    }
    r := d.(months := months);
  }

  /** The average pass over the whole shared collection. */
  method ComputeAverages(shared: SharedData.DeviceCollection)
    modifies shared
    ensures shared.data == Averaged(old(shared.data))
    ensures shared.capacity == old(shared.capacity)
  {
    var i := 0;
    while i < |shared.data|
      invariant 0 <= i <= |shared.data| && |shared.data| == |old(shared.data)|
      invariant forall l :: 0 <= l < i ==> shared.data[l] == AveragedDevice(old(shared.data)[l])
      invariant forall l :: i <= l < |shared.data| ==> shared.data[l] == old(shared.data)[l]
      invariant shared.capacity == old(shared.capacity)
    {
      var d := AverageDevice(shared.data[i]);
      shared.data := shared.data[i := d];
      i := i + 1;
    }
  }

  /** The emission loop over a month's six sensors. */
  method EmitMonth(id: string, m: MonthAggregates) returns (rows: seq<Row>)
    ensures rows == MonthRows(id, m, NumSensors)
  {
    rows := [];
    var k := 0;
    while k < NumSensors
      invariant 0 <= k <= NumSensors
      invariant rows == MonthRows(id, m, k)
    {
      var sensor := m.sensorData[k];
      if sensor.initialized && sensor.count > 0 {
        rows := rows + [Row(id, m.anoMes, k, SensorNames[k], sensor.max, sensor.avg, sensor.min)];
      }
      k := k + 1;
    }
  }

  /** The emission loop over a device's months. */
  method EmitDevice(d: DeviceAggregates) returns (rows: seq<Row>)
    ensures rows == DeviceRows(d, |d.months|)
  {
    rows := [];
    var j := 0;
    while j < |d.months|
      invariant 0 <= j <= |d.months|
      invariant rows == DeviceRows(d, j)
    {
      var monthRows := EmitMonth(d.deviceId, d.months[j]);
      rows := rows + monthRows;
      j := j + 1;
    }
  }

  /** The per-device part of the writer's loop: sort the device's months, then emit its rows. */
  method SortAndEmit(devs: seq<DeviceAggregates>) returns (done: seq<DeviceAggregates>, rows: seq<Row>)
    ensures done == MonthsSorted(devs)
    ensures rows == ListRows(done, |done|)
  {
    done := [];
    rows := [];
    var i := 0;
    while i < |devs|
      invariant 0 <= i <= |devs| && |done| == i
      invariant done == MonthsSorted(devs[..i])
      invariant rows == ListRows(done, i)
    {
      var d := SortMonths(devs[i]);
      var deviceRows := EmitDevice(d);
      ListRowsSnoc(done, d);
      MonthsSortedSnoc(devs, i);
      rows := rows + deviceRows;
      done := done + [d];
      i := i + 1;
    }
    assert devs[..i] == devs;
  }

  lemma MonthsSortedSnoc(devs: seq<DeviceAggregates>, n: nat)
    requires n < |devs|
    ensures MonthsSorted(devs[..n + 1]) == MonthsSorted(devs[..n]) + [SortMonths(devs[n])]
  {
    var longer, want := MonthsSorted(devs[..n + 1]), MonthsSorted(devs[..n]) + [SortMonths(devs[n])];
    assert |longer| == |want| == n + 1;
    forall i | 0 <= i <= n ensures longer[i] == want[i] {
      assert devs[..n + 1][i] == devs[i];
      if i < n {
        assert devs[..n][i] == devs[i];
      }
    }
  }

  /** Appending a device appends its rows. */
  lemma ListRowsSnoc(devs: seq<DeviceAggregates>, d: DeviceAggregates)
    ensures ListRows(devs + [d], |devs| + 1) == ListRows(devs, |devs|) + DeviceRows(d, |d.months|)
  {
    var e := devs + [d];
    assert e[|devs|] == d;
    assert ListRows(e, |devs| + 1) == ListRows(e, |devs|) + DeviceRows(d, |d.months|);
    ListRowsPrefix(devs, [d], |devs|);
  }

  /** The rows of a prefix do not depend on what follows it. */
  lemma {:induction false} ListRowsPrefix(devs: seq<DeviceAggregates>, more: seq<DeviceAggregates>, n: nat)
    requires n <= |devs|
    ensures ListRows(devs + more, n) == ListRows(devs, n)
  {
    if n > 0 {
      var all := devs + more;
      var d := devs[n - 1];
      assert all[n - 1] == d;
      assert ListRows(all, n) == ListRows(all, n - 1) + DeviceRows(d, |d.months|);
      assert ListRows(devs, n) == ListRows(devs, n - 1) + DeviceRows(d, |d.months|);
      ListRowsPrefix(devs, more, n - 1);
    }
  }

  /**
   * `writer_thread_func`: averages, the device sort, then per device the
   * month sort and the emission, then the cleanup that leaves the shared
   * collection empty with count and capacity 0. `fileOpened` says whether
   * `fopen` of the output file succeeded: when it fails, the writer returns
   * at once with no rows, leaving the collection averaged and sorted by
   * device but neither month-sorted nor reset.
   */
  method WriteResults(shared: SharedData.DeviceCollection, fileOpened: bool) returns (rows: seq<Row>)
    modifies shared
    ensures fileOpened ==> rows == Report(old(shared.data))
    ensures fileOpened ==> shared.data == [] && shared.capacity == 0
    ensures !fileOpened ==> rows == [] && shared.capacity == old(shared.capacity)
    ensures !fileOpened ==> shared.data == SortBy(Averaged(old(shared.data)), DeviceKey)
  {
    ComputeAverages(shared);
    shared.data := SortBy(shared.data, DeviceKey);
    if !fileOpened {
      return [];
    }
    var done;
    done, rows := SortAndEmit(shared.data);
    shared.data := done;
    shared.data := [];
    shared.capacity := 0;
  }
}
