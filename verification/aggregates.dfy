/**
 * The records the worker and the writer share: one record per parsed line
 * (`ParsedData`), per-sensor statistics (`SensorStats`), a device's month
 * (`AnoMesAggregates`) and a device (`DeviceAggregates`), together with the
 * per-cell update the worker applies to each observation.
 *
 * Sensor values are `double` in the source and `real` here: sums, minima and
 * maxima are exact.
 */
module Aggregates {
  import opened CStrings

  /** `NUM_SENSORS`. */
  const NumSensors: nat := 6

  /** A `SensorType`: an index into the six sensor columns. */
  type SensorIndex = k: nat | k < NumSensors

  /** `SENSOR_NAMES`, indexed by `SensorType`. */
  const SensorNames: seq<string> := ["temperatura", "umidade", "luminosidade", "ruido", "eco2", "etvoc"]

  /** `DBL_MAX`, the largest finite double, as an exact number. */
  const DblMax: real := 179769313486231570814527423731704356798070567525844996598917476803157260780028538760589558632766878171540458953514382464234321326889464182768467546703537516986049910576551282076245490090389328944075868508455133942304583236903222948165808559332123348274797826204144723168738177180919299881250404026184124858368.0

  datatype SensorStats = SensorStats(min: real, max: real, sum: real, count: nat, avg: real, initialized: bool)

  /** `sensor_data[NUM_SENSORS]`: one statistics cell per sensor. */
  type Sensors = s: seq<SensorStats> | |s| == NumSensors
    witness FreshSensors()

  /** `AnoMesAggregates`: a "YYYY-MM" period and the statistics of its six sensors. */
  datatype MonthAggregates = MonthAggregates(anoMes: string, sensorData: Sensors)

  /** `DeviceAggregates`: a device id, its months, and the capacity reserved for them. */
  datatype DeviceAggregates = DeviceAggregates(deviceId: string, months: seq<MonthAggregates>, monthlyCapacity: nat)

  /** `ParsedData`: one observation of one sensor of one device in one period. */
  datatype ParsedData = ParsedData(deviceId: string, anoMes: string, sensor: SensorIndex, value: real)

  /**
   * A cell's statistics agree with each other: `initialized` exactly when
   * something was counted, and then the minimum does not exceed the maximum.
   */
  predicate Consistent(s: SensorStats) {
    (s.initialized <==> s.count > 0) && (s.initialized ==> s.min <= s.max)
  }

  /**
   * `init_sensor_stats`: nothing observed yet, with the sentinels `DBL_MAX`
   * for the minimum and `-DBL_MAX` for the maximum.
   */
  function InitSensorStats(): (s: SensorStats)
    ensures Consistent(s) && !s.initialized && s.count == 0 && s.sum == 0.0 && s.avg == 0.0
    ensures s.min == DblMax && s.max == -DblMax
  {
    SensorStats(DblMax, -DblMax, 0.0, 0, 0.0, false)
  }

  /** Six freshly initialised sensors, as a new month gets them. */
  function FreshSensors(): (ss: seq<SensorStats>)
    ensures |ss| == NumSensors
    ensures forall k :: 0 <= k < |ss| ==> ss[k] == InitSensorStats()
  {
    [InitSensorStats(), InitSensorStats(), InitSensorStats(),
     InitSensorStats(), InitSensorStats(), InitSensorStats()]
  }

  /**
   * The worker's update of one cell with one value: the first value sets the
   * minimum and the maximum, later ones lower the minimum or raise the
   * maximum; every value is added to the sum and counted.
   */
  function Observe(s: SensorStats, v: real): (r: SensorStats)
    ensures r.initialized && r.count == s.count + 1 && r.sum == s.sum + v && r.avg == s.avg
    ensures r.min <= v <= r.max
    ensures !s.initialized ==> r.min == v && r.max == v
    ensures s.initialized ==> r.min == (if v < s.min then v else s.min)
    ensures s.initialized ==> r.max == (if v > s.max then v else s.max)
    ensures Consistent(s) ==> Consistent(r)
  {
    var bounded :=
      if !s.initialized then s.(min := v, max := v, initialized := true)
      else
        var s1 := if v < s.min then s.(min := v) else s;
        if v > s1.max then s1.(max := v) else s1;
    bounded.(sum := bounded.sum + v, count := bounded.count + 1)
  }

  /** The statistics of a cell that has seen the values `vs`, in order. */
  function StatsOf(vs: seq<real>): SensorStats
  {
    if vs == [] then InitSensorStats() else Observe(StatsOf(vs[..|vs| - 1]), vs[|vs| - 1])
  }

  function SeqSum(vs: seq<real>): real
  {
    if vs == [] then 0.0 else SeqSum(vs[..|vs| - 1]) + vs[|vs| - 1]
  }

  /** The smallest of the values: a lower bound that is one of them. */
  function SeqMin(vs: seq<real>): (m: real)
    requires vs != []
    ensures forall i :: 0 <= i < |vs| ==> m <= vs[i]
    ensures exists i :: 0 <= i < |vs| && m == vs[i]
  {
    if |vs| == 1 then vs[0]
    else
      var m0 := SeqMin(vs[..|vs| - 1]);
      assert forall i :: 0 <= i < |vs| - 1 ==> vs[..|vs| - 1][i] == vs[i];
      if vs[|vs| - 1] < m0 then vs[|vs| - 1] else m0
  }

  /** The largest of the values: an upper bound that is one of them. */
  function SeqMax(vs: seq<real>): (m: real)
    requires vs != []
    ensures forall i :: 0 <= i < |vs| ==> vs[i] <= m
    ensures exists i :: 0 <= i < |vs| && m == vs[i]
  {
    if |vs| == 1 then vs[0]
    else
      var m0 := SeqMax(vs[..|vs| - 1]);
      assert forall i :: 0 <= i < |vs| - 1 ==> vs[..|vs| - 1][i] == vs[i];
      if vs[|vs| - 1] > m0 then vs[|vs| - 1] else m0
  }

  /**
   * What a cell holds after the values `vs`: their number, their sum, and,
   * once there is one, their minimum and maximum; before any it is the
   * freshly initialised cell.
   */
  lemma {:induction false} StatsOfSummary(vs: seq<real>)
    ensures var s := StatsOf(vs);
      Consistent(s) && s.count == |vs| && s.sum == SeqSum(vs) && s.avg == 0.0 &&
      (vs == [] ==> s == InitSensorStats()) &&
      (vs != [] ==> s.initialized && s.min == SeqMin(vs) && s.max == SeqMax(vs))
  {
    if vs != [] {
      var init := vs[..|vs| - 1];
      StatsOfSummary(init);
    }
  }

  /** Every value a cell has seen lies between its minimum and its maximum. */
  lemma StatsBoundValues(vs: seq<real>, i: nat)
    requires i < |vs|
    ensures StatsOf(vs).min <= vs[i] <= StatsOf(vs).max
  {
    StatsOfSummary(vs);
  }

  /** A well-formed period "YYYY-MM": four digits, a dash, two digits. */
  predicate WellFormedAnoMes(s: string) {
    |s| == 7 && AllDigits(s[..4]) && s[4] == '-' && AllDigits(s[5..])
  }

  /**
   * `ano_mes_to_int`: the period as the number `year * 100 + month`, so the
   * year is the quotient by 100 and the month the remainder.
   */
  function AnoMesToInt(s: string): (n: nat)
    requires WellFormedAnoMes(s)
    ensures n / 100 == DigitsValue(s[..4]) && n % 100 == DigitsValue(s[5..])
  {
    DigitsValueBound(s[5..]);
    DigitsValue(s[..4]) * 100 + DigitsValue(s[5..])
  }

  lemma AnoMesToIntExample()
    ensures WellFormedAnoMes("2024-03") && AnoMesToInt("2024-03") == 202403
  {
    var s := "2024-03";
    assert s[..4] == "2024" && s[5..] == "03";
    assert DigitsValue("2024") == 2024 by {
      assert "2024"[..3] == "202" && "202"[..2] == "20" && "20"[..1] == "2" && "2"[..0] == "";
    }
    assert DigitsValue("03") == 3 by {
      assert "03"[..1] == "0" && "0"[..0] == "";
    }
  }

  /**
   * On well-formed periods `strcmp` order is numeric order of
   * `ano_mes_to_int`, so sorting periods as strings sorts them by date.
   */
  lemma AnoMesOrder(a: string, b: string)
    requires WellFormedAnoMes(a) && WellFormedAnoMes(b)
    ensures StrCmp(a, b) < 0 <==> AnoMesToInt(a) < AnoMesToInt(b)
    ensures StrCmp(a, b) == 0 <==> AnoMesToInt(a) == AnoMesToInt(b)
  {
    var ya, ma, yb, mb := a[..4], a[5..], b[..4], b[5..];
    assert a == ya + ("-" + ma) && b == yb + ("-" + mb);
    StrCmpAppend(ya, "-" + ma, yb, "-" + mb);
    StrCmpAppend("-", ma, "-", mb);
    StrCmpDigits(ya, yb);
    StrCmpDigits(ma, mb);
    DigitsValueBound(ma);
    DigitsValueBound(mb);
    assert Pow10(2) == 100;
    var na, nb := AnoMesToInt(a), AnoMesToInt(b);
    assert na == DigitsValue(ya) * 100 + DigitsValue(ma);
    assert nb == DigitsValue(yb) * 100 + DigitsValue(mb);
    if ya == yb {
      assert StrCmp(a, b) == StrCmp(ma, mb);
    } else {
      assert StrCmp(a, b) == StrCmp(ya, yb);
      StrCmpZero(ya, yb);
      if DigitsValue(ya) < DigitsValue(yb) {
        LeadingDigitDecides(DigitsValue(ya), DigitsValue(yb), 100, DigitsValue(ma), DigitsValue(mb));
      } else {
        LeadingDigitDecides(DigitsValue(yb), DigitsValue(ya), 100, DigitsValue(mb), DigitsValue(ma));
      }
    }
  }
}
