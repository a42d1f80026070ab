/**
 * The statistics table of the chunk-parallel implementation: one entry per
 * (device, year, month), each with six cells holding a maximum, a minimum,
 * a sum and a count. Every thread fills a table of its own; the tables are
 * then merged into one.
 *
 * The sentinels `-HUGE_VAL` and `HUGE_VAL` of an empty cell are the infinite
 * ends of `Bound`; sensor values are exact `real`s.
 */
module ChunkTable {
  import opened Wrappers
  import opened CStrings
  import opened Aggregates

  /** `SENSOR_COUNT`. */
  const SensorCount: nat := 6

  /** `KEY_MAX`: a device name holds at most `KEY_MAX - 1` characters. */
  const KeyMax: nat := 64

  /** A maximum or a minimum: a value, or one of the infinite sentinels. */
  datatype Bound = NegInf | Finite(v: real) | PosInf

  /** `v > b` on doubles, where b may be infinite. */
  predicate Exceeds(v: real, b: Bound) {
    match b
    case NegInf => true
    case Finite(x) => v > x
    case PosInf => false
  }

  /** `v < b` on doubles, where b may be infinite. */
  predicate Undercuts(v: real, b: Bound) {
    match b
    case NegInf => false
    case Finite(x) => v < x
    case PosInf => true
  }

  /** `a > b` on two bounds. */
  predicate BoundAbove(a: Bound, b: Bound) {
    match a
    case NegInf => false
    case Finite(x) => Exceeds(x, b)
    case PosInf => !b.PosInf?
  }

  /** `a < b` on two bounds. */
  predicate BoundBelow(a: Bound, b: Bound) {
    match a
    case NegInf => !b.NegInf?
    case Finite(x) => Undercuts(x, b)
    case PosInf => false
  }

  /** The table's `SensorStats`: no `initialized` flag and no average. */
  datatype CellStats = CellStats(max: Bound, min: Bound, sum: real, count: nat)

  /** A cell as a new entry gets it: `max = -HUGE_VAL`, `min = HUGE_VAL`, nothing summed or counted. */
  function EmptyCell(): CellStats {
    CellStats(NegInf, PosInf, 0.0, 0)
  }

  function EmptyCells(): (cs: seq<CellStats>)
    ensures |cs| == SensorCount && forall s :: 0 <= s < |cs| ==> cs[s] == EmptyCell()
  {
    [EmptyCell(), EmptyCell(), EmptyCell(), EmptyCell(), EmptyCell(), EmptyCell()]
  }

  /** `sensor[SENSOR_COUNT]`. */
  type Cells = cs: seq<CellStats> | |cs| == SensorCount
    witness EmptyCells()

  /** A sensor index of the chunk table. */
  type Sensor = s: nat | s < SensorCount

  /** `StatsEntry`. */
  datatype StatsEntry = StatsEntry(device: string, year: int, month: int, sensor: Cells)

  /**
   * One value added to a cell, as `thread_fn` does it: the new maximum is
   * the larger of the old maximum and v, the new minimum the smaller of the
   * old minimum and v; the value is summed and counted.
   */
  function AddValue(c: CellStats, v: real): (r: CellStats)
    ensures r.count == c.count + 1 && r.sum == c.sum + v
    ensures !Exceeds(v, r.max) && !BoundAbove(c.max, r.max) && (r.max == c.max || r.max == Finite(v))
    ensures !Undercuts(v, r.min) && !BoundBelow(c.min, r.min) && (r.min == c.min || r.min == Finite(v))
  {
    var c1 := if Exceeds(v, c.max) then c.(max := Finite(v)) else c;
    var c2 := if Undercuts(v, c1.min) then c1.(min := Finite(v)) else c1;
    c2.(sum := c2.sum + v, count := c2.count + 1)
  }

  /** A cell after adding the values vs, in order. */
  function AddAll(c: CellStats, vs: seq<real>): CellStats {
    if vs == [] then c else AddValue(AddAll(c, vs[..|vs| - 1]), vs[|vs| - 1])
  }

  /** The cell of the values vs. */
  function CellOf(vs: seq<real>): CellStats {
    AddAll(EmptyCell(), vs)
  }

  /** The largest of the values, or `-HUGE_VAL` when there are none. */
  function MaxOf(vs: seq<real>): Bound {
    if vs == [] then NegInf else Finite(SeqMax(vs))
  }

  /** The smallest of the values, or `HUGE_VAL` when there are none. */
  function MinOf(vs: seq<real>): Bound {
    if vs == [] then PosInf else Finite(SeqMin(vs))
  }

  /**
   * A cell holds the maximum, the minimum, the sum and the number of the
   * values added to it; with none added it keeps its sentinels.
   */
  lemma {:induction false} CellOfSummary(vs: seq<real>)
    ensures CellOf(vs) == CellStats(MaxOf(vs), MinOf(vs), SeqSum(vs), |vs|)
  {
    if vs != [] {
      var init, v := vs[..|vs| - 1], vs[|vs| - 1];
      CellOfSummary(init);
      if init != [] {
        assert vs[..|vs| - 1] == init;
      }
    }
  }

  /** The sum of a concatenation is the sum of the sums. */
  lemma {:induction false} SeqSumAppend(xs: seq<real>, ys: seq<real>)
    ensures SeqSum(xs + ys) == SeqSum(xs) + SeqSum(ys)
  {
    if ys != [] {
      SeqSumAppend(xs, ys[..|ys| - 1]);
      assert (xs + ys)[..|xs + ys| - 1] == xs + ys[..|ys| - 1];
      assert (xs + ys)[|xs + ys| - 1] == ys[|ys| - 1];
    } else {
      assert xs + ys == xs;
    }
  }

  /** The maximum of a concatenation is the larger of the two maxima. */
  lemma SeqMaxAppend(xs: seq<real>, ys: seq<real>)
    requires xs != [] && ys != []
    ensures SeqMax(xs + ys) == if SeqMax(ys) > SeqMax(xs) then SeqMax(ys) else SeqMax(xs)
  {
    var m, a, b := SeqMax(xs + ys), SeqMax(xs), SeqMax(ys);
    var i :| 0 <= i < |xs| && a == xs[i];
    var j :| 0 <= j < |ys| && b == ys[j];
    assert (xs + ys)[i] == a && (xs + ys)[|xs| + j] == b;
    var k :| 0 <= k < |xs + ys| && m == (xs + ys)[k];
    if k < |xs| {
      assert (xs + ys)[k] == xs[k];
    } else {
      assert (xs + ys)[k] == ys[k - |xs|];
    }
  }

  /** The minimum of a concatenation is the smaller of the two minima. */
  lemma SeqMinAppend(xs: seq<real>, ys: seq<real>)
    requires xs != [] && ys != []
    ensures SeqMin(xs + ys) == if SeqMin(ys) < SeqMin(xs) then SeqMin(ys) else SeqMin(xs)
  {
    var m, a, b := SeqMin(xs + ys), SeqMin(xs), SeqMin(ys);
    var i :| 0 <= i < |xs| && a == xs[i];
    var j :| 0 <= j < |ys| && b == ys[j];
    assert (xs + ys)[i] == a && (xs + ys)[|xs| + j] == b;
    var k :| 0 <= k < |xs + ys| && m == (xs + ys)[k];
    if k < |xs| {
      assert (xs + ys)[k] == xs[k];
    } else {
      assert (xs + ys)[k] == ys[k - |xs|];
    }
  }

  /**
   * The merge of a thread's cell into the global one: skipped when the
   * thread counted nothing, otherwise larger maximum, smaller minimum,
   * summed sums and counts.
   */
  function MergeCell(g: CellStats, l: CellStats): (r: CellStats)
    ensures l.count == 0 ==> r == g
    ensures r.count == g.count + l.count
  {
    if l.count == 0 then g
    else
      var g1 := if BoundAbove(l.max, g.max) then g.(max := l.max) else g;
      var g2 := if BoundBelow(l.min, g1.min) then g1.(min := l.min) else g1;
      g2.(sum := g2.sum + l.sum, count := g2.count + l.count)
  }

  /**
   * Merging is lossless: merging the cells of two runs of values gives the
   * cell of the two runs one after the other.
   */
  lemma MergeCellOf(xs: seq<real>, ys: seq<real>)
    ensures MergeCell(CellOf(xs), CellOf(ys)) == CellOf(xs + ys)
  {
    if ys == [] {
      MergeNothing(xs);
    } else if xs == [] {
      MergeIntoEmpty(ys);
    } else {
      MergeNonEmpty(xs, ys);
    }
  }

  /** `MergeCellOf` when the thread counted nothing: the merge is skipped. */
  lemma MergeNothing(xs: seq<real>)
    ensures MergeCell(CellOf(xs), CellOf([])) == CellOf(xs + [])
  {
    assert xs + [] == xs;
  }

  /** `MergeCellOf` when the global cell is still empty: it takes the thread's cell. */
  lemma MergeIntoEmpty(ys: seq<real>)
    requires ys != []
    ensures MergeCell(CellOf([]), CellOf(ys)) == CellOf([] + ys)
  {
    assert [] + ys == ys;
    CellOfSummary(ys);
  }

  /** `MergeCellOf` for two non-empty runs, where both cells hold finite bounds. */
  lemma MergeNonEmpty(xs: seq<real>, ys: seq<real>)
    requires xs != [] && ys != []
    ensures MergeCell(CellOf(xs), CellOf(ys)) == CellOf(xs + ys)
  {
    var cx, cy := CellOf(xs), CellOf(ys);
    assert cx == CellStats(Finite(SeqMax(xs)), Finite(SeqMin(xs)), SeqSum(xs), |xs|) by {
      CellOfSummary(xs);
    }
    assert cy == CellStats(Finite(SeqMax(ys)), Finite(SeqMin(ys)), SeqSum(ys), |ys|) by {
      CellOfSummary(ys);
    }
    MergeFinite(cx, cy);
    assert CellOf(xs + ys) == MergeCell(cx, cy) by {
      CellOfSummary(xs + ys);
      SeqSumAppend(xs, ys);
      SeqMaxAppend(xs, ys);
      SeqMinAppend(xs, ys);
    }
  }

  /** Merging two non-empty cells takes the larger maximum and the smaller minimum. */
  lemma MergeFinite(g: CellStats, l: CellStats)
    requires g.max.Finite? && g.min.Finite? && l.max.Finite? && l.min.Finite? && l.count > 0
    ensures MergeCell(g, l) == CellStats(
      Finite(if l.max.v > g.max.v then l.max.v else g.max.v),
      Finite(if l.min.v < g.min.v then l.min.v else g.min.v),
      g.sum + l.sum, g.count + l.count)
  {
  }

  /** `entry_matches`: same year, same month, and `strcmp` finds the devices equal. */
  predicate EntryMatches(e: StatsEntry, device: string, y: int, m: int) {
    e.year == y && e.month == m && StrCmp(e.device, device) == 0
  }

  /** `entry_matches` is key equality. */
  lemma EntryMatchesKey(e: StatsEntry, device: string, y: int, m: int)
    ensures EntryMatches(e, device, y, m) <==> (e.device == device && e.year == y && e.month == m)
  {
    StrCmpZero(e.device, device);
  }

  /** The first entry with this key, if any. */
  function Lookup(entries: seq<StatsEntry>, device: string, y: int, m: int): (r: Option<nat>)
    ensures r.Some? ==> r.value < |entries| && EntryMatches(entries[r.value], device, y, m)
    ensures r.Some? ==> forall j :: 0 <= j < r.value ==> !EntryMatches(entries[j], device, y, m)
    ensures r.None? ==> forall j :: 0 <= j < |entries| ==> !EntryMatches(entries[j], device, y, m)
  {
    if entries == [] then None
    else if EntryMatches(entries[0], device, y, m) then Some(0)
    else match Lookup(entries[1..], device, y, m)
      case None => None
      case Some(i) => Some(i + 1)
  }

  /** `strncpy(e->device, device, KEY_MAX - 1)` followed by the terminator: at most 63 characters. */
  function Truncate(s: string): (r: string)
    ensures |r| < KeyMax
    ensures |s| < KeyMax ==> r == s
    ensures r == s[..|r|]
  {
    if |s| < KeyMax then s else s[..KeyMax - 1]
  }

  /** A new entry: the truncated device, the period, six empty cells. */
  function NewEntry(device: string, y: int, m: int): StatsEntry {
    StatsEntry(Truncate(device), y, m, EmptyCells())
  }

  /** The entries after `table_get_or_create`: unchanged when the key is present, one appended otherwise. */
  function Located(entries: seq<StatsEntry>, device: string, y: int, m: int): seq<StatsEntry> {
    if Lookup(entries, device, y, m).Some? then entries else entries + [NewEntry(device, y, m)]
  }

  /** The position `table_get_or_create` returns. */
  function SlotOf(entries: seq<StatsEntry>, device: string, y: int, m: int): (i: nat)
    ensures i < |Located(entries, device, y, m)|
  {
    match Lookup(entries, device, y, m)
    case Some(i) => i
    case None => |entries|
  }

  /** Two entries with the same key. */
  predicate SameKey(a: StatsEntry, b: StatsEntry) {
    a.device == b.device && a.year == b.year && a.month == b.month
  }

  /** No key occurs twice. */
  predicate UniqueKeys(entries: seq<StatsEntry>) {
    forall i, j :: 0 <= i < j < |entries| ==> !SameKey(entries[i], entries[j])
  }

  /** Every stored device fits in `KEY_MAX`. */
  predicate ShortDevices(entries: seq<StatsEntry>) {
    forall i :: 0 <= i < |entries| ==> |entries[i].device| < KeyMax
  }

  /**
   * `table_get_or_create`: when an entry has the key, the table is unchanged
   * and the position is that of the first such entry; otherwise exactly one
   * entry is appended, with the (truncated) device, the period and six
   * empty cells, and its position is returned. Keys stay unique when the
   * device fits in `KEY_MAX`: a longer one is stored truncated and would
   * not be found again.
   */
  lemma LocatedSpec(entries: seq<StatsEntry>, device: string, y: int, m: int)
    ensures var r, i := Located(entries, device, y, m), SlotOf(entries, device, y, m);
      (exists j :: 0 <= j < |entries| && EntryMatches(entries[j], device, y, m)) ==>
        r == entries && EntryMatches(r[i], device, y, m) &&
        forall j :: 0 <= j < i ==> !EntryMatches(entries[j], device, y, m)
    ensures var r, i := Located(entries, device, y, m), SlotOf(entries, device, y, m);
      (forall j :: 0 <= j < |entries| ==> !EntryMatches(entries[j], device, y, m)) ==>
        r == entries + [NewEntry(device, y, m)] && i == |entries| &&
        r[i].device == Truncate(device) && r[i].year == y && r[i].month == m &&
        forall s :: 0 <= s < SensorCount ==> r[i].sensor[s] == EmptyCell()
    ensures ShortDevices(entries) ==> ShortDevices(Located(entries, device, y, m))
    ensures UniqueKeys(entries) && |device| < KeyMax ==> UniqueKeys(Located(entries, device, y, m))
  {
    var r := Located(entries, device, y, m);
    if Lookup(entries, device, y, m).None? {
      if UniqueKeys(entries) && |device| < KeyMax {
        forall j | 0 <= j < |entries| ensures !SameKey(r[j], r[|entries|]) {
          EntryMatchesKey(entries[j], device, y, m);
        }
      }
    }
  }

  /** With unique keys, the entry found is the only one with the key. */
  lemma LookupUnique(entries: seq<StatsEntry>, i: nat)
    requires UniqueKeys(entries) && i < |entries|
    ensures Lookup(entries, entries[i].device, entries[i].year, entries[i].month) == Some(i)
  {
    var e := entries[i];
    EntryMatchesKey(e, e.device, e.year, e.month);
    var r := Lookup(entries, e.device, e.year, e.month);
    if r.Some? {
      EntryMatchesKey(entries[r.value], e.device, e.year, e.month);
    }
  }

  /** Entries with the same keys, position by position, are looked up alike. */
  lemma LookupSameKeys(a: seq<StatsEntry>, b: seq<StatsEntry>, device: string, y: int, m: int)
    requires |a| == |b| && forall j :: 0 <= j < |a| ==> SameKey(a[j], b[j])
    ensures Lookup(a, device, y, m) == Lookup(b, device, y, m)
  {
    var ra, rb := Lookup(a, device, y, m), Lookup(b, device, y, m);
    if ra.Some? {
      assert EntryMatches(b[ra.value], device, y, m);
    }
    if rb.Some? {
      assert EntryMatches(a[rb.value], device, y, m);
    }
  }

  /** The cell of a key and sensor: the entry's, or an empty one when the key is absent. */
  function CellAt(entries: seq<StatsEntry>, device: string, y: int, m: int, s: Sensor): CellStats {
    match Lookup(entries, device, y, m)
    case Some(i) => entries[i].sensor[s]
    case None => EmptyCell()
  }

  /**
   * The malloc'd `StatsTable`: its entries (`size` is their number) and its
   * capacity.
   */
  class StatsTable {
    var entries: seq<StatsEntry>
    var capacity: nat

    predicate Valid()
      reads this
    {
      0 < capacity && |entries| <= capacity
    }

    /** `table_init`: empty, with the given capacity. */
    constructor (cap: nat)
      requires cap > 0
      ensures Valid() && entries == [] && capacity == cap
    {
      entries := [];
      capacity := cap;
    }

    /** `table_grow`: the capacity doubles, the entries stay. */
    method Grow()
      modifies this
      ensures capacity == 2 * old(capacity) && entries == old(entries)
    {
      capacity := capacity * 2;
    }

    /**
     * `table_get_or_create`: a linear scan with `entry_matches`; when
     * nothing matches, the table grows if full and a new entry is appended.
     */
    method GetOrCreate(device: string, y: int, m: int) returns (i: nat)
      requires Valid()
      modifies this
      ensures Valid()
      ensures entries == Located(old(entries), device, y, m)
      ensures i == SlotOf(old(entries), device, y, m) && i < |entries|
      ensures capacity ==
        if Lookup(old(entries), device, y, m).None? && |old(entries)| == old(capacity)
        then 2 * old(capacity) else old(capacity)
    {
      var k := 0;
      while k < |entries|
        invariant 0 <= k <= |entries|
        invariant forall j :: 0 <= j < k ==> !EntryMatches(entries[j], device, y, m)
      {
        if EntryMatches(entries[k], device, y, m) {
          return k;
        }
        k := k + 1;
      }
      if |entries| == capacity {
        Grow();
      }
      entries := entries + [NewEntry(device, y, m)];
      i := |entries| - 1;
    }

    /** The per-sensor update of `thread_fn` on one cell. */
    method AddValueAt(i: nat, s: Sensor, v: real)
      requires i < |entries|
      modifies this
      ensures entries == old(entries)[i := old(entries)[i].(sensor := old(entries)[i].sensor[s := AddValue(old(entries)[i].sensor[s], v)])]
      ensures capacity == old(capacity)
    {
      var st := entries[i].sensor[s];
      if Exceeds(v, st.max) {
        st := st.(max := Finite(v));
      }
      if Undercuts(v, st.min) {
        st := st.(min := Finite(v));
      }
      st := st.(sum := st.sum + v);
      st := st.(count := st.count + 1);
      entries := entries[i := entries[i].(sensor := entries[i].sensor[s := st])];
    }

    /** The per-sensor step of the merge in `process_csv_mt` on one cell. */
    method MergeAt(i: nat, s: Sensor, l: CellStats)
      requires i < |entries|
      modifies this
      ensures entries == old(entries)[i := old(entries)[i].(sensor := old(entries)[i].sensor[s := MergeCell(old(entries)[i].sensor[s], l)])]
      ensures capacity == old(capacity)
    {
      var gs := entries[i].sensor[s];
      if l.count == 0 {
        assert entries[i].sensor[s := gs] == entries[i].sensor;
        assert entries[i := entries[i]] == entries;
        return;
      }
      if BoundAbove(l.max, gs.max) {
        gs := gs.(max := l.max);
      }
      if BoundBelow(l.min, gs.min) {
        gs := gs.(min := l.min);
      }
      gs := gs.(sum := gs.sum + l.sum);
      gs := gs.(count := gs.count + l.count);
      entries := entries[i := entries[i].(sensor := entries[i].sensor[s := gs])];
    }
  }
}
