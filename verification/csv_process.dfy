/**
 * The multi-threaded aggregation of `csv_processor.c`: each thread parses
 * its share of the lines into a local chunk table (`thread_fn`), and the
 * main thread merges the local tables, one after another, into a global
 * one (`process_csv_mt`).
 *
 * The threads are modelled as running one after another, all of them
 * first, after which their tables are merged in thread order, the order in
 * which the main thread joins them. The threads share nothing but the
 * read-only lines, so the order in which they run does not change any table.
 */
module CsvProcess {
  import opened Wrappers
  import opened CStrings
  import opened Aggregates
  import opened ChunkTable
  import opened CsvParse

  // Keys and cells

  /** The six cells stored under a key, or six empty cells when the key is absent. */
  function CellsAt(entries: seq<StatsEntry>, device: string, y: int, m: int): (cs: Cells)
    ensures forall s :: 0 <= s < SensorCount ==> cs[s] == CellAt(entries, device, y, m, s)
  {
    match Lookup(entries, device, y, m)
    case Some(i) => entries[i].sensor
    case None => EmptyCells()
  }

  /**
   * The entries after `table_get_or_create` for a key and an update of the
   * entry it returns, whose cells become `cells`.
   */
  function Store(entries: seq<StatsEntry>, device: string, y: int, m: int, cells: Cells): seq<StatsEntry> {
    var located := Located(entries, device, y, m);
    var i := SlotOf(entries, device, y, m);
    located[i := located[i].(sensor := cells)]
  }

  /** The entry `table_get_or_create` returns holds the cells stored under the key (empty ones when new). */
  lemma LocatedCells(entries: seq<StatsEntry>, device: string, y: int, m: int)
    ensures Located(entries, device, y, m)[SlotOf(entries, device, y, m)].sensor == CellsAt(entries, device, y, m)
  {
  }

  /** Appending an entry that does not match a key does not change where that key is found. */
  lemma {:induction false} LookupAppendOther(entries: seq<StatsEntry>, e: StatsEntry, device: string, y: int, m: int)
    requires !EntryMatches(e, device, y, m)
    ensures Lookup(entries + [e], device, y, m) == Lookup(entries, device, y, m)
  {
    if entries == [] {
      assert (entries + [e])[1..] == [];
    } else {
      assert (entries + [e])[0] == entries[0];
      assert (entries + [e])[1..] == entries[1..] + [e];
      LookupAppendOther(entries[1..], e, device, y, m);
    }
  }

  /**
   * Storing cells under a key of at most 63 characters keeps the keys unique
   * and every device short, gives that key exactly the stored cells, and
   * leaves every other key's cells as they were.
   */
  lemma StoreCells(entries: seq<StatsEntry>, device: string, y: int, m: int, cells: Cells,
                   qd: string, qy: int, qm: int)
    requires UniqueKeys(entries) && ShortDevices(entries) && |device| < KeyMax
    ensures var r := Store(entries, device, y, m, cells);
      UniqueKeys(r) && ShortDevices(r) &&
      CellsAt(r, qd, qy, qm) == if qd == device && qy == y && qm == m then cells else CellsAt(entries, qd, qy, qm)
  {
    StoreKeys(entries, device, y, m, cells);
    if qd == device && qy == y && qm == m {
      StoreSameKey(entries, device, y, m, cells);
    } else {
      StoreOtherKey(entries, device, y, m, cells, qd, qy, qm);
    }
  }

  /** Storing keeps every entry's key, so the keys stay unique and the devices short. */
  lemma StoreKeys(entries: seq<StatsEntry>, device: string, y: int, m: int, cells: Cells)
    requires UniqueKeys(entries) && ShortDevices(entries) && |device| < KeyMax
    ensures var located, r := Located(entries, device, y, m), Store(entries, device, y, m, cells);
      |r| == |located| && (forall j :: 0 <= j < |r| ==> SameKey(located[j], r[j])) &&
      UniqueKeys(located) && UniqueKeys(r) && ShortDevices(r)
  {
    var located := Located(entries, device, y, m);
    var r := Store(entries, device, y, m, cells);
    LocatedSpec(entries, device, y, m);
    assert forall j :: 0 <= j < |r| ==> SameKey(located[j], r[j]);
    assert UniqueKeys(r) by {
      forall a, b | 0 <= a < b < |r| ensures !SameKey(r[a], r[b]) {
        assert !SameKey(located[a], located[b]);
      }
    }
  }

  /** The stored key holds exactly the stored cells. */
  lemma StoreSameKey(entries: seq<StatsEntry>, device: string, y: int, m: int, cells: Cells)
    requires UniqueKeys(entries) && ShortDevices(entries) && |device| < KeyMax
    ensures CellsAt(Store(entries, device, y, m, cells), device, y, m) == cells
  {
    var located := Located(entries, device, y, m);
    var i := SlotOf(entries, device, y, m);
    var r := Store(entries, device, y, m, cells);
    StoreKeys(entries, device, y, m, cells);
    LocatedSpec(entries, device, y, m);
    assert located[i].device == device && located[i].year == y && located[i].month == m by {
      EntryMatchesKey(located[i], device, y, m);
    }
    LookupSameKeys(located, r, device, y, m);
    LookupUnique(located, i);
  }

  /** Every other key keeps the cells it had. */
  lemma StoreOtherKey(entries: seq<StatsEntry>, device: string, y: int, m: int, cells: Cells,
                      qd: string, qy: int, qm: int)
    requires UniqueKeys(entries) && ShortDevices(entries) && |device| < KeyMax
    requires !(qd == device && qy == y && qm == m)
    ensures CellsAt(Store(entries, device, y, m, cells), qd, qy, qm) == CellsAt(entries, qd, qy, qm)
  {
    var located := Located(entries, device, y, m);
    var i := SlotOf(entries, device, y, m);
    var r := Store(entries, device, y, m, cells);
    StoreKeys(entries, device, y, m, cells);
    LocatedSpec(entries, device, y, m);
    assert located[i].device == device && located[i].year == y && located[i].month == m by {
      EntryMatchesKey(located[i], device, y, m);
    }
    LookupSameKeys(located, r, qd, qy, qm);
    EntryMatchesKey(located[i], qd, qy, qm);
    if Lookup(entries, device, y, m).None? {
      EntryMatchesKey(NewEntry(device, y, m), qd, qy, qm);
      LookupAppendOther(entries, NewEntry(device, y, m), qd, qy, qm);
    }
    var found := Lookup(located, qd, qy, qm);
    if found.Some? {
      assert found.value != i;
    }
  }

  // thread_fn

  /** `thread_fn`'s filter: the period is March 2024 or later and a device was read. */
  predicate Accepted(p: ParsedLine) {
    !(p.year < 2024 || (p.year == 2024 && p.month < 3) || p.device == "")
  }

  /** A line as `thread_fn` parses it: into an empty device and a zero year and month. */
  function Parsed(line: string): ParsedLine {
    ParseLine(line, "", 0, 0)
  }

  /** Every line, parsed. */
  function ParsedAll(lines: seq<string>): (ps: seq<ParsedLine>)
    ensures |ps| == |lines| && forall i :: 0 <= i < |lines| ==> ps[i] == Parsed(lines[i])
  {
    seq(|lines|, i requires 0 <= i < |lines| => Parsed(lines[i]))
  }

  /** Parsed lines whose devices fit in `KEY_MAX`. */
  predicate ShortParsed(ps: seq<ParsedLine>) {
    forall i :: 0 <= i < |ps| ==> |ps[i].device| < KeyMax
  }

  /** `parse_line` never reports a device longer than 63 characters. */
  lemma ParsedAllShort(lines: seq<string>)
    ensures ShortParsed(ParsedAll(lines))
  {
    forall i | 0 <= i < |lines| ensures |Parsed(lines[i]).device| < KeyMax {
      ParsedDeviceFits(lines[i], "", 0, 0);
    }
  }

  /** The cells after the sensors below n that the line reports are added. */
  function ObservedUpTo(cells: Cells, p: ParsedLine, n: nat): Cells {
    seq(SensorCount, s requires 0 <= s < SensorCount => if s < n && p.prs[s] then AddValue(cells[s], p.val[s]) else cells[s])
  }

  /** The cells after every sensor the line reports is added. */
  function Observed(cells: Cells, p: ParsedLine): Cells {
    ObservedUpTo(cells, p, SensorCount)
  }

  /** One line of `thread_fn`: a rejected line changes nothing; an accepted one updates its key's cells. */
  function ApplyLine(entries: seq<StatsEntry>, p: ParsedLine): seq<StatsEntry> {
    if !Accepted(p) then entries
    else Store(entries, p.device, p.year, p.month, Observed(CellsAt(entries, p.device, p.year, p.month), p))
  }

  /** The local table after `thread_fn` has gone through the parsed lines, in order. */
  function ThreadEntries(ps: seq<ParsedLine>): seq<StatsEntry> {
    if ps == [] then [] else ApplyLine(ThreadEntries(ps[..|ps| - 1]), ps[|ps| - 1])
  }

  /** Whether the parsed line adds a value to sensor s of the key. */
  predicate Contributes(p: ParsedLine, device: string, y: int, m: int, s: Sensor) {
    Accepted(p) && p.device == device && p.year == y && p.month == m && p.prs[s]
  }

  /** The values the parsed lines give sensor s of a key, in line order. */
  function KeyValues(ps: seq<ParsedLine>, device: string, y: int, m: int, s: Sensor): seq<real> {
    if ps == [] then []
    else
      var p := ps[|ps| - 1];
      KeyValues(ps[..|ps| - 1], device, y, m, s) + (if Contributes(p, device, y, m, s) then [p.val[s]] else [])
  }

  /** The values of two runs of lines are those of the first followed by those of the second. */
  lemma {:induction false} KeyValuesAppend(xs: seq<ParsedLine>, ys: seq<ParsedLine>, device: string, y: int, m: int, s: Sensor)
    ensures KeyValues(xs + ys, device, y, m, s) == KeyValues(xs, device, y, m, s) + KeyValues(ys, device, y, m, s)
  {
    if ys == [] {
      assert xs + ys == xs;
    } else {
      var zs := xs + ys;
      assert zs[..|zs| - 1] == xs + ys[..|ys| - 1];
      assert zs[|zs| - 1] == ys[|ys| - 1];
      KeyValuesAppend(xs, ys[..|ys| - 1], device, y, m, s);
    }
  }

  /** One more value at the end of a run: the cell adds it. */
  lemma CellOfSnoc(vs: seq<real>, v: real)
    ensures CellOf(vs + [v]) == AddValue(CellOf(vs), v)
  {
    assert (vs + [v])[..|vs|] == vs;
  }

  /**
   * What `thread_fn` computes: every cell of its local table holds exactly
   * the values its lines give that key and sensor, in line order; keys are
   * unique and every device fits in `KEY_MAX`.
   */
  lemma {:induction false} ThreadCells(ps: seq<ParsedLine>, device: string, y: int, m: int, s: Sensor)
    requires ShortParsed(ps)
    ensures UniqueKeys(ThreadEntries(ps)) && ShortDevices(ThreadEntries(ps))
    ensures CellAt(ThreadEntries(ps), device, y, m, s) == CellOf(KeyValues(ps, device, y, m, s))
  {
    if ps != [] {
      var init, p := ps[..|ps| - 1], ps[|ps| - 1];
      var e := ThreadEntries(init);
      ThreadCells(init, device, y, m, s);
      var before := KeyValues(init, device, y, m, s);
      if Accepted(p) {
        var cells := Observed(CellsAt(e, p.device, p.year, p.month), p);
        StoreCells(e, p.device, p.year, p.month, cells, device, y, m);
        if Contributes(p, device, y, m, s) {
          CellOfSnoc(before, p.val[s]);
        } else {
          assert before + [] == before;
        }
      } else {
        assert before + [] == before;
      }
    }
  }

  // The merge of process_csv_mt

  /** The global cells after the sensors below n are merged with the local ones. */
  function MergeCellsUpTo(g: Cells, l: Cells, n: nat): Cells {
    seq(SensorCount, s requires 0 <= s < SensorCount => if s < n then MergeCell(g[s], l[s]) else g[s])
  }

  /** The merged cells of a global and a local entry, sensor by sensor. */
  function MergeCells(g: Cells, l: Cells): Cells {
    MergeCellsUpTo(g, l, SensorCount)
  }

  /** One local entry merged into the global table through `table_get_or_create`. */
  function MergeEntry(global: seq<StatsEntry>, e: StatsEntry): seq<StatsEntry> {
    Store(global, e.device, e.year, e.month, MergeCells(CellsAt(global, e.device, e.year, e.month), e.sensor))
  }

  /** The local entries merged into the global table, in order. */
  function MergeTable(global: seq<StatsEntry>, local: seq<StatsEntry>): seq<StatsEntry> {
    if local == [] then global else MergeEntry(MergeTable(global, local[..|local| - 1]), local[|local| - 1])
  }

  /** A non-empty sequence is its front and its last element. */
  lemma FrontLast<T>(xs: seq<T>)
    requires xs != []
    ensures xs == xs[..|xs| - 1] + [xs[|xs| - 1]]
  {
  }

  /** Keys stay unique in a prefix. */
  lemma PrefixKeys(entries: seq<StatsEntry>, n: nat)
    requires n <= |entries| && UniqueKeys(entries) && ShortDevices(entries)
    ensures UniqueKeys(entries[..n]) && ShortDevices(entries[..n])
  {
    assert forall j :: 0 <= j < n ==> entries[..n][j] == entries[j];
  }

  /**
   * Merging a local table into the global one: every key's cells become the
   * merge of its global cells and its local cells, and the keys stay unique.
   */
  lemma {:induction false} MergeTableCells(global: seq<StatsEntry>, local: seq<StatsEntry>, device: string, y: int, m: int)
    requires UniqueKeys(global) && ShortDevices(global) && UniqueKeys(local) && ShortDevices(local)
    ensures UniqueKeys(MergeTable(global, local)) && ShortDevices(MergeTable(global, local))
    ensures CellsAt(MergeTable(global, local), device, y, m) ==
      MergeCells(CellsAt(global, device, y, m), CellsAt(local, device, y, m))
  {
    if local == [] {
      assert CellsAt(local, device, y, m) == EmptyCells();
      assert MergeCells(CellsAt(global, device, y, m), EmptyCells()) == CellsAt(global, device, y, m);
    } else {
      var n := |local| - 1;
      var init, e := local[..n], local[n];
      PrefixKeys(local, n);
      var x := MergeTable(global, init);
      MergeTableCells(global, init, device, y, m);
      MergeTableCells(global, init, e.device, e.year, e.month);
      MergeEntryCells(x, e, device, y, m);
      LastEntryCells(local, device, y, m);
      if device == e.device && y == e.year && m == e.month {
        var g := CellsAt(global, device, y, m);
        assert MergeCells(MergeCells(g, EmptyCells()), e.sensor) == MergeCells(g, e.sensor);
      }
    }
  }

  /** Merging one entry changes the cells of its key alone, merging the entry's cells into them. */
  lemma MergeEntryCells(global: seq<StatsEntry>, e: StatsEntry, device: string, y: int, m: int)
    requires UniqueKeys(global) && ShortDevices(global) && |e.device| < KeyMax
    ensures UniqueKeys(MergeEntry(global, e)) && ShortDevices(MergeEntry(global, e))
    ensures CellsAt(MergeEntry(global, e), device, y, m) ==
      if device == e.device && y == e.year && m == e.month then MergeCells(CellsAt(global, device, y, m), e.sensor)
      else CellsAt(global, device, y, m)
  {
    StoreCells(global, e.device, e.year, e.month, MergeCells(CellsAt(global, e.device, e.year, e.month), e.sensor), device, y, m);
  }

  /**
   * In a table with unique keys, the last entry holds its key's cells, which
   * no earlier entry has, and every other key is found among the earlier ones.
   */
  lemma LastEntryCells(local: seq<StatsEntry>, device: string, y: int, m: int)
    requires local != [] && UniqueKeys(local)
    ensures var n := |local| - 1; var e := local[n];
      if device == e.device && y == e.year && m == e.month
      then CellsAt(local, device, y, m) == e.sensor && CellsAt(local[..n], device, y, m) == EmptyCells()
      else CellsAt(local, device, y, m) == CellsAt(local[..n], device, y, m)
  {
    var n := |local| - 1;
    var init, e := local[..n], local[n];
    FrontLast(local);
    if device == e.device && y == e.year && m == e.month {
      LookupUnique(local, n);
      forall j | 0 <= j < |init| ensures !EntryMatches(init[j], device, y, m) {
        EntryMatchesKey(init[j], device, y, m);
        assert !SameKey(local[j], local[n]);
      }
    } else {
      EntryMatchesKey(e, device, y, m);
      LookupAppendOther(init, e, device, y, m);
    }
  }

  // The chunk split of process_csv_mt

  /** `SIZE_MAX + 1`: `size_t` arithmetic is modulo this. */
  const SizeModulus: nat := 0x1_0000_0000_0000_0000

  /** `sysconf` reporting no processor falls back to 2 threads. */
  function Threads(online: int): (n: nat)
    ensures n > 0
  {
    if online <= 0 then 2 else online
  }

  /** `chunk = (nlines + nproc - 1) / nproc`: the number of lines per thread, rounded up. */
  function ChunkSize(nlines: nat, nproc: nat): nat
    requires nproc > 0
  {
    (nlines + nproc - 1) / nproc
  }

  /** Rounding up makes the chunks cover the lines: nproc chunks hold at least nlines. */
  lemma ChunksCover(nlines: nat, nproc: nat)
    requires nproc > 0
    ensures nproc * ChunkSize(nlines, nproc) >= nlines
  {
    var c := ChunkSize(nlines, nproc);
    var r := (nlines + nproc - 1) % nproc;
    assert nlines + nproc - 1 == nproc * c + r;
  }

  /** The thread's line count as written: `b - a` in `size_t`, with `a = t * chunk` not clamped. */
  function ChunkCountAsWritten(nlines: nat, nproc: nat, t: nat): nat
    requires nproc > 0
  {
    var chunk := ChunkSize(nlines, nproc);
    var a := t * chunk;
    var b := if a + chunk > nlines then nlines else a + chunk;
    (b - a) % SizeModulus
  }

  /**
   * Five lines on four processors: chunks of two, and the last thread starts
   * at line 6, past the end, so its count wraps around to `SIZE_MAX`.
   */
  lemma ChunkOverrun()
    ensures ChunkSize(5, 4) == 2
    ensures ChunkCountAsWritten(5, 4, 3) == SizeModulus - 1
  {
  }

  /** Where the written count is right: as long as the thread starts within the lines. */
  lemma ChunkCountAgrees(nlines: nat, nproc: nat, t: nat)
    requires nproc > 0 && nlines < SizeModulus && t * ChunkSize(nlines, nproc) <= nlines
    ensures ChunkCountAsWritten(nlines, nproc, t) == ChunkEnd(nlines, nproc, t) - ChunkStart(nlines, nproc, t)
  {
  }

  /** The first line of thread t, clamped to the number of lines. */
  function ChunkStart(nlines: nat, nproc: nat, t: nat): (a: nat)
    requires nproc > 0
    ensures a <= nlines
  {
    var a := t * ChunkSize(nlines, nproc);
    if a > nlines then nlines else a
  }

  /** One past the last line of thread t. */
  function ChunkEnd(nlines: nat, nproc: nat, t: nat): (b: nat)
    requires nproc > 0
    ensures ChunkStart(nlines, nproc, t) <= b <= nlines
  {
    var b := t * ChunkSize(nlines, nproc) + ChunkSize(nlines, nproc);
    if b > nlines then nlines else b
  }

  /** The lines of thread t. */
  function Chunk<T>(lines: seq<T>, nproc: nat, t: nat): seq<T>
    requires nproc > 0
  {
    lines[ChunkStart(|lines|, nproc, t)..ChunkEnd(|lines|, nproc, t)]
  }

  /** The chunks of threads 0 to n - 1, one after another. */
  function Chunks<T>(lines: seq<T>, nproc: nat, n: nat): seq<T>
    requires nproc > 0
  {
    if n == 0 then [] else Chunks(lines, nproc, n - 1) + Chunk(lines, nproc, n - 1)
  }

  /** Each chunk ends where the next one starts. */
  lemma ChunkAdjacent(nlines: nat, nproc: nat, t: nat)
    requires nproc > 0
    ensures ChunkEnd(nlines, nproc, t) == ChunkStart(nlines, nproc, t + 1)
  {
    var c := ChunkSize(nlines, nproc);
    assert t * c + c == (t + 1) * c;
  }

  /** The first n chunks are the lines before thread n's start. */
  lemma {:induction false} ChunksPrefix<T>(lines: seq<T>, nproc: nat, n: nat)
    requires nproc > 0
    ensures Chunks(lines, nproc, n) == lines[..ChunkStart(|lines|, nproc, n)]
  {
    if n > 0 {
      ChunksPrefix(lines, nproc, n - 1);
      ChunkAdjacent(|lines|, nproc, n - 1);
      var a, b := ChunkStart(|lines|, nproc, n - 1), ChunkStart(|lines|, nproc, n);
      assert lines[..a] + lines[a..b] == lines[..b];
    }
  }

  /** With the clamped split, the threads' chunks together are the lines, in order, each once. */
  lemma ChunksPartition<T>(lines: seq<T>, nproc: nat)
    requires nproc > 0
    ensures Chunks(lines, nproc, nproc) == lines
  {
    ChunksPrefix(lines, nproc, nproc);
    ChunksCover(|lines|, nproc);
    assert lines[..|lines|] == lines;
  }

  /** The global table once the first n threads are merged. */
  function Merged(ps: seq<ParsedLine>, nproc: nat, n: nat): seq<StatsEntry>
    requires nproc > 0
  {
    if n == 0 then [] else MergeTable(Merged(ps, nproc, n - 1), ThreadEntries(Chunk(ps, nproc, n - 1)))
  }

  /** Once n threads are merged, every cell holds exactly the values of their chunks. */
  lemma {:induction false} MergedCells(ps: seq<ParsedLine>, nproc: nat, n: nat, device: string, y: int, m: int, s: Sensor)
    requires nproc > 0 && ShortParsed(ps)
    ensures UniqueKeys(Merged(ps, nproc, n)) && ShortDevices(Merged(ps, nproc, n))
    ensures CellAt(Merged(ps, nproc, n), device, y, m, s) == CellOf(KeyValues(Chunks(ps, nproc, n), device, y, m, s))
  {
    if n > 0 {
      var before := Merged(ps, nproc, n - 1);
      var chunk := Chunk(ps, nproc, n - 1);
      var local := ThreadEntries(chunk);
      var merged := MergeTable(before, local);
      var xs, ys := KeyValues(Chunks(ps, nproc, n - 1), device, y, m, s), KeyValues(chunk, device, y, m, s);
      assert UniqueKeys(before) && ShortDevices(before) && CellAt(before, device, y, m, s) == CellOf(xs) by {
        MergedCells(ps, nproc, n - 1, device, y, m, s);
      }
      assert UniqueKeys(local) && ShortDevices(local) && CellAt(local, device, y, m, s) == CellOf(ys) by {
        ChunkShort(ps, nproc, n - 1);
        ThreadCells(chunk, device, y, m, s);
      }
      assert UniqueKeys(merged) && ShortDevices(merged) &&
        CellsAt(merged, device, y, m) == MergeCells(CellsAt(before, device, y, m), CellsAt(local, device, y, m)) by {
        MergeTableCells(before, local, device, y, m);
      }
      assert KeyValues(Chunks(ps, nproc, n), device, y, m, s) == xs + ys by {
        KeyValuesAppend(Chunks(ps, nproc, n - 1), chunk, device, y, m, s);
      }
      MergeCellStep(before, local, merged, device, y, m, s, xs, ys);
    }
  }

  /** A chunk of lines that all report short devices reports short devices too. */
  lemma ChunkShort(ps: seq<ParsedLine>, nproc: nat, t: nat)
    requires nproc > 0 && ShortParsed(ps)
    ensures ShortParsed(Chunk(ps, nproc, t))
  {
    var a := ChunkStart(|ps|, nproc, t);
    forall i | 0 <= i < |Chunk(ps, nproc, t)| ensures |Chunk(ps, nproc, t)[i].device| < KeyMax {
      assert Chunk(ps, nproc, t)[i] == ps[a + i];
    }
  }

  /** One cell of a merged table holds the values of the global cell followed by those of the local one. */
  lemma MergeCellStep(global: seq<StatsEntry>, local: seq<StatsEntry>, merged: seq<StatsEntry>,
                      device: string, y: int, m: int, s: Sensor, xs: seq<real>, ys: seq<real>)
    requires CellsAt(merged, device, y, m) == MergeCells(CellsAt(global, device, y, m), CellsAt(local, device, y, m))
    requires CellAt(global, device, y, m, s) == CellOf(xs) && CellAt(local, device, y, m, s) == CellOf(ys)
    ensures CellAt(merged, device, y, m, s) == CellOf(xs + ys)
  {
    calc {
      CellAt(merged, device, y, m, s);
      CellsAt(merged, device, y, m)[s];
      MergeCell(CellsAt(global, device, y, m)[s], CellsAt(local, device, y, m)[s]);
      MergeCell(CellOf(xs), CellOf(ys));
      { MergeCellOf(xs, ys); }
      CellOf(xs + ys);
    }
  }

  /**
   * The result of `process_csv_mt`: every cell of the global table holds
   * exactly the values the lines give that key and sensor, in line order,
   * whatever the number of threads; the keys are unique.
   */
  lemma ProcessCells(lines: seq<string>, nproc: nat, device: string, y: int, m: int, s: Sensor)
    requires nproc > 0
    ensures UniqueKeys(Merged(ParsedAll(lines), nproc, nproc))
    ensures CellAt(Merged(ParsedAll(lines), nproc, nproc), device, y, m, s) ==
      CellOf(KeyValues(ParsedAll(lines), device, y, m, s))
  {
    var ps := ParsedAll(lines);
    ParsedAllShort(lines);
    MergedCells(ps, nproc, nproc, device, y, m, s);
    ChunksPartition(ps, nproc);
  }

  // The methods

  /** `thread_fn`'s sensor loop on the entry it got: every reported sensor's cell takes the value. */
  method Accumulate(table: StatsTable, i: nat, p: ParsedLine)
    requires i < |table.entries|
    modifies table
    ensures table.entries == old(table.entries)[i := old(table.entries)[i].(sensor := Observed(old(table.entries)[i].sensor, p))]
    ensures table.capacity == old(table.capacity)
  {
    ghost var before := table.entries;
    ghost var cells := before[i].sensor;
    assert ObservedUpTo(cells, p, 0) == cells;
    assert before[i := before[i].(sensor := cells)] == before;
    var s := 0;
    while s < SensorCount
      invariant 0 <= s <= SensorCount
      invariant table.entries == before[i := before[i].(sensor := ObservedUpTo(cells, p, s))]
      invariant table.capacity == old(table.capacity)
    {
      if p.prs[s] {
        table.AddValueAt(i, s, p.val[s]);
        assert ObservedUpTo(cells, p, s)[s := AddValue(ObservedUpTo(cells, p, s)[s], p.val[s])] == ObservedUpTo(cells, p, s + 1);
      } else {
        assert ObservedUpTo(cells, p, s) == ObservedUpTo(cells, p, s + 1);
      }
      s := s + 1;
    }
  }

  /** `thread_fn`: a local table of 64 entries, then each line parsed, filtered and added. */
  method ThreadFn(lines: seq<string>) returns (table: StatsTable)
    ensures fresh(table) && table.Valid()
    ensures table.entries == ThreadEntries(ParsedAll(lines))
  {
    ghost var ps := ParsedAll(lines);
    table := new StatsTable(64);
    var i := 0;
    while i < |lines|
      invariant 0 <= i <= |lines|
      invariant fresh(table) && table.Valid()
      invariant table.entries == ThreadEntries(ps[..i])
    {
      var p := ParseLineScan(lines[i], "", 0, 0);
      assert ps[..i + 1][..i] == ps[..i];
      if !(p.year < 2024 || (p.year == 2024 && p.month < 3) || p.device == "") {
        LocatedCells(table.entries, p.device, p.year, p.month);
        var k := table.GetOrCreate(p.device, p.year, p.month);
        Accumulate(table, k, p);
      }
      i := i + 1;
    }
    assert ps[..|lines|] == ps;
  }

  /** The merge of one local entry's cells into the global entry at i, sensor by sensor. */
  method MergeCellsAt(table: StatsTable, i: nat, l: Cells)
    requires i < |table.entries|
    modifies table
    ensures table.entries == old(table.entries)[i := old(table.entries)[i].(sensor := MergeCells(old(table.entries)[i].sensor, l))]
    ensures table.capacity == old(table.capacity)
  {
    ghost var before := table.entries;
    ghost var cells := before[i].sensor;
    assert MergeCellsUpTo(cells, l, 0) == cells;
    assert before[i := before[i].(sensor := cells)] == before;
    var s := 0;
    while s < SensorCount
      invariant 0 <= s <= SensorCount
      invariant table.entries == before[i := before[i].(sensor := MergeCellsUpTo(cells, l, s))]
      invariant table.capacity == old(table.capacity)
    {
      table.MergeAt(i, s, l[s]);
      assert MergeCellsUpTo(cells, l, s)[s := MergeCell(MergeCellsUpTo(cells, l, s)[s], l[s])] == MergeCellsUpTo(cells, l, s + 1);
      s := s + 1;
    }
  }

  /**
   * The merge of one thread's table into the global one, entry by entry in
   * the thread's order: `table_get_or_create` for the entry's key, then its
   * six cells merged in.
   */
  method MergeInto(global: StatsTable, local: seq<StatsEntry>)
    requires global.Valid()
    modifies global
    ensures global.Valid()
    ensures global.entries == MergeTable(old(global.entries), local)
  {
    ghost var start := global.entries;
    var i := 0;
    while i < |local|
      invariant 0 <= i <= |local|
      invariant global.Valid()
      invariant global.entries == MergeTable(start, local[..i])
    {
      var e := local[i];
      assert local[..i + 1][..i] == local[..i];
      LocatedCells(global.entries, e.device, e.year, e.month);
      var k := global.GetOrCreate(e.device, e.year, e.month);
      MergeCellsAt(global, k, e.sensor);
      i := i + 1;
    }
    assert local[..|local|] == local;
  }

  /**
   * The slice of thread t, with its start clamped to the number of lines
   * (the corrected form of `a = t * chunk`).
   */
  method SliceBounds(nlines: nat, nproc: nat, chunk: nat, t: nat) returns (a: nat, b: nat)
    requires nproc > 0 && chunk == ChunkSize(nlines, nproc)
    ensures a == ChunkStart(nlines, nproc, t) && b == ChunkEnd(nlines, nproc, t)
  {
    a := t * chunk;
    if a > nlines {
      a := nlines;
    }
    b := if t * chunk + chunk > nlines then nlines else t * chunk + chunk;
  }

  /** Parsing a slice of the lines is slicing the parsed lines. */
  lemma ParsedAllSlice(lines: seq<string>, a: nat, b: nat)
    requires a <= b <= |lines|
    ensures ParsedAll(lines[a..b]) == ParsedAll(lines)[a..b]
  {
  }

  /** The thread loop of `process_csv_mt`: thread t builds the local table of its chunk. */
  method RunThreads(lines: seq<string>, nproc: nat) returns (locals: seq<seq<StatsEntry>>)
    requires nproc > 0
    ensures |locals| == nproc
    ensures forall t :: 0 <= t < nproc ==> locals[t] == ThreadEntries(Chunk(ParsedAll(lines), nproc, t))
  {
    var chunk := (|lines| + nproc - 1) / nproc;
    locals := [];
    var t := 0;
    while t < nproc
      invariant 0 <= t <= nproc && |locals| == t
      invariant forall u :: 0 <= u < t ==> locals[u] == ThreadEntries(Chunk(ParsedAll(lines), nproc, u))
    {
      var a, b := SliceBounds(|lines|, nproc, chunk, t);
      ParsedAllSlice(lines, a, b);
      var local := ThreadFn(lines[a..b]);
      locals := locals + [local.entries];
      t := t + 1;
    }
  }

  /** The global table once the first n local tables are merged into an empty one. */
  function MergeAll(locals: seq<seq<StatsEntry>>, n: nat): seq<StatsEntry>
    requires n <= |locals|
  {
    if n == 0 then [] else MergeTable(MergeAll(locals, n - 1), locals[n - 1])
  }

  /** Merging the local tables of the chunks is merging the threads' work. */
  lemma {:induction false} MergeAllMerged(ps: seq<ParsedLine>, nproc: nat, locals: seq<seq<StatsEntry>>, n: nat)
    requires nproc > 0 && n <= |locals|
    requires forall t :: 0 <= t < n ==> locals[t] == ThreadEntries(Chunk(ps, nproc, t))
    ensures MergeAll(locals, n) == Merged(ps, nproc, n)
  {
    if n > 0 {
      MergeAllMerged(ps, nproc, locals, n - 1);
    }
  }

  /** The merge loop of `process_csv_mt`: a global table of 128 entries takes the local tables in thread order. */
  method MergeLocals(locals: seq<seq<StatsEntry>>) returns (global: StatsTable)
    ensures fresh(global) && global.Valid()
    ensures global.entries == MergeAll(locals, |locals|)
  {
    global := new StatsTable(128);
    var t := 0;
    while t < |locals|
      invariant 0 <= t <= |locals|
      invariant fresh(global) && global.Valid()
      invariant global.entries == MergeAll(locals, t)
    {
      MergeInto(global, locals[t]);
      t := t + 1;
    }
  }

  /**
   * `process_csv_mt` with the start of each thread clamped to the number of
   * lines: one local table per thread over its chunk, then the merge of the
   * local tables into the global one.
   */
  method ProcessCsv(lines: seq<string>, online: int) returns (global: StatsTable)
    ensures fresh(global) && global.Valid()
    ensures global.entries == Merged(ParsedAll(lines), Threads(online), Threads(online))
    ensures forall device, y, m, s: Sensor :: CellAt(global.entries, device, y, m, s) == CellOf(KeyValues(ParsedAll(lines), device, y, m, s))
  {
    var nproc := online;
    if nproc <= 0 {
      nproc := 2;
    }
    assert nproc == Threads(online);
    var locals := RunThreads(lines, nproc);
    global := MergeLocals(locals);
    MergeAllMerged(ParsedAll(lines), nproc, locals, nproc);
    forall device, y, m, s: Sensor
      ensures CellAt(global.entries, device, y, m, s) == CellOf(KeyValues(ParsedAll(lines), device, y, m, s))
    {
      ProcessCells(lines, nproc, device, y, m, s);
    }
  }
}
