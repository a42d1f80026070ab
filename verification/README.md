# IoT sensor aggregation pipeline: a Dafny model

The system reads a CSV of IoT sensor readings. Each line names a device, a
date and six sensor values: temperatura, umidade, luminosidade, ruido, eco2
and etvoc. It then builds per-device, per-month statistics (maximum, minimum,
sum, count and average) and writes one row per device, month and sensor. It
has two pipelines, and this project models the core of both.

* **Sharded queue pipeline.**
  * Records reach the workers through shards. Each shard is a bounded
    ring-buffer queue of `QUEUE_CAPACITY` parsed records, and MurmurHash3
    (x86, 32-bit) is the hash the pipeline provides for keys. The producer
    that fills the queues, and the way it picks a shard, are not among the
    sources (`src/queue.c`, `src/murmur_hash.c`).
  * One worker per shard drains its queue. For each record it finds or
    creates the device in its private list (capacity 16, doubling), then the
    "YYYY-MM" month (capacity 8, doubling). It then folds the value into that
    sensor's statistics cell. At the end it appends its devices to the shared
    collection (`src/worker.c`).
  * The writer computes every cell's average and sorts devices by id and each
    device's months by period, both with `strcmp`. It then emits a row for
    every initialized cell that has a non-zero count, and finally resets the
    shared collection (`src/writer.c`).
* **Chunk-parallel CSV aggregator** (`src/csv_processor.c`).
  * The lines are split into `nproc` contiguous chunks.
  * Each thread parses its lines:
    * a line needs at least 11 pipes;
    * `strtok` splits it on `|`;
    * the device is column 1, the date is column 3 (`%d-%d`, else
      `%d/%d/%d`), and the sensors are columns 4–9, where a decimal comma
      becomes a dot and a strict `[+|-]DDD[.DDD]` parser reads the value.
  * Each thread keeps readings from March 2024 on with a non-empty device and
    accumulates them into a growable table keyed by (device, year, month).
    Each entry has six cells (max, min, sum, count).
  * The main thread merges the local tables into a global one, skipping empty
    cells.
* **`trim_whitespace`** (`src/helpers.c`) strips leading and trailing
  whitespace from a NUL-terminated buffer in place.

## Structure of the model

| module | file | models |
|---|---|---|
| `Wrappers` | wrappers.dfy | `Option` |
| `CStrings` | cstrings.dfy | `strcmp`, `isdigit`/`isspace`, decimal digit strings |
| `MurmurHash` | murmur.dfy | `rotl32`, `fmix32`, `murmur_hash` |
| `ShardQueue` | queue.dfy | the ring-buffer `Queue` as a class over an array |
| `Aggregates` | aggregates.dfy | `ParsedData`, `SensorStats`, `AnoMesAggregates`, `DeviceAggregates`, `init_sensor_stats`, the per-cell update, `ano_mes_to_int` |
| `SharedData` | shared.dfy | `allDevicesData` with its count and capacity, as a class |
| `WorkerThread` | worker.dfy | `worker_thread_func`: the worker's list as a class, with find-or-create and the update as methods |
| `Sorting` | sorting.dfy | the order `qsort` establishes, as an insertion sort on values |
| `Writer` | writer.dfy | `writer_thread_func`: averages, both sorts, row selection, reset |
| `ChunkTable` | csv_table.dfy | `StatsTable`, `table_init`/`table_grow`/`entry_matches`/`table_get_or_create`, the cell update and merge |
| `CsvParse` | csv_parse.dfy | `comma_to_dot`, `simple_atof`, `strtok` on `\|`, the date `sscanf`s, `parse_line` |
| `CsvProcess` | csv_process.dfy | `thread_fn`, the chunk split and merge of `process_csv_mt` |
| `Helpers` | helpers.dfy | `trim_whitespace` |

* **Code that changes state in place is imperative Dafny:**
  * the queue, the worker's list, the shared collection, the stats table and
    `trim_whitespace`'s buffer;
  * every loop that the source runs.

  Each method is proved against a specification function. That function's
  properties are then proved as lemmas:
  * `Worker.Run` equals `RecordAll`, and `RecordAllCells` shows that every
    cell holds the statistics of exactly its readings;
  * `ProcessCsv` equals `Merged`, and `ProcessCells` shows that the merged
    table equals a single pass over all the lines, whatever the number of
    threads;
  * `WriteResults` equals `Report`, and `ReportRows` and `ReportInOrder`
    describe which rows appear and in what order.
* **Values:**
  * `double` becomes `real`, so arithmetic is exact;
  * `uint32_t` hashing uses `bv32`;
  * C strings are `seq<char>`, and NUL-terminated buffers are `array<char>`;
  * `±HUGE_VAL` becomes a `Bound` (`NegInf`/`Finite`/`PosInf`).

## Model

| member | source | states |
|---|---|---|
| CStrings.StrCmp | src/worker.c:49 | the `strcmp` sign is one of -1, 0 and 1 |
| CStrings.StrCmpZero | src/worker.c:49 | `strcmp` returns 0 exactly when the two strings are equal |
| CStrings.StrCmpAntiSymmetric | src/writer.c:10-20 | swapping the arguments negates the result, so the comparators agree in both directions |
| CStrings.StrCmpTransitive | src/writer.c:10-20 | the `strcmp` order is transitive, which makes it a total preorder `qsort` can sort by |
| CStrings.StrCmpStrictTransitive | src/writer.c:10-20 | strictly-less followed by less-or-equal is strictly less |
| CStrings.StrCmpAppend | src/worker.c:24-28 | comparing two concatenations with equal-length prefixes is decided by the prefixes, or by the suffixes when the prefixes are equal |
| CStrings.StrCmpDigits | src/worker.c:24-28 | on equal-length digit strings, `strcmp` order coincides with numeric order, in both directions and for equality |
| CStrings.DigitsValueBound | src/worker.c:24-28 | a string of n digits denotes a number below 10^n |
| CStrings.DigitsValueFront | src/csv_processor.c:76-79 | the value of a digit string is its leading digit times a power of ten plus the value of the rest |
| CStrings.SpacesEnd | src/helpers.c:10-12 | the first non-whitespace position at or after i: everything skipped is whitespace and the stop is not |
| CStrings.SpacesEndAll | src/csv_processor.c:93 | skipping whitespace over an all-whitespace suffix reaches the end |
| CStrings.SpacesEndAt | src/helpers.c:10-12 | a whitespace run ended by a non-whitespace character at j makes j the skip position |
| MurmurHash.Rotl32 | src/murmur_hash.c:4-7 | `(x << r) \| (x >> (32 - r))` is a 32-bit left rotation by r |
| MurmurHash.HashBlocks | src/murmur_hash.c:22-37 | the block loop leaves h1 equal to the body mix over the `len/4` little-endian 4-byte blocks |
| MurmurHash.MurmurHash | src/murmur_hash.c:19-60 | the whole function computes MurmurHash3_x86_32 of the key: body, tail and finalisation |
| MurmurHash.EmptyKeySeedZero | src/murmur_hash.c:9-17 | `fmix32(0) == 0`, so the empty key with seed 0 hashes to 0 |
| MurmurHash.AlignedKeySkipsTail | src/murmur_hash.c:39-55 | a key whose length is a multiple of 4 leaves h1 unchanged through the tail switch |
| MurmurHash.TailWordBytes | src/murmur_hash.c:42-48 | the tail switch assembles the 1 to 3 trailing bytes little-endian, with byte 2 at bits 16-23 and byte 1 at bits 8-15 |
| MurmurHash.BodyReadsOnlyBlocks | src/murmur_hash.c:22-37 | the body depends only on the first 4n bytes of the key |
| MurmurHash.ReferenceVectorsEmpty | src/murmur_hash.c:19-60 | the published MurmurHash3 vectors for the empty key with seeds 1 and 0xffffffff |
| MurmurHash.ReferenceVectorBlock | src/murmur_hash.c:19-60 | the published vector for the one-block key 21 43 65 87, seed 0 |
| MurmurHash.ReferenceVectorBlockSeeded | src/murmur_hash.c:19-60 | the published vector for the one-block key with seed 0x5082edee |
| MurmurHash.ReferenceVectorTail3 | src/murmur_hash.c:39-55 | the published vector for a 3-byte key, the case that falls through all three tail cases |
| MurmurHash.ReferenceVectorTail2 | src/murmur_hash.c:39-55 | the published vector for a 2-byte key |
| MurmurHash.ReferenceVectorTail1 | src/murmur_hash.c:39-55 | the published vector for a 1-byte key |
| ShardQueue.Slot | src/queue.c:27 | advancing a slot modulo `QUEUE_CAPACITY` stays in the buffer and wraps exactly once |
| ShardQueue.SlotAdvance | src/queue.c:27 | advancing by 1 and then by i is advancing by i + 1 |
| ShardQueue.SlotsDistinct | src/queue.c:43-48 | fewer than `QUEUE_CAPACITY` successive slots are pairwise distinct, so live records never overlap |
| ShardQueue.Queue.constructor | src/queue.c:6-14 | an empty queue with head = tail = count = 0 and producers not finished |
| ShardQueue.Queue.Push | src/queue.c:17-32 | FIFO: the contents gain x at the back, x is stored at the old tail, no other slot changes, and tail advances modulo capacity |
| ShardQueue.Queue.Pop | src/queue.c:34-57 | a non-empty queue yields its front and drops it, and head advances. After the producers finish, an empty queue yields NULL (`None`) and is unchanged. `None` exactly when the queue was empty |
| ShardQueue.Queue.SignalProducersFinished | src/queue.c:60-65 | sets the flag and changes nothing else: the contents are unchanged |
| ShardQueue.Queue.Destroy | src/queue.c:68-78 | the records freed are exactly the live contents, from head for count slots |
| Aggregates.InitSensorStats | src/worker.c:14-21 | a fresh cell is consistent and uninitialized, with count 0, sum 0, avg 0, min `DBL_MAX` and max `-DBL_MAX` |
| Aggregates.Observe | src/worker.c:120-135 | one reading: count + 1 and sum + v. A first reading sets min and max to v; later ones take the smaller and larger. min <= v <= max, and consistency is preserved |
| Aggregates.SeqMin | src/worker.c:127-128 | the minimum of the readings is below or equal to each of them and is one of them |
| Aggregates.SeqMax | src/worker.c:129-130 | the maximum of the readings is at least each of them and is one of them |
| Aggregates.StatsOfSummary | src/worker.c:120-135 | folding a list of readings into a fresh cell gives count = length and sum = total, with min and max the least and greatest reading (or a fresh cell when there are none) |
| Aggregates.StatsBoundValues | src/worker.c:120-135 | every reading lies between the folded cell's min and max |
| Aggregates.AnoMesToInt | src/worker.c:24-28 | `ano_mes_to_int("YYYY-MM")` is a number whose quotient by 100 is the year and whose remainder is the month |
| Aggregates.AnoMesToIntExample | src/worker.c:24-28 | "2024-03" maps to 202403 |
| Aggregates.AnoMesOrder | src/worker.c:24-28 | on well-formed periods, `strcmp` order and `ano_mes_to_int` order agree (less-than and equality both ways) |
| SharedData.CapacityAfterCovers | src/worker.c:143-156 | doubling a full positive capacity before each append always leaves room: count + n <= capacity, and capacity never shrinks |
| SharedData.CapacityAfterZero | src/writer.c:99-102 | after the writer resets the capacity to 0, doubling can never make it positive |
| SharedData.DeviceCollection.constructor | src/globals.c:7-9 | the empty shared collection with capacity 16 |
| SharedData.DeviceCollection.Append | src/worker.c:146-155 | appends one device at the end, doubling a full capacity first; the capacity stays ahead of the count |
| WorkerThread.IndexOfDevice | src/worker.c:48-53 | the device scan finds the first entry whose id compares equal, or proves that none does |
| WorkerThread.IndexOfMonth | src/worker.c:90-95 | the month scan finds the first month with that period, or proves that none has it |
| WorkerThread.GrowMonthly | src/worker.c:98-103 | the month capacity strictly grows when it is full |
| WorkerThread.RecordInMonthWellFormed | src/worker.c:120-135 | updating a month keeps all its cells consistent and its period |
| WorkerThread.RecordInDeviceWellFormed | src/worker.c:90-135 | updating a device keeps its months within capacity, well formed and with distinct periods, and keeps its id |
| WorkerThread.RecordPreservesWellFormed | src/worker.c:44-135 | one record keeps the worker's list well formed: device ids stay pairwise distinct |
| WorkerThread.RecordKeepsDeviceOrder | src/worker.c:55-85 | existing devices keep their positions; an unseen device is appended at the end |
| WorkerThread.RecordInDeviceWellFormedId | src/worker.c:90-135 | updating a device never changes its id |
| WorkerThread.IndexOfDeviceReplace | src/worker.c:48-53 | replacing a device by one with the same id does not change any lookup |
| WorkerThread.IndexOfDeviceAppend | src/worker.c:48-85 | lookups after appending a device: earlier matches win, else the new device matches its own id |
| WorkerThread.IndexOfMonthReplace | src/worker.c:90-95 | replacing a month by one with the same period does not change any lookup |
| WorkerThread.IndexOfMonthAppend | src/worker.c:90-118 | lookups after appending a month: earlier matches win, else the new month matches its own period |
| WorkerThread.RecordInDeviceCell | src/worker.c:90-135 | updating a device changes only the addressed (period, sensor) cell, and changes it by one observation |
| WorkerThread.CellOfDevice | src/worker.c:48-53 | a cell is read through the first device with that id, or is fresh when there is none |
| WorkerThread.RecordTouchesOneCell | src/worker.c:44-135 | one record updates exactly the (device, period, sensor) cell it names, by one observation, and leaves every other cell unchanged |
| WorkerThread.RecordAllCells | src/worker.c:44-138 | after draining a sequence of records from an empty list, every cell holds the statistics of exactly the readings addressed to it, in order |
| WorkerThread.RecordAllWellFormed | src/worker.c:44-138 | draining any sequence of records keeps the list well formed |
| WorkerThread.Worker.constructor | src/worker.c:34-36 | the worker's list starts empty with capacity 16 |
| WorkerThread.Worker.FindDevice | src/worker.c:48-53 | the scan loop returns the first device whose id compares equal, else none |
| WorkerThread.Worker.FindMonth | src/worker.c:90-95 | the month scan loop returns the first month with that period, else none |
| WorkerThread.Worker.UpdateSensor | src/worker.c:120-135 | the sensor update computes one observation of the cell: first reading sets min and max, later ones widen them, count and sum grow |
| WorkerThread.Worker.Record | src/worker.c:46-135 | the list becomes its update by the record; a full list doubles its capacity only when a device is added; well-formedness is kept |
| WorkerThread.Worker.Run | src/worker.c:42-138 | draining the finished queue empties it and leaves the list equal to the records folded in FIFO order |
| WorkerThread.Worker.Publish | src/worker.c:140-157 | the shared collection gains the worker's devices at its end, in order, with capacity doubled whenever it was full |
| Writer.CompareDeviceAggregates | src/writer.c:10-14 | the device comparator is 0 exactly when the ids are equal, and it is antisymmetric |
| Writer.CompareAnoMesAggregates | src/writer.c:16-20 | the month comparator is 0 exactly when the periods are equal, and it is antisymmetric |
| Writer.DevicesSortedByComparator | src/writer.c:10-14 | a device list is sorted by id exactly when `compare_device_aggregates` is at most 0 on every neighbouring pair, so the order `qsort` establishes with that comparator is `SortedBy` on the id |
| Writer.MonthsSortedByComparator | src/writer.c:16-20 | a month list is sorted by period exactly when `compare_ano_mes_aggregates` is at most 0 on every neighbouring pair |
| Writer.WithAverage | src/writer.c:33-39 | a cell with readings gets avg with avg * count = sum; an empty cell gets avg 0; nothing else changes |
| Writer.AveragedCells | src/writer.c:26-41 | the averaging pass keeps every device, month and period in place and averages each cell individually |
| Writer.MonthRowsMembers | src/writer.c:65-78 | a month emits a row for sensor k exactly when its cell is initialized with a positive count |
| Writer.DeviceRowsMembers | src/writer.c:62-79 | a device's rows are exactly the rows of its months |
| Writer.ListRowsMembers | src/writer.c:56-80 | the output rows are exactly the rows of the devices |
| Writer.SortMonthsRows | src/writer.c:60 | sorting a device's months changes no row, only the order |
| Writer.OrderedRows | src/writer.c:45-60 | both sorts together keep the set of rows |
| Writer.ReportRows | src/writer.c:22-80 | a row is written exactly when some device and month of the averaged collection has it, whatever the input order |
| Writer.ConcatInOrder | src/writer.c:56-80 | two ordered row lists, each row of the first before each row of the second, concatenate into an ordered list |
| Writer.MonthRowsInOrder | src/writer.c:65-78 | a month's rows carry its device and period and come in sensor order |
| Writer.DeviceRowsInOrder | src/writer.c:62-79 | a device with strictly sorted months emits its rows in (period, sensor) order |
| Writer.ListRowsInOrder | src/writer.c:56-80 | strictly sorted devices with strictly sorted months emit rows in (device, period, sensor) order |
| Writer.DevicesBefore | src/writer.c:45 | rows of earlier devices in the sorted list come before rows of a later device |
| Writer.DevicesOfConcat | src/writer.c:56-80 | rows of the first n devices come from those devices |
| Writer.ReportInOrder | src/writer.c:22-80 | with distinct device ids and distinct periods per device, the output is sorted by device, then period, then sensor |
| Writer.AveragedDistinct | src/writer.c:26-41 | averaging keeps device ids and periods distinct |
| Writer.OrderedStrict | src/writer.c:45-60 | with distinct keys, `qsort` by `strcmp` yields strictly ascending devices and months |
| Writer.AverageMonth | src/writer.c:33-39 | the sensor loop yields the averaged month |
| Writer.AverageDevice | src/writer.c:29-40 | the month loop yields the averaged device |
| Writer.ComputeAverages | src/writer.c:24-42 | the shared collection becomes its averaged copy, with the capacity untouched |
| Writer.EmitMonth | src/writer.c:65-78 | the sensor loop emits exactly the month's rows |
| Writer.EmitDevice | src/writer.c:62-79 | the month loop emits exactly the device's rows |
| Writer.SortAndEmit | src/writer.c:56-80 | each device's months are sorted before its rows are emitted, and the rows are those of the sorted list |
| Writer.MonthsSortedSnoc | src/writer.c:56-60 | sorting the months of one more device extends the processed prefix by that device alone |
| Writer.ListRowsSnoc | src/writer.c:56-80 | one more device appends exactly its rows |
| Writer.ListRowsPrefix | src/writer.c:56-80 | the rows of the first n devices do not depend on later devices |
| Writer.WriteResults | src/writer.c:22-106 | when the output file opens, the rows written are the report of the collection as it was, and afterwards the collection is empty with capacity 0; when `fopen` fails, no row is written and the collection is left averaged and sorted by device, with its capacity kept |
| Sorting.SortedByAdjacent | src/writer.c:45 | a sequence is sorted by a `strcmp` key exactly when each neighbouring pair is in order |
| Sorting.FromMultiset | src/writer.c:45 | an element of a permutation of s plus x is x or an element of s |
| Sorting.AllAtLeastMultiset | src/writer.c:45 | a lower bound on keys survives permutation with one extra element above it |
| Sorting.AllAboveMultiset | src/writer.c:45 | a strict lower bound on keys survives permutation with one extra element above it |
| Sorting.BelowHead | src/writer.c:45 | a key at or below the head of a sorted list bounds the whole list |
| Sorting.ConsSorted | src/writer.c:45 | prefixing a lower bound to a sorted list keeps it sorted |
| Sorting.Insert | src/writer.c:45 | insertion into a sorted list yields a sorted list holding exactly one more element |
| Sorting.InsertStrict | src/writer.c:45 | inserting a new key into a strictly sorted list keeps it strictly sorted |
| Sorting.SortBy | src/writer.c:45 | the sort yields a `strcmp`-sorted permutation of its input |
| Sorting.SortStrict | src/writer.c:45 | with pairwise distinct keys, the sort is strictly ascending |
| Sorting.SortedHeads | src/writer.c:45 | two strictly sorted permutations of each other have the same first element |
| Sorting.TailsSameMultiset | src/writer.c:45 | removing equal heads from two permutations leaves permutations |
| Sorting.StrictTail | src/writer.c:45 | the tail of a strictly sorted list is strictly sorted |
| Sorting.SortedUnique | src/writer.c:45 | with distinct keys, a strictly sorted permutation is unique, so the unstable `qsort` yields one determined order |
| ChunkTable.AddValue | src/csv_processor.c:169-173 | one reading is counted and summed; the new max is the larger of the old max and v (at least both, and one of them), the new min the smaller of the old min and v |
| ChunkTable.CellOfSummary | src/csv_processor.c:167-174 | folding a list of readings gives (greatest reading or -inf, least or +inf, total, length) |
| ChunkTable.SeqSumAppend | src/csv_processor.c:231 | sums add across concatenation |
| ChunkTable.SeqMaxAppend | src/csv_processor.c:229 | the maximum of a concatenation is the larger maximum |
| ChunkTable.SeqMinAppend | src/csv_processor.c:230 | the minimum of a concatenation is the smaller minimum |
| ChunkTable.MergeCell | src/csv_processor.c:226-233 | an empty local cell leaves the global cell unchanged, and counts add |
| ChunkTable.MergeCellOf | src/csv_processor.c:226-233 | merging the cells of two reading lists gives the cell of their concatenation |
| ChunkTable.MergeNothing | src/csv_processor.c:228 | merging an empty cell changes nothing |
| ChunkTable.MergeIntoEmpty | src/csv_processor.c:229-232 | merging into an empty global cell copies the local one |
| ChunkTable.MergeNonEmpty | src/csv_processor.c:229-232 | merging two non-empty cells matches concatenating their readings |
| ChunkTable.MergeFinite | src/csv_processor.c:229-232 | merging finite cells takes the larger max, the smaller min and the summed sum and count |
| ChunkTable.EntryMatchesKey | src/csv_processor.c:27-32 | an entry matches exactly when device, year and month are all equal |
| ChunkTable.Lookup | src/csv_processor.c:37-39 | the scan finds the first matching entry or proves there is none |
| ChunkTable.Truncate | src/csv_processor.c:44-45 | `strncpy` to `KEY_MAX - 1` keeps a prefix shorter than `KEY_MAX` and keeps short strings whole |
| ChunkTable.SlotOf | src/csv_processor.c:34-55 | the returned entry index lies within the table after find-or-create |
| ChunkTable.LocatedSpec | src/csv_processor.c:34-55 | a present key leaves the table unchanged and returns the first match; a missing key appends exactly one new entry with the truncated device, the year, the month and empty cells |
| ChunkTable.LookupUnique | src/csv_processor.c:37-39 | in a table with unique keys, looking up an entry's key finds that entry |
| ChunkTable.LookupSameKeys | src/csv_processor.c:37-39 | tables whose entries have the same keys position by position answer every lookup alike |
| ChunkTable.StatsTable.constructor | src/csv_processor.c:14-19 | an empty table with the requested capacity |
| ChunkTable.StatsTable.Grow | src/csv_processor.c:21-25 | doubles the capacity and keeps the entries |
| ChunkTable.StatsTable.GetOrCreate | src/csv_processor.c:34-55 | the table becomes its find-or-create update and the index addresses the key's entry; capacity doubles only when a full table gains an entry |
| ChunkTable.StatsTable.AddValueAt | src/csv_processor.c:169-173 | only the addressed cell changes, by one reading |
| ChunkTable.StatsTable.MergeAt | src/csv_processor.c:226-233 | only the addressed cell changes, by the merge of the local cell |
| CsvParse.DotDecimalSpec | src/csv_processor.c:60-63 | every comma becomes a dot, everything else is unchanged, the length is kept and the conversion is idempotent |
| CsvParse.CommaToDot | src/csv_processor.c:60-63 | the buffer becomes its comma-to-dot conversion |
| CsvParse.DigitsEnd | src/csv_processor.c:76-79 | the digit run starting at i ends at the first non-digit |
| CsvParse.DigitsEndAt | src/csv_processor.c:76-79 | a digit run followed by a non-digit at j ends at j |
| CsvParse.SignLen | src/csv_processor.c:71 | at most one leading sign character is consumed |
| CsvParse.AtofSound | src/csv_processor.c:66-98 | whenever `simple_atof` succeeds, the text is `[+\|-]DDD[.DDD]` followed by whitespace, and the value is the numeral's |
| CsvParse.AtofComplete | src/csv_processor.c:66-98 | every `[+\|-]DDD[.DDD]` followed by whitespace is accepted with the numeral's value |
| CsvParse.AtofNoFraction | src/csv_processor.c:81-97 | without a '.', the value is the signed integer part |
| CsvParse.AtofWithFraction | src/csv_processor.c:82-97 | a '.' followed by digits adds fraction/10^digits |
| CsvParse.AtofIntegerPart | src/csv_processor.c:68-79 | the parse after the integer part starts where the digit run ends, with its value |
| CsvParse.DigitsRunEnd | src/csv_processor.c:76-79 | the integer digit run of a numeral ends where the numeral says |
| CsvParse.FractionEnd | src/csv_processor.c:86-90 | the fraction digit run of a numeral ends where the numeral says |
| CsvParse.TailComplete | src/csv_processor.c:93-94 | trailing whitespace is consumed up to the terminator |
| CsvParse.AtofRejects | src/csv_processor.c:73-94 | rejects "", ".5", "1." and "1.2x" |
| CsvParse.AtofSignedFraction | src/csv_processor.c:66-98 | "-12.50" is -12.5 |
| CsvParse.AtofTrailingSpace | src/csv_processor.c:93-94 | "7\n" is 7, since trailing whitespace is allowed |
| CsvParse.ScanDigits | src/csv_processor.c:75-79 | the integer loop stops at the first non-digit with the run's value |
| CsvParse.ScanFraction | src/csv_processor.c:86-90 | the fraction loop stops at the first non-digit, with the run's value as frac and 10^digits as scale |
| CsvParse.SimpleAtofScan | src/csv_processor.c:66-98 | the imperative parser succeeds exactly when the specification accepts, with the same value |
| CsvParse.ScanAfterInt | src/csv_processor.c:81-97 | the part after the integer digits agrees with the specification |
| CsvParse.ScanTail | src/csv_processor.c:93-97 | the trailing-whitespace check agrees with the specification |
| CsvParse.DigitsValueSnoc | src/csv_processor.c:77 | `int_part * 10 + digit` extends the digit run's value by one digit |
| CsvParse.FieldLen | src/csv_processor.c:114 | a field runs up to the first '\|' |
| CsvParse.TokensAreNonEmptyFields | src/csv_processor.c:114 | `strtok` yields exactly the non-empty '\|'-separated fields, in order |
| CsvParse.TokensShape | src/csv_processor.c:114-115 | no token is empty or holds a '\|', so the empty-field test never fires |
| CsvParse.ColumnShiftExample | src/csv_processor.c:114-115 | "a\|\|b" has three fields but two tokens: an empty field shifts later columns down |
| CsvParse.FieldsCount | src/csv_processor.c:111-112 | there is one more field than there are pipes |
| CsvParse.PipeCountSplit | src/csv_processor.c:111 | skipping a pipe-free prefix does not change the count |
| CsvParse.CountPipes | src/csv_processor.c:111 | the counting loop returns the number of '\|' characters |
| CsvParse.ScanInt | src/csv_processor.c:124-126 | `%d` succeeds exactly on a leading digit |
| CsvParse.ScanIntAt | src/csv_processor.c:124-126 | `%d` reads the whole digit run and stops after it |
| CsvParse.ScanIntFrom | src/csv_processor.c:124-126 | the same, starting within a token |
| CsvParse.ParseDateIso | src/csv_processor.c:124 | "Y-M" sets year Y and month M |
| CsvParse.ParseDateSlashed | src/csv_processor.c:124-127 | "D/M/Y" falls through to the second `sscanf`, setting month M and year Y |
| CsvParse.ParseDateLoneNumber | src/csv_processor.c:124-127 | a lone number is taken as the year (first `sscanf` matches one field), and the month is kept |
| CsvParse.ParseDateNoNumber | src/csv_processor.c:124-127 | a date with no number leaves year and month untouched |
| CsvParse.ShortLineUntouched | src/csv_processor.c:106-112 | a line with fewer than 11 pipes leaves device, year and month as given and all sensors absent and zero |
| CsvParse.SensorColumns | src/csv_processor.c:131-140 | sensor k is present exactly when token k + 4 exists and parses after comma-to-dot, and then holds that value; otherwise it is 0 |
| CsvParse.ParsedDeviceFits | src/csv_processor.c:118-121 | the parsed device always fits in `KEY_MAX` |
| CsvParse.ReadSensor | src/csv_processor.c:132-138 | reading a token is comma-to-dot followed by `simple_atof` |
| CsvParse.ReadColumn | src/csv_processor.c:131-140 | a sensor column sets exactly its own slot when it parses and nothing otherwise |
| CsvParse.OtherColumn | src/csv_processor.c:117-142 | columns outside 4..9 touch no sensor slot |
| CsvParse.AllColumns | src/csv_processor.c:114-143 | the sensor arrays after the token loop are those the columns describe |
| CsvParse.ParseLineScan | src/csv_processor.c:102-145 | the imperative token loop computes `parse_line` |
| CsvProcess.LocatedCells | src/csv_processor.c:165 | the entry returned by find-or-create holds the key's current cells |
| CsvProcess.LookupAppendOther | src/csv_processor.c:37-43 | appending an entry for another key does not change a lookup |
| CsvProcess.StoreCells | src/csv_processor.c:165-174 | writing cells through find-or-create keeps keys unique and short, and changes only that key's cells |
| CsvProcess.StoreKeys | src/csv_processor.c:165 | writing cells keeps the table's keys and their uniqueness |
| CsvProcess.StoreSameKey | src/csv_processor.c:165-174 | the written key reads back the written cells |
| CsvProcess.StoreOtherKey | src/csv_processor.c:165-174 | every other key reads back its old cells |
| CsvProcess.ParsedAllShort | src/csv_processor.c:118-121 | every parsed device fits in `KEY_MAX` |
| CsvProcess.KeyValuesAppend | src/csv_processor.c:154-175 | the readings for a key over two line lists concatenate |
| CsvProcess.CellOfSnoc | src/csv_processor.c:169-173 | one more reading updates the cell by one `AddValue` |
| CsvProcess.ThreadCells | src/csv_processor.c:149-177 | a thread's table has unique keys, and each key's cell is the statistics of exactly the readings of accepted lines (from 2024-03 on, device non-empty) for that key and sensor |
| CsvProcess.PrefixKeys | src/csv_processor.c:222 | a prefix of a table with unique keys has unique keys |
| CsvProcess.MergeTableCells | src/csv_processor.c:222-234 | merging a local table into the global one merges each key's cells and keeps keys unique |
| CsvProcess.MergeEntryCells | src/csv_processor.c:223-233 | merging one local entry changes only its key's cells, by the merge |
| CsvProcess.LastEntryCells | src/csv_processor.c:222-223 | in a table with unique keys, the last entry's key has no earlier entry |
| CsvProcess.Threads | src/csv_processor.c:202-203 | the thread count is positive: a non-positive processor count falls back to 2 |
| CsvProcess.ChunksCover | src/csv_processor.c:208 | `nproc` chunks of the rounded-up size cover every line |
| CsvProcess.ChunkOverrun | src/csv_processor.c:210-213 | with 5 lines and 4 processors, thread 3 gets `count = b - a` equal to `SIZE_MAX` |
| CsvProcess.ChunkCountAgrees | src/csv_processor.c:210-213 | while the chunk start stays within the lines, the count as written equals the clamped chunk's length |
| CsvProcess.ChunkStart | src/csv_processor.c:210 | the (clamped) chunk start never passes the end of the lines |
| CsvProcess.ChunkEnd | src/csv_processor.c:211 | the chunk end lies between its start and the end of the lines |
| CsvProcess.ChunkAdjacent | src/csv_processor.c:210-211 | each chunk ends where the next begins |
| CsvProcess.ChunksPrefix | src/csv_processor.c:209-215 | the first n chunks together are the lines up to chunk n's start |
| CsvProcess.ChunksPartition | src/csv_processor.c:209-215 | the `nproc` chunks partition the lines exactly: concatenated in order they are the input |
| CsvProcess.MergedCells | src/csv_processor.c:217-236 | after merging n threads, every key's cell is the statistics of the readings in the first n chunks |
| CsvProcess.ChunkShort | src/csv_processor.c:212-213 | the parses in a chunk keep devices within `KEY_MAX` |
| CsvProcess.MergeCellStep | src/csv_processor.c:226-233 | merging cells of two reading lists gives the cell of both |
| CsvProcess.ProcessCells | src/csv_processor.c:200-239 | whatever the thread count, every (device, year, month, sensor) cell of the result is the statistics of all accepted readings for it in the input order, as a single thread would compute |
| CsvProcess.Accumulate | src/csv_processor.c:167-174 | the sensor loop folds exactly the present readings of the line into the entry's cells |
| CsvProcess.ThreadFn | src/csv_processor.c:149-177 | the thread's table is the accumulation of its accepted lines |
| CsvProcess.MergeCellsAt | src/csv_processor.c:225-233 | the sensor loop merges the six local cells into the entry |
| CsvProcess.MergeInto | src/csv_processor.c:222-234 | merging one local table updates the global table as `MergeTable` says |
| CsvProcess.SliceBounds | src/csv_processor.c:210-211 | the slice bounds of thread t are the clamped chunk bounds |
| CsvProcess.ParsedAllSlice | src/csv_processor.c:212 | parsing a slice is slicing the parses |
| CsvProcess.RunThreads | src/csv_processor.c:209-215 | thread t's table is the accumulation of chunk t |
| CsvProcess.MergeAllMerged | src/csv_processor.c:219-236 | merging the tables thread by thread equals the merge over the chunks |
| CsvProcess.MergeLocals | src/csv_processor.c:217-236 | the global table is the merge of all local tables in thread order |
| CsvProcess.ProcessCsv | src/csv_processor.c:200-239 | the returned table is the merge over all chunks, and each of its cells holds the statistics of every accepted reading for its key |
| Helpers.Strlen | src/helpers.c:18 | the length is the index of the first NUL |
| Helpers.StrlenAt | src/helpers.c:18 | a NUL at k with none before gives length k |
| Helpers.TrimEnd | src/helpers.c:20-22 | walking back from the end stops after the last non-whitespace character, past only whitespace |
| Helpers.TrimEndAt | src/helpers.c:20-22 | the trailing walk stops exactly at a non-whitespace character preceded by whitespace-only tail |
| Helpers.TrimmedIsTrim | src/helpers.c:7-28 | the trim of s is s with a whitespace-only prefix and suffix removed, and starts and ends with non-whitespace (or is empty) |
| Helpers.TrimUnique | src/helpers.c:7-28 | any such trim of s equals the computed one |
| Helpers.TrimUniqueEmpty | src/helpers.c:14-16 | an all-whitespace string trims to empty |
| Helpers.TrimUniqueAt | src/helpers.c:7-28 | a core between whitespace-only borders is the trim |
| Helpers.TrimIdempotent | src/helpers.c:7-28 | trimming twice is trimming once |
| Helpers.TrimAllSpace | src/helpers.c:14-16 | an all-whitespace string trims to empty |
| Helpers.StrlenFrom | src/helpers.c:18 | `strlen` from an offset counts up to the NUL |
| Helpers.SkipSpaces | src/helpers.c:10-12 | the leading loop stops at the first non-whitespace character or the NUL |
| Helpers.SkipTrailing | src/helpers.c:18-22 | the trailing loop stops at the last non-whitespace character |
| Helpers.TrimToNothing | src/helpers.c:14-16 | reaching the NUL while skipping means the trim is empty |
| Helpers.TrimCut | src/helpers.c:25 | writing NUL after the last non-whitespace leaves exactly the trim at the start position |
| Helpers.TrimWhitespace | src/helpers.c:7-28 | the returned start position reads the trim of the original string, and the only change to the buffer is one NUL written right after the trimmed text |

## Left out

- Concurrency:
  - mutexes, condition variables, `pthread_create`/`pthread_join` and the global flags are not modelled;
  - the CSV threads run one after another, in thread order, and are merged in that order, which is the order `process_csv_mt` joins them;
  - the queue's blocking waits become preconditions: `Push` requires a free slot and `Pop` requires a record or the finished flag.
- ShardQueue.Queue.Pop: requires `count > 0 || producersFinished` in place of blocking until one holds.
- ShardQueue.Queue.Push: requires `count < QUEUE_CAPACITY` in place of blocking while full.
- The producer that fills the shard queues, and the way it chooses a shard, are not among the sources. No source file calls `queue_push` or `murmur_hash`, and `N_WORKER_THREADS` is only declared. `src/csv_parser.c` is a standalone reader that prints fields, and it is not part of this model.
- SharedData.DeviceCollection.constructor: starts with a 16-slot buffer. In the sources, `allDevicesData` starts as NULL with capacity 16 and count 0 (`src/globals.c:7-9`), and `worker.c:146-155` reallocates only when the count reaches the capacity. So the first publish writes through NULL unless code outside the sources allocates the buffer, and the model assumes that it does.
- `src/main.c` is not part of this model.
- I/O is not modelled:
  - `load_csv` (reading the file and skipping the header);
  - the file output of `write_results` and of the writer thread, with its `%.2f` formatting and header line;
  - `perror`/`printf` messages.

  The writer's rows are returned as a sequence of records instead. Whether the writer's `fopen` succeeds is the `fileOpened` parameter of `Writer.WriteResults`, and both branches are modelled.
- `free_csv_lines`, `free_table` and the frees in the writer and `queue_destroy`: memory is not modelled. `Destroy` returns the records it would free.
- Allocation failure (`malloc`/`realloc`/`strdup` returning NULL) is not modelled, and neither is the error branch that stops publishing when `realloc` fails.
- Floating point: `double` arithmetic is exact `real` arithmetic, so rounding in sums, the average division and `int_part + frac / scale` is not modelled. `HUGE_VAL` is modelled as an infinite bound, and `DBL_MAX` exactly.
- Integer width:
  - `int`, `long long` and `size_t` overflow is not modelled, except for the chunk count, which is under Findings;
  - `simple_atof`'s `long long` integer part may overflow on very long digit runs;
  - the model's integer part is unbounded.
- The `strncpy` copies of the device id and period at `src/worker.c:77-78` and `src/worker.c:112-113` copy between fields of the same size. They therefore keep a NUL-terminated id or period whole, and the model copies them unchanged.
- The unused `DeviceAggregates` fields `current_processing_month` and `data_outside_current_range` are not modelled.
- CsvParse.ParseDate: models `sscanf("%d")` on unsigned digit runs only. Leading whitespace and signs, which `%d` also accepts, are not modelled.
- CsvParse.ParseLine: `strtok`'s hidden state is replaced by the list of tokens it yields.
- MurmurHash.MurmurHash: the `(const uint32_t *)` cast reads blocks little-endian. The model fixes this byte order, which the source gets only on little-endian machines. The model also requires `len` to equal the key's length and to be below 2^31, since `len` is an `int`.
- MurmurHash.Rotl32: requires `0 < r < 32`. The source only calls it with 13 and 15, and `x >> 32` would be undefined in C.
- The device-sort comparator works through `DeviceAggregates **` handles; the model sorts values, and `qsort`'s particular permutation of equal keys is not modelled. With distinct keys the order is unique: see `Sorting.SortedUnique`.
- The empty-field check at `src/csv_processor.c:115` is kept in the model. It can never fire, because `strtok` skips empty fields. As a result, an empty field shifts every later column down by one (`CsvParse.ColumnShiftExample`), rather than being skipped as the column numbering suggests. The model follows the code.
- After the writer runs, the shared capacity is 0. Doubling 0 stays 0 (`SharedData.CapacityAfterZero`), so an append after the writer would have no room. Nothing in the program appends after the writer, so this is a property of the code rather than a defect.

## Findings

| source | as written | input that shows it | evidently intended | confidence | as-written member | corrected member |
|---|---|---|---|---|---|---|
| src/csv_processor.c:210-213 | `a = t * chunk` is not clamped, and `count = b - a` is computed in `size_t` | `nlines = 5` with `nproc = 4`: `chunk = 2`, and thread 3 gets `a = 6`, `b = 5`, so `count` wraps to `SIZE_MAX` and `&all_lines[6]` is out of bounds | clamp the start to `nlines`, so that surplus threads get an empty chunk | not executed | CsvProcess.ChunkOverrun | CsvProcess.ChunksPartition |
