# httpmonitor core, modelled in Dafny

This project models the core of `httpmonitor`, a Go tool that tails an HTTP
access log in Common Log Format. For every line it builds a record, keeps
running statistics, and keeps a sliding-window rate of hits. It alerts when
that rate crosses a threshold and prints periodic snapshots. The model covers
four parts, one Dafny module each:

- `Averager` (averager.dfy) is the windowed rate averager. A ring of optional
  per-quantum hit counters (`Option<nat>`, with None for a slot with no data
  point) sits in an `array` with a cursor, inside a class whose methods are
  `Ingest` (the per-hit body of `quantize`), `Tick`, `Average` and `Latest`.
  The functions `AverageOf` and `LatestOf` specify them. Go's NaN average is
  `None`.
- `Collection` (collector.dfy) is the statistics collector: the section of a
  request path, the status classes, and a `Collector` class whose `Process`
  updates every aggregate. The class keeps a ghost log of the records
  processed, and its invariant ties every aggregate to that log. The top-k
  sketch, the HyperLogLog estimator and the windowed hdrhistogram are
  represented by what was fed to them. Snapshots report exact frequencies,
  exact distinct counts and exact multisets of sizes.
- `Reader` (reader.dfy) covers record construction and the skip-or-emit read
  loop. The CLF regular expression and `time.Parse` are parameters of the
  model. `strconv.Atoi`/`ParseInt` are modelled on decimal strings.
- `Monitoring` (monitor.dfy) holds the alert state machine: one tick
  (`AlertStep`), the loop over many ticks (`RunAlertLoop`, specified by
  `RunAlerts`), and the `Monitor` class with its snapshot. `Report`
  (summary.dfy) holds the snapshot and status-frequency records. `Common`
  (common.dfy) holds `Option`, time in nanoseconds, and Go's zero time.

Behaviour of the code worth noting:

- **No forwarding to the averager.** `process` (monitor/collector.go:94-102)
  does not forward the record's timestamp to the averager. Here
  `Collector.Process` does not touch the averager, and `Ingest` is a separate
  operation.
- **Status counters.** `processStatus` (monitor/collector.go:119-132) bumps a
  counter only for statuses in 100-599. So the counters sum to the number of
  records with such a status, which can be less than the record count
  (`Collection.TallyTotal`).
- **Merged size histogram.** It covers the current bucket and the two
  buckets rotated out last. The collector is created with
  `hdrhistogram.NewWindowed(3, …)` (monitor/collector.go:54). So after
  300000 records, the snapshot no longer reflects every size recorded
  (`Collection.RetainedIsRecent`).
- **Two collector types.** monitor/monitor.go builds a lowercase `collector`
  holding an averager (`newCollector(n, window, quantum)`, lines 55 and
  147-153). monitor/collector.go defines `Collector`/`NewCollector` without
  one. The model keeps the two as separate objects, side by side in
  `Monitor`. `Summary.StatusFreq` (monitor/summary.go:20) names a lowercase
  type; the model uses the collector's `StatusFreq`.
- **Timestamps.** A line whose timestamp does not parse keeps Go's zero time,
  because the parse error is ignored (monitor/reader.go:145;
  `Reader.RecordOf`).

## Model

| member | source | states |
|---|---|---|
| Averager.RingLength | monitor/averager.go:21-31 | None (the panic) exactly when the window is shorter than the quantum; otherwise the ring has at least two slots, and (n-1)·quantum ≤ window < n·quantum, i.e. n = window/quantum + 1 |
| Averager.WindowedAverager.constructor | monitor/averager.go:21-31 | a fresh ring of window/quantum + 1 slots, none with a data point, cursor at slot 0 |
| Averager.WindowedAverager.Ingest | monitor/averager.go:38-48 | a hit older than now − window leaves the ring unchanged; any other hit sets the current slot to its previous count (0 when it had none) plus one, and no other slot changes |
| Averager.IngestKeepsAverage | monitor/averager.go:38-48 | an ingested hit changes only the current slot, so the past sum, the past count and the average are unchanged until the next tick |
| Averager.WindowedAverager.Tick | monitor/averager.go:64-67 | the cursor moves one slot forward, wrapping to 0 after the last slot; the new current slot holds a populated zero, and no other slot changes |
| Averager.RingSteps | monitor/averager.go:65 | the modular cursor formulas of tick (line 65) and latest (line 96) are the wrapping successor and predecessor |
| Averager.TickShiftsWindow | monitor/averager.go:64-67 | on a tick the previously current slot joins the averaged sum and count, and the slot the cursor moves onto leaves them |
| Averager.TickThenLatest | monitor/averager.go:93-102 | right after a tick, latest reports the count of the slot that was current before the tick |
| Averager.WindowedAverager.Average | monitor/averager.go:73-89 | the result is AverageOf the ring: the hits of the populated slots other than the current one, divided by their number times the quantum in seconds; it is None (NaN) exactly when no other slot has a data point |
| Averager.PastPlusCurrent | monitor/averager.go:77-86 | the averaged sum and count are the ring totals less the current slot |
| Averager.AverageUndefinedIff | monitor/averager.go:82-88 | the average is NaN exactly when every slot other than the current one is without data (0/0), in both directions |
| Averager.FullRingCount | monitor/averager.go:77-86 | once every slot but the current one holds a data point, the count is the ring length minus one |
| Averager.FullWindowAverage | monitor/averager.go:26-27 | with the window fully observed, the average is the past hits divided by (window/quantum) quanta of quantum seconds each |
| Averager.WindowedAverager.Latest | monitor/averager.go:93-102 | the count of the slot just behind the cursor (wrapping from slot 0 to the last), 0 when that slot has no data point |
| Collection.SlashIndexes | monitor/collector.go:155-160 | every listed position is in range and holds '/', and the positions strictly increase |
| Collection.SlashIndexesComplete | monitor/collector.go:155-160 | every '/' of the document is listed, and there are exactly as many entries as '/' characters |
| Collection.Section | monitor/collector.go:161-166 | a document with at most one '/' has the section "/" |
| Collection.SectionBeforeSecondSlash | monitor/collector.go:147-148 | with two or more '/', the section is the proper prefix of the document that ends just before a '/' and holds exactly one '/' |
| Collection.SectionUnique | monitor/collector.go:147-148 | conversely, any prefix followed by '/' and holding exactly one '/' is the section |
| Collection.SectionOfTwoSegments | monitor/collector.go:147-148 | "/name/tail" with no further '/' has the section "/name" (as "/pages/create" gives "/pages") |
| Collection.SectionFromDocument | monitor/collector.go:154-166 | the loop collects the slash positions and returns Section of the document |
| Collection.ClassOf | monitor/collector.go:119-132 | a status has a class exactly when it lies in 100-599, and then lies in that class's hundreds range |
| Collection.ClassOfInRange | monitor/collector.go:119-132 | each status in a class's hundreds range is classified there |
| Collection.BumpCounts | monitor/collector.go:119-132 | one status adds one to the counter of its class and leaves the other four alone; a status outside 100-599 changes no counter |
| Collection.TallyTotal | monitor/collector.go:119-132 | the five counters sum to the number of statuses in 100-599, hence to at most the number of records |
| Collection.Collector.ProcessStatus | monitor/collector.go:119-132 | the counter of the status's class goes up by one and the others are unchanged; nothing changes outside 100-599 |
| Collection.Collector.ProcessRequest | monitor/collector.go:135-151 | a request the pattern matches with exactly five submatches adds the section of its path to the top sections; any other request adds nothing |
| Collection.Collector.ProcessIP | monitor/collector.go:105-108 | the address is added to the distinct-count estimator |
| Collection.Collector.ProcessSize | monitor/collector.go:111-116 | the size goes into the current bucket; when the record count is a multiple of 100000, that bucket is rotated out and a fresh one started |
| Collection.RotationStep | monitor/collector.go:113 | proof helper for the rotation test of line 113: the count modulo 100000 wraps to 0 exactly when the current bucket was one short of full |
| Collection.RotationMatchesCount | monitor/collector.go:111-116 | there has been one rotation per full 100000 records, and the current bucket holds the count modulo 100000 sizes |
| Collection.StepAggregateCounts | monitor/collector.go:111-132 | one processed record appends its size to the sizes held across the current and rotated buckets, and adds one to the counter of its status class only |
| Collection.ReplayLogs | monitor/collector.go:94-151 | after processing a run of records, the count is their number, and the top sections, the addresses and the status counters are exactly what those records fed in, in order |
| Collection.ReplayBuckets | monitor/collector.go:111-116 | every rotated-out bucket holds exactly 100000 sizes, and the current bucket holds the record count modulo 100000 |
| Collection.ReplaySizeLog | monitor/collector.go:111-116 | the rotated buckets followed by the current one hold every size processed, in order |
| Collection.ReplayAggregates | monitor/collector.go:94-151 | processing a run of records leaves every aggregate in step with the record log |
| Collection.Retained | monitor/collector.go:54 | the merged histogram (current bucket after at most two rotated ones) is a suffix of all sizes held, and all of them while fewer than three buckets were rotated out |
| Collection.Collector.constructor | monitor/collector.go:49-56 | a collector with nothing recorded: count 0, empty structures, all status counters 0 |
| Collection.Collector.Process | monitor/collector.go:94-102 | the new aggregates are one processing step from the old (count up by one; section if any, address, size and status fed to their structures, rotating when the count reaches a multiple of 100000); the record joins the log; the recorded sizes grow by exactly this size and only the status's class counter goes up; the collector invariant is kept |
| Collection.RetainedIsRecent | monitor/collector.go:54 | the merged histogram covers a suffix of the sizes recorded: all of them below 300000 records, and after that the two last full buckets plus the sizes since the last rotation |
| Collection.DistinctAtMostLength | monitor/collector.go:105-108 | there are never more distinct addresses than addresses added |
| Collection.Collector.StatusTotalAtMostCount | monitor/collector.go:97 | the status counters sum to at most the record count |
| Collection.Collector.SnapshotBounds | monitor/collector.go:74-84 | a snapshot reports at most one distinct address and one classified status per record, and its sizes are among those recorded (all of them below 300000 records) |
| Collection.Collector.Summary | monitor/collector.go:74-84 | the snapshot carries the section frequencies, the distinct addresses, the merged sizes and the status counters; the fields the collector does not own keep their zero values |
| Collection.TwoSectionsRanked | monitor/collector.go:149-150 | requests under "/a/…", "/a/…" and "/b/…" rank section "/a" with frequency 2 and "/b" with frequency 1 |
| Reader.ParseInt | monitor/reader.go:148-149 | "", "+" and "-" are errors; a digit string parses to its decimal value; an input not starting with '-' parses to a non-negative value |
| Reader.ParseFormatRoundTrip | monitor/reader.go:148-149 | parsing a decimal rendering of n gives back n |
| Reader.RecordsOf | monitor/reader.go:130-135 | no more records than lines |
| Reader.RecordsOfLine | monitor/reader.go:130-151 | a line with fewer than eight submatches yields no record; any other line yields exactly the record built from its submatches |
| Reader.UnmatchedLineSkipped | monitor/reader.go:130-135 | a line that does not match is skipped and reading continues with the next line |
| Reader.RecordsOfAppend | monitor/reader.go:111-152 | the records of consecutive runs of lines are concatenated in line order |
| Reader.RecordOf | monitor/reader.go:137-149 | address, identity, user and request are copied from their submatches; "-" status or size becomes 0 and digits their value; an unparsable timestamp becomes the zero time |
| Reader.Read | monitor/reader.go:111-152 | the loop emits exactly RecordsOf the lines: one record per matching line, in order, none for the others |
| Monitoring.AlertStep | monitor/monitor.go:108-127 | an alert is written exactly when the average is defined and above the threshold in the normal state, or at or below it in the alerting state; the flag flips exactly then; a trigger carries recovered false, a recovery true, each with the average and the time; the hook receives it only if ready, and that does not affect the flag |
| Monitoring.RunAlertLoop | monitor/monitor.go:96-129 | the loop's flag, output and hook deliveries are RunAlerts of the ticks; alerts alternate starting with a trigger; the flag is set exactly after an odd number of alerts; each alert lies on its side of the threshold; the hook receives a subsequence of the alerts written |
| Monitoring.RunAlternates | monitor/monitor.go:99-127 | from the initial normal state, alerts strictly alternate trigger/recovery (never a double fire), the flag is set exactly after an odd number of alerts, and every trigger is above and every recovery at or below the threshold |
| Monitoring.HookSeesSubsequence | monitor/monitor.go:116-126 | the hook receives some of the written alerts, in the order written |
| Monitoring.HookDoesNotAffectState | monitor/monitor.go:112-127 | whether the hook takes alerts never changes the flag or what is written |
| Monitoring.RunFromAppend | monitor/monitor.go:102-128 | running two stretches of ticks is running the second from the flag the first leaves, with outputs concatenated |
| Monitoring.QuietWhileLow | monitor/monitor_test.go:65-70 | while the average stays at or below the threshold or undefined, the normal state writes nothing |
| Monitoring.SustainedHigh | monitor/monitor_test.go:72-83 | a stretch above the threshold fires one trigger, at its first tick, unless already alerting, and nothing more |
| Monitoring.SustainedLow | monitor/monitor_test.go:85-96 | a stretch at or below the threshold fires one recovery, at its first tick, when alerting, and nothing more |
| Monitoring.LowHighLow | monitor/monitor_test.go:59-96 | low, then high, then low traffic writes exactly one trigger (at the first high tick) and one recovery (at the first low tick after it) |
| Monitoring.Monitor.constructor | monitor/monitor.go:47-62 | a monitor with a fresh, empty collector that ranks opts.numTopSections sections and matches requests with the given request pattern, and a fresh, empty averager over the alert window at a one-second quantum |
| Monitoring.Monitor.AlertTick | monitor/monitor.go:108-127 | one alert tick is AlertStep over the averager's current average |
| Monitoring.Monitor.Summary | monitor/monitor.go:142-155 | the snapshot carries the collector's aggregates, the latest and average hit rates of the averager and the alert window, changing nothing; distinct addresses and classified statuses are at most the record count; the average is NaN exactly when no past slot has data |

## Left out

- Reading the file, end-of-file waiting, fsnotify, `os.Exit` on read errors, and the printed skip message are left out. The read loop is modelled over the sequence of lines it reads.
- Goroutines, channels, tickers and the reader/writer locks are left out. Each operation is one atomic step. `quantize` and `tick` are modelled per hit and per tick (`Ingest`, `Tick`), and the alert loop over a sequence of observed ticks. The 2-second alert cadence and the reporting cadence are not modelled.
- `time.Now()` becomes a parameter (`now`). Whether the alert hook can accept without blocking also becomes a parameter (`hookReady`).
- The CLF and request regular expressions are parameters returning the submatch slice. What they match is not modelled.
- `time.Parse` with its layout is a parameter that returns None on failure.
- Reader.ParseInt: does not model the out-of-range saturation of strconv; base-10 digit strings of any length parse to their exact value.
- Averager.WindowedAverager.Ingest: counters are unbounded naturals; the uint64 wrap-around after 2^64 hits in one slot is not modelled. The same holds for the uint64 record count, the sum in `average` and the status counters.
- Averager.RingLength: requires a positive quantum. The only quantum ever passed is the constant one second (monitor/monitor.go:17).
- Averager.WindowedAverager.constructor: the panic for a window shorter than the quantum is the precondition that `RingLength` is defined.
- Monitoring.Monitor.constructor: requires that `RingLength` is defined for the alert window at a one-second quantum, i.e. a window of at least one second. `newWindowedAverager` panics otherwise (monitor/averager.go:22-24), and the model does not represent the panic.
- Float64 arithmetic is modelled by exact reals. The hit rate is real division, and the NaN average is None.
- Collection.Collector.Summary: reports the exact multiset of sections and the exact number of distinct addresses, where the top-k sketch and HyperLogLog report estimates. The top-k limit on how many sections are listed is not modelled either. The merged histogram is the multiset of retained sizes, not its statistics.
- Collection.Collector.ProcessSize: records every size. hdrhistogram's rejection of values beyond its trackable range (maxRecordableSize, monitor/collector.go:18) is not modelled.
- Monitoring.Monitor.Summary: the same exact-structure reading as the collector's snapshot.
- Output line formatting is left out: the `%.2f` alert messages, `Summary.String` and the table rendering. The model writes structured `Alert` values instead.
- `TopSectionHits`, `Collector.Start`, `Monitor.Start`/`Stop`/`report` and main.go are outside the modelled core. They only wire the operations above to channels and timers.
- Strings are sequences of characters. Go's `range` over a string yields byte offsets of runes. Since '/' is a single byte, the prefix before the second '/' is the same either way.
