# Verified model of the database benchmark

A Dafny 4.11 model of the parts of the benchmark that carry logic, with proofs of what they promise:

* **Latency statistics** (`OrderStatistics.dfy`, `LatencyRecorder.dfy`, `MetricsCollector.dfy`, and the averaging in
  `Experiment7.dfy`): what a nearest-rank percentile is, how far a merged percentile can be from the true one, how the
  mean bounds the tail, and how averaged throughput compares with the pooled rate.
* **The two-table store** (`CassandraClient.dfy`, `TableHistory.dfy`): what the tables hold after inserts, failures with
  retries, deletes and clears, and when the per-user table answers like a scan of everything.
* **The concurrent insert run** (`LastWriter.dfy`, `ConcurrentInsert.dfy`, `Experiment2.dfy`): a transition system in
  which each worker is before or between its two writes, the invariant of every interleaving, termination, and the exact
  condition under which the outcome does not depend on the schedule; then the program that follows that system.
* **Query rewrite and write/read runs** (`RangeScan.dfy`, `Experiment7.dfy`).
* **Text forms**: ISO timestamps as an order embedding of epochs (`IsoTimestamp.dfy`), version-4 UUIDs
  (`DataGenerator.dfy`), CSV with a reference reader after RFC 4180 section 2 (`CSVWriter.dfy`), and the grouping of the
  final summary (`SummaryPrinter.dfy`).

`dafny verify dfyconfig.toml` checks the whole project.

Objects whose methods update fields are classes (`LatencyRecorder`, `MetricsCollector`, `CassandraClient`,
`DataGenerator`, `CSVWriter`, the experiments); their methods are proved against predicates and functions on values, and
the theorems are lemmas about those. Clock readings, latencies, random draws, shuffles, schedules, statement outcomes and
whether a file can be opened are arbitrary parameters.

## Where the code differs from what it seems to promise

The model keeps the code as it is and states exactly when the promise holds.

* `merge_thread_results` never adds to its `mean` (src/metrics/MetricsCollector.cpp:53, :74). The model keeps 0:
  `Metrics.MergedMeanIsPooledMeanIff`, with `Metrics.WeightedMeanIsPooled` for the weighting that was meant.
* An empty recorder reports minimum 0, so the merged minimum can be too small: `Metrics.MergedTotalsArePooled`,
  `ConcurrentExperiment.ReportedFigures`; an example is `Metrics.EmptyRecorderLowersMinimum`.
* `delete_by_primary_key` leaves the row of `orders_by_user`, and a failure between two statements leaves the tables out
  of step: `Cassandra.InSyncIff`, `Cassandra.InSyncIffNothingDeleted`, `Cassandra.ClearKeepsSyncIff`.
* `orders_by_user` has the key `(user_id, created_at)`, so orders of one user at one time replace each other:
  `TableHistory.SecondaryKeyAgreesIff`, `RangeScan.RewriteAgreesIff`.
* `strftime` is asked for `%m` where minutes are meant (src/results/CSVWriter.cpp:29): `IsoTimestamp.CsvTimestampIff`.
* The row count is narrowed to 32 bits (src/experiment/Experiment2.cpp:35): `ConcurrentExperiment.PlansAllRowsIff`.
* A run without measurable time reports throughput 0, which can pull the averaged throughput below the pooled rate:
  `WriteRead.NeverUnderstatesIff` says for which runs it cannot, `WriteRead.UnmeasuredRunUnderstates` is an example;
  with positive times it never is below, `Averages.AverageThroughput`.
* `row_to_order` reads the rows of `orders_by_user` by the column positions of `orders_by_id`
  (src/db/CassandraClient.cpp:251-284), so every generated order comes back wrong and the date filter compares the
  description: `Store.ReadByPositionIff`, `Generator.GeneratedOrdersMisread`, `RangeScan.MisreadAllOrNothing`; the number
  it counts is right exactly as `RangeScan.MisreadCountIff` says, and 0 for the generator's description. The theorems
  about `find_by_secondary_key` and the range filter are about the decoding by the statement's own columns.
* A new results file has its header only if a construction found it missing: rows appended to a file that vanished after the
  writer was built, or to an existing empty file, have none. `CsvFile.HeaderIff` says exactly when it has one;
  `CsvFile.VanishedLosesHeader` and `CsvFile.EmptyFileLosesHeader` are examples.
* Rows appended to a text that does not end with a complete record are not read back: `Csv.TakesLinesIff`; an example is
  `Csv.UnfinishedLineMerges`.

Unfinished bodies are modelled by their evident intent: `merge_thread_results` returns `merged`, `start_timer` stores the
clock value, `generate_timestamp` formats its epoch and `random_user_id` returns a pool element.

The hypotheses of the merge theorems (`SummariseAll`, `IsMerge`) are what `MergeThreadResults` ensures, and the invariant
`ConcurrentInsert.Inv` is what `InitInv`, `StepKeepsInv` and `ReachableInv` establish for every reachable state.

Assumptions stated in contracts: at least one worker (the code divides by their number); distinct order ids and distinct
`(user_id, created_at)` pairs only in the theorems that name them.

## Model

| member | source | states |
|---|---|---|
| `OrderStatistics.PercentileCharacterised` | src/metrics/LatencyRecorder.cpp:61-71 | `percentile` on the sorted copy returns v exactly when v is the smallest recorded value that at least ceil(p*n) samples do not exceed, for every p and every non-empty list |
| `OrderStatistics.RankInBounds` | src/metrics/LatencyRecorder.cpp:66-68 | the rank is in 1..n for every n > 0, so the clamp never takes effect and the unsigned subtraction never underflows |
| `OrderStatistics.RankFormula` | src/metrics/LatencyRecorder.cpp:66-67 | the rank of the model (repeated addition) is ceil(p * n) |
| `OrderStatistics.PercentileIgnoresOrder` | src/metrics/LatencyRecorder.cpp:27-35 | two recorders with the same samples in different orders give the same percentile |
| `OrderStatistics.SortIsUnique` | src/metrics/LatencyRecorder.cpp:27-28 | the sorted copy is determined by its content, whatever algorithm sorts it |
| `OrderStatistics.SumConcat` | src/metrics/LatencyRecorder.cpp:39-40 | the sum behind the mean is additive |
| `OrderStatistics.PercentileMonotone` | src/metrics/LatencyRecorder.cpp:61-71 | percentiles grow with p |
| `OrderStatistics.TailBound` | src/metrics/LatencyRecorder.cpp:27-40 | (1 - p) * percentile(p) <= mean for every non-empty list and 0 < p < 1 |
| `Latency.LatencyRecorder.Record` | src/metrics/LatencyRecorder.cpp:12-14 | appends the sample |
| `Latency.LatencyRecorder.StopTimer` | src/metrics/LatencyRecorder.cpp:16-19 | stores the clock value and nothing else |
| `Latency.LatencyRecorder.ComputeStats` | src/metrics/LatencyRecorder.cpp:21-47 | the default result for no samples; otherwise nearest-rank p50/p95/p99, smallest, largest, mean and count, stated without sorting; the time is a number of nanoseconds that leads from the start reading to the end reading modulo 2^64, and rate times time is 1000 times the count (0 for equal readings) |
| `Results.ThroughputMeans` | src/metrics/LatencyRecorder.cpp:41-43 | throughput is operations per second, 0 without measured time |
| `Latency.LatencyRecorder.Count` | src/metrics/LatencyRecorder.cpp:51-53 | the number of samples |
| `Latency.LatencyRecorder.Reset` | src/metrics/LatencyRecorder.cpp:55-59 | no samples and zero timers |
| `Latency.SummaryOrdered` | src/metrics/LatencyRecorder.cpp:33-37 | min <= p50 <= p95 <= p99 <= max for every result |
| `Latency.SummaryTailBounds` | src/metrics/LatencyRecorder.cpp:33-40 | p50 <= 2 mean, p95 <= 20 mean, p99 <= 100 mean |
| `Latency.SummaryIgnoresOrder` | src/metrics/LatencyRecorder.cpp:27-40 | the whole result depends only on the multiset of samples |
| `Metrics.MetricsCollector.AddResult` | src/metrics/MetricsCollector.cpp:7-9 | appends the result |
| `Metrics.MetricsCollector.Collect` | src/metrics/MetricsCollector.cpp:26-30 | the statistics of each recorder, in order |
| `Metrics.MetricsCollector.Combine` | src/metrics/MetricsCollector.cpp:53-69 | op-weighted percentiles, no numbers when the total is 0; least minimum and greatest maximum in every case |
| `Metrics.MetricsCollector.MergeThreadResults` | src/metrics/MetricsCollector.cpp:20-79 | the exception exactly for no recorders; when nothing was recorded, zero count, time, throughput, mean, minimum and maximum and no numbers for percentiles; otherwise the longest of the threads' times and the merged result on top of the template, with the mean left at zero as the code does |
| `Metrics.MergedQuantileNearPooled` | src/metrics/MetricsCollector.cpp:53-73 | for every split of the samples, merged and true pooled percentile both lie within any bounds of the non-empty recorders' percentiles, so the merge error is at most that spread |
| `Metrics.MergedQuantileExact` | src/metrics/MetricsCollector.cpp:56-59 | the merged percentile times the merged count is the sum of the threads' percentiles, each taken once per operation of the thread |
| `Metrics.MergeOfTwo` | src/metrics/MetricsCollector.cpp:56-59 | for two threads: p * (m + n) = p1 * m + p2 * n |
| `Metrics.MergedTotalsArePooled` | src/metrics/MetricsCollector.cpp:32-35 | merged count and maximum are those of the pool for any split; the minimum is exactly when no recorder is empty or some sample is zero |
| `Metrics.EmptyRecorderLowersMinimum` | src/metrics/MetricsCollector.cpp:60-68 | an empty recorder beside one with a sample of 1us: merged minimum 0, pooled minimum 1 |
| `Metrics.MergedOrdered` | src/metrics/MetricsCollector.cpp:53-76 | merging keeps min <= p50 <= p95 <= p99 <= max, empty recorders included |
| `Metrics.MergedMeanIsPooledMeanIff` | src/metrics/MetricsCollector.cpp:53-74 | the merged mean is the pooled mean if and only if every sample is zero, because the accumulator is never added to |
| `Metrics.MergedMeanLost` | src/metrics/MetricsCollector.cpp:53-74 | one recorder with one sample of 1us: merged mean 0, pooled mean 1 |
| `Metrics.WeightedMeanIsPooled` | src/metrics/MetricsCollector.cpp:56-59 | weighting the means like the percentiles would give the pooled mean exactly |
| `Averages.SumResults` | src/experiment/Experiment7.cpp:179-207 | the running sums, minimum and maximum over all runs |
| `Averages.AverageResults` | src/experiment/Experiment7.cpp:170-221 | every averaged figure, every label and the notes with each run's throughput, for any positive number of runs |
| `Averages.AverageOfThree` | src/experiment/Experiment7.cpp:189-215 | three runs: each figure is the sum of the three, divided by 3 |
| `Averages.NotesOfThree` | src/experiment/Experiment7.cpp:186-205 | three runs: the notes list their throughputs, separated by slashes |
| `Averages.AverageCount` | src/experiment/Experiment7.cpp:212 | runs of n operations average to n operations |
| `Averages.AverageOrdered` | src/experiment/Experiment7.cpp:189-217 | averaging keeps min <= p50 <= p95 <= p99 <= max |
| `Averages.AverageEnds` | src/experiment/Experiment7.cpp:183-217 | starting from the largest double and from 0 loses nothing: the extremes are those of the runs |
| `Averages.AverageThroughput` | src/experiment/Experiment7.cpp:189-215 | for equal-size runs with positive times the averaged throughput is at least the pooled rate, with equality exactly when all times are equal (AM-HM, any number of runs) |
| `WriteRead.NeverUnderstatesIff` | src/metrics/LatencyRecorder.cpp:41-43 | for any number of runs of n operations, given which timers moved: the averaged throughput never understates the pooled rate if and only if all runs took measurable time, or none did, or n is 0 |
| `WriteRead.UnmeasuredRunUnderstates` | src/experiment/Experiment7.cpp:189-215 | three runs of one operation, one too short to measure and two of 1 ms: the average reports 2000/3 ops/s, the pooled rate is 1500 |
| `WriteRead.Experiment7.WritePhase` | src/experiment/Experiment7.cpp:70-112 | inserts the first min(dataset, total_rows) orders of the dataset in sequence, notes exactly their ids, records one latency per order and reports those samples under the labels of this run |
| `WriteRead.Experiment7.ReadPhase` | src/experiment/Experiment7.cpp:115-148 | looks up every id of the shuffled copy once, one latency each, and reports those samples under the labels of this run |
| `WriteRead.Experiment7.RunOnce` | src/experiment/Experiment7.cpp:22-52 | a run from a clean table; both results report as many operations as rows were written |
| `WriteRead.Experiment7.Run` | src/experiment/Experiment7.cpp:21-68 | the tables hold exactly the first min(dataset, total_rows) orders, whose number both averages report; NUM_RUNS numbered results and the averages of their write and read results; with rows and timers that all moved, both averages are ordered, count the rows and do not understate the pooled rate |
| `WriteRead.Experiment7.ComputeAverages` | src/experiment/Experiment7.cpp:223-224 | both averages from the stored results |
| `WriteRead.ReadsBackIff` | src/experiment/Experiment7.cpp:84-136 | the read phase reads back exactly the written orders, as a multiset, for every shuffle, if and only if no two different orders share an id |
| `WriteRead.SharedIdLosesOrder` | src/experiment/Experiment7.cpp:84-136 | example: of two orders under one id the later is read twice |
| `WriteRead.ReadsEachWritten` | src/experiment/Experiment7.cpp:123-136 | every lookup of every shuffle yields an inserted order with the id asked for; with distinct ids it is the one inserted under that id |
| `WriteRead.StoredById` | src/db/CassandraClient.cpp:156-175 | every written id is found and yields an inserted order with that id |
| `WriteRead.ReportedThroughput` | src/experiment/Experiment7.cpp:189-215 | results that report n samples each in a measurable time average to ordered figures and a rate that does not understate the pooled one |
| `Digits.ValueOfDecimal` | src/experiment/Experiment7.cpp:108-109 | the run number in a phase label is the decimal numeral of the run, without leading zeros |
| `WriteRead.RunIsTrusted` | src/experiment/Experiment7.cpp:21-68 | the same for the results of a whole experiment |
| `Cassandra.CassandraClient.ExecuteInsertById` | src/db/CassandraClient.cpp:100-117 | the first write of an insert, applied or not, acknowledged or not |
| `Cassandra.CassandraClient.ExecuteInsertByUser` | src/db/CassandraClient.cpp:118-134 | the second write: the eight stored columns under (user_id, created_at) |
| `Cassandra.CassandraClient.InsertOne` | src/db/CassandraClient.cpp:99-135 | two writes in order; a failing first one skips the second |
| `Cassandra.CassandraClient.InsertBatch` | src/db/CassandraClient.cpp:138-142 | all orders in order, stopping at the first failure with the earlier ones inserted |
| `Cassandra.CassandraClient.DeleteByPrimaryKey` | src/db/CassandraClient.cpp:144-153 | removes the order from orders_by_id only, or fails before or after doing so |
| `Cassandra.CassandraClient.FindByPrimaryKey` | src/db/CassandraClient.cpp:156-175 | the stored order, or a default one for a missing id |
| `Cassandra.CassandraClient.FindBySecondaryKey` | src/db/CassandraClient.cpp:178-200 | exactly the user's rows, newest first, decoded by the columns of the statement |
| `Cassandra.CassandraClient.FindByPosition` | src/db/CassandraClient.cpp:178-200 | the same rows as the code reads them, by the columns of orders_by_id, with arbitrary values where the types differ |
| `Store.ColumnsKept` | src/db/CassandraClient.cpp:69-78 | writing and reading orders_by_user by the columns of its statements keeps every column in the field of its name |
| `Store.ColumnsShifted` | src/db/CassandraClient.cpp:251-284 | as the code reads it, column k of orders_by_user goes into the field named by column k of orders_by_id; columns 4 to 6 have other types, column 8 does not exist |
| `Store.ReadByPositionIff` | src/db/CassandraClient.cpp:75-78 | reading a row of orders_by_user by the columns of orders_by_id, as the code does, can give the stored order if and only if six of its texts are the same |
| `Generator.GeneratedOrdersMisread` | src/db/CassandraClient.cpp:251-284 | so no generated order is read back as it was stored |
| `Cassandra.CassandraClient.ClearTable` | src/db/CassandraClient.cpp:208-220 | two truncations in order; a failing first one skips the second; both tables are empty on success |
| `Cassandra.ClearIsRepeatable` | src/db/CassandraClient.cpp:208-220 | after any failure, a repeated clear leaves both tables empty |
| `Cassandra.ClearKeepsSyncIff` | src/db/CassandraClient.cpp:208-220 | from tables in step, a clear that ends in any way leaves them in step if and only if orders_by_user had no rows, or no truncation took effect, or both did |
| `Cassandra.HalfClearedOutOfStep` | src/db/CassandraClient.cpp:208-220 | example: the second truncation fails, and a cleared order is still listed for its user |
| `Cassandra.PartitionScanUnique` | docker/cassandra/init.cql:66-68 | the clustering order leaves one possible answer per user |
| `Cassandra.RetryConverges` | src/db/CassandraClient.cpp:99-135 | after any number of failed attempts, whatever each write left behind, a successful retry ends where one success would |
| `Cassandra.UserTableKeepsDeleted` | src/db/CassandraClient.cpp:99-153 | over every history of inserts, deletes and clears, each statement of which may fail before or after taking effect and be retried, with ids and pairs new to the tables: orders_by_user lists exactly the orders of orders_by_id, plus those deleted since they were listed, minus those whose second write never took effect |
| `Cassandra.TablesOfHistory` | src/db/CassandraClient.cpp:99-220 | the same history read off operation by operation: orders_by_id holds exactly the orders written and not removed since, orders_by_user is exactly the index of those written there since it was last emptied |
| `Cassandra.InSyncIff` | src/db/CassandraClient.cpp:99-220 | after any such history the tables hold the same orders if and only if no order is deleted but listed and none is half inserted |
| `Cassandra.HalfInsertedNotListed` | src/db/CassandraClient.cpp:99-135 | example: the second write fails, and the order is found by id but not for its user |
| `Cassandra.InSyncIffNothingDeleted` | src/db/CassandraClient.cpp:144-153 | without failures, the tables hold the same orders if and only if nothing was deleted since the last clear |
| `Cassandra.DeletedOrderStillListed` | src/db/CassandraClient.cpp:144-153 | insert then delete: gone by id, still listed for the user |
| `TableHistory.InsertAllPuts` | src/db/CassandraClient.cpp:138-142 | sequential inserts put the two entry lists in order |
| `TableHistory.UserTableHoldsLast` | docker/cassandra/init.cql:66 | with repeated pairs, orders_by_user holds the last order of each pair and one row per distinct pair |
| `TableHistory.PartitionMembers` | src/db/CassandraClient.cpp:178-200 | without repeats a partition shows exactly the user's inserted orders |
| `TableHistory.SecondaryKeyAgreesIff` | src/db/CassandraClient.cpp:178-200 | find_by_secondary_key agrees with a plain scan of all inserted orders if and only if no two of the user's orders share created_at |
| `TableHistory.RepeatedTimeLosesOrder` | src/db/CassandraClient.cpp:178-200 | example: of two orders of one user at one time the partition shows only the later |
| `LastWriter.ExplainedStep` | src/experiment/Experiment2.cpp:59-62 | any worker's next write keeps the schedule-free explanation of a table: each key holds some worker's last entry for it |
| `LastWriter.PutAllHoldsLast` | src/experiment/Experiment1.cpp:20-24 | the sequential loop leaves the overall last entry under each key |
| `LastWriter.RaceFreeAgrees` | src/experiment/Experiment2.cpp:52-73 | when no worker's last entry for a key differs from the overall last one, every interleaving ends in the sequential table |
| `ConcurrentInsert.SlicesPartition` | src/experiment/Experiment2.cpp:38-58 | every row is in exactly one slice, whatever the remainder of the division |
| `ConcurrentInsert.SliceOfWorker` | src/experiment/Experiment2.cpp:38-58 | with q = rows / workers, the slice of worker t is from t * q to (t + 1) * q, and to the last row for the last worker |
| `ConcurrentInsert.RowsOfWorker` | src/experiment/Experiment2.cpp:56-66 | at any time worker t has written the rows from t * q up to its cursor, one sample each; at the join these are q, and q + rows % workers for the last worker |
| `ConcurrentInsert.StepKeepsInv` | src/experiment/Experiment2.cpp:59-67 | each write of each worker keeps the invariant on tables, cursors, recorders and completed rows |
| `ConcurrentInsert.StepsKeepInv` | src/experiment/Experiment2.cpp:52-69 | the invariant holds in every state of every schedule |
| `ConcurrentInsert.ReachableAgreement` | src/db/CassandraClient.cpp:99-135 | in every reachable state each orders_by_user row has its order in orders_by_id, and the orders missing there are exactly those in flight, one per worker at most (distinct ids and pairs) |
| `ConcurrentInsert.JoinInSync` | src/experiment/Experiment2.cpp:71-73 | at the join both tables hold the same orders |
| `ConcurrentInsert.EachRowOnce` | src/experiment/Experiment2.cpp:56-62 | a complete run inserts each row index exactly once |
| `ConcurrentInsert.RunsTerminate` | src/experiment/Experiment2.cpp:59-73 | a run has at most two writes per row, is complete exactly when it has made them all, and until then some worker can go on |
| `ConcurrentInsert.ConcurrentRun` | src/experiment/Experiment2.cpp:52-73 | every full schedule ends with each row inserted once and, for distinct orders, with both tables in agreement and in the store of the sequential loop |
| `ConcurrentInsert.ScheduleIndependentIff` | src/experiment/Experiment2.cpp:52-73 | all complete schedules end in the sequential store if and only if no worker's last order for an id or pair differs from the overall last one |
| `ConcurrentInsert.DistinctOrdersNoRaces` | src/experiment/Experiment2.cpp:52-73 | distinct ids and pairs meet that condition |
| `ConcurrentExperiment.PlansAllRowsIff` | src/experiment/Experiment2.cpp:35-37 | all requested rows are planned if and only if their number is below 2^32 |
| `ConcurrentExperiment.PlanOfDataset` | src/experiment/Experiment2.cpp:33-38 | the rows planned are the first of the dataset, as many as the smaller of its size and total_rows, modulo 2^32 |
| `ConcurrentExperiment.FullWrapPlansNothing` | src/experiment/Experiment2.cpp:35-38 | example: of 2^32 rows none is planned |
| `ConcurrentExperiment.Experiment2.Setup` | src/experiment/Experiment2.cpp:23-30 | empty tables and the labels of the experiment |
| `ConcurrentExperiment.Experiment2.NewRecorders` | src/experiment/Experiment2.cpp:43-47 | one empty recorder per worker, all distinct |
| `ConcurrentExperiment.Experiment2.WorkerStep` | src/experiment/Experiment2.cpp:59-67 | the program variables follow one step of the transition system |
| `ConcurrentExperiment.Experiment2.Workers` | src/experiment/Experiment2.cpp:50-73 | spawning, any schedule, join: tables and recorders are those of the transition system; after a complete schedule each recorder holds rows / workers samples, the last one the rest too |
| `ConcurrentExperiment.Experiment2.StampTimers` | src/experiment/Experiment2.cpp:83-87 | every recorder gets its own two clock readings; the samples do not change |
| `ConcurrentExperiment.Experiment2.Report` | src/experiment/Experiment2.cpp:89-105 | the merged figures with count, time and throughput taken from the rows and the wall clock |
| `ConcurrentExperiment.Experiment2.Run` | src/experiment/Experiment2.cpp:32-105 | workers, join and report for every complete schedule: as many samples as rows, shared among the recorders as the slices are, the result of a run with and without rows, and what its figures say about all samples |
| `ConcurrentExperiment.Experiment2.Execute` | src/experiment/Experiment2.cpp:17-21 | the same from any prior content of the tables, with the labels of setup, the thread count, the row count, the wall-clock time and the rate that follows from it |
| `ConcurrentExperiment.RecordedTotal` | src/experiment/Experiment2.cpp:56-66 | the recorders together hold one sample per row, and none is empty when there are at least as many rows as workers |
| `ConcurrentExperiment.ReportedFigures` | src/experiment/Experiment2.cpp:89-105 | the reported count is the row count, the figures are ordered, the maximum is that of all samples, and the minimum is if and only if there are at least as many rows as workers or some sample is zero |
| `ConcurrentExperiment.GeneratedRun` | src/experiment/Experiment2.cpp:52-73 | on a generated dataset drawn apart, every full schedule ends in the store of the sequential loop with both tables in step |
| `RangeScan.Experiment5.FilterPartition` | src/experiment/Experiment5.cpp:62-66 | the rows within the range, in order |
| `RangeScan.FilterMembers` | src/experiment/Experiment5.cpp:62-66 | the filter keeps exactly the rows with start <= created_at <= end |
| `RangeScan.Experiment5.RunWindow` | src/experiment/Experiment5.cpp:42-83 | the total counts, query by query, the stored keys in the range (rows decoded as meant), those whose description is in the range (rows read as the code does), or the rows of the range scan (other databases); one latency per query, between the start and the stop of the timer |
| `RangeScan.TotalAskedCounts` | src/experiment/Experiment5.cpp:49-79 | the total of a window is the number of pairs of a query and a stored key of its user with start <= created_at <= end |
| `RangeScan.PartitionFilterIsRangeScan` | src/experiment/Experiment5.cpp:56-71 | filtering the user's partition equals the reversed user part of any global range scan ordered by created_at, whichever way it breaks ties |
| `RangeScan.RewriteAgreesIff` | src/experiment/Experiment5.cpp:56-71 | that rewrite is right for every range if and only if the user has no two orders at one created_at |
| `RangeScan.RepeatedTimeDisagrees` | src/experiment/Experiment5.cpp:56-71 | example: two orders of one user at one time, one filtered row against two scanned |
| `RangeScan.MisreadAllOrNothing` | src/experiment/Experiment5.cpp:62-66 | with rows read by position, the date filter compares the description: rows that share it all pass or all fail |
| `RangeScan.MisreadCountIff` | src/experiment/Experiment5.cpp:62-76 | for rows that share a description, the number counted is right if and only if each row is in the range just when the description is |
| `RangeScan.LateTextCountsNothing` | src/experiment/Experiment5.cpp:62-76 | with a description that starts above the digits, as the generator's does, a query that ends with a time counts no row, which is right only if the user has none in the range |
| `RangeScan.ConfusedIsZero` | src/experiment/Experiment5.cpp:42-83 | then the total of a whole window is 0 |
| `RangeScan.WithinIsEpochRange` | src/experiment/Experiment5.cpp:63 | for generated timestamps the string range test is the epoch range test |
| `Calendar.EpochOfCivil` | src/data/DataGenerator.cpp:144-153 | the calendar date of every epoch is valid and converts back |
| `Calendar.CivilOfEpoch` | src/data/DataGenerator.cpp:144-153 | every valid date from 1970 on is the date of its epoch |
| `Calendar.EpochOrder` | src/data/DataGenerator.cpp:144-153 | epochs compare as the date fields do, most significant first |
| `Calendar.DaysBeforeYearClosed` | src/data/DataGenerator.cpp:150 | the year-by-year day count equals the closed Gregorian formula |
| `Calendar.ClosedEpoch` | src/data/DataGenerator.cpp:144-153 | the epoch of every valid date is the closed Gregorian day number (year begun in March, no month lengths) times 86400 plus the clock time |
| `Calendar.DateOfEpoch` | src/data/DataGenerator.cpp:150 | a valid date is the date of an epoch if and only if that formula gives the epoch |
| `Calendar.EndOfMarch` | src/data/DataGenerator.cpp:150 | example: epoch 1648684800 is 2022-03-31 |
| `IsoTimestamp.IsoOrder` | src/data/DataGenerator.cpp:144-158 | for all epochs in the years 1970 to 9999 the strings have 20 characters and compare exactly as the epochs |
| `IsoTimestamp.IsoOrderLimit` | src/data/DataGenerator.cpp:156 | the embedding holds below a bound if and only if the bound is at most the end of year 9999 |
| `IsoTimestamp.ParseRender` | src/data/DataGenerator.cpp:144-158 | a strict RFC 3339 reader recovers the epoch |
| `IsoTimestamp.RenderParse` | src/data/DataGenerator.cpp:144-158 | whatever that reader accepts is what would be printed |
| `IsoTimestamp.IsoMeaning` | src/data/DataGenerator.cpp:144-158 | what the text says, read off its characters: separators in place, fields in range, and their closed day number and clock time give the epoch |
| `IsoTimestamp.RenderCharacters` | src/data/DataGenerator.cpp:156 | the twenty characters, two digits at a time |
| `IsoTimestamp.CsvTimestampIff` | src/results/CSVWriter.cpp:24-30 | the CSV timestamp, formatted with %m for minutes, is the right time if and only if minute and month have the same number |
| `IsoTimestamp.CsvTimestampFields` | src/results/CSVWriter.cpp:29 | the CSV timestamp shows the month in the place of the minutes and the right text everywhere else |
| `IsoTimestamp.CsvTimestampWrong` | src/results/CSVWriter.cpp:29 | at epoch 0 the row says one minute past midnight |
| `Uuid.TextIsVersion4` | src/data/DataGenerator.cpp:117-126 | for all sixteen bytes the text has the 36-character version-4 form |
| `Uuid.TextLayout` | src/data/DataGenerator.cpp:120-126 | the sixteen bytes in order, two digits each, at their places between the hyphens |
| `Uuid.HexDigitCode` | src/data/DataGenerator.cpp:121 | digits 0 to 9, then a to f, by character code |
| `Uuid.DecodeText` | src/data/DataGenerator.cpp:120-126 | decoding the text gives back all bytes |
| `Uuid.TextCollides` | src/data/DataGenerator.cpp:117-126 | two draws print alike if and only if they agree outside the six fixed bits |
| `Uuid.Version4IsPrinted` | src/data/DataGenerator.cpp:117-126 | every text of version-4 form is the print of some draw |
| `Generator.DataGenerator.GenerateUuid` | src/data/DataGenerator.cpp:109-127 | sixteen draws, the two masks and the text, position by position |
| `Generator.DataGenerator.constructor` | src/data/DataGenerator.cpp:29-35 | a pool of 100000 UUIDs, each from its own sixteen draws |
| `Generator.DataGenerator.GenerateTimestamp` | src/data/DataGenerator.cpp:138-142 | the text of base plus one draw within the range (the evident intent of an unfinished body) |
| `Generator.DataGenerator.RandomUserId` | src/data/DataGenerator.cpp:134-136 | the pool element its draw selects (the evident intent of an unfinished body) |
| `Generator.DataGenerator.RandomStatus` | src/data/DataGenerator.cpp:129-132 | the status its draw selects |
| `Generator.DataGenerator.GenerateOne` | src/data/DataGenerator.cpp:38-54 | the order made of the next 37 draws, field by field |
| `Generator.DataGenerator.GenerateN` | src/data/DataGenerator.cpp:56-63 | n orders from consecutive draws |
| `Generator.DataGenerator.OrderAtIsGenerated` | src/data/DataGenerator.cpp:38-54 | whatever the draws: version-4 ids, user and status from their pools, amount 1.00 to 999.99, quantity 1 to 10, a time within the two years, updated_at equal to created_at |
| `Generator.DataGenerator.OrderFields` | src/data/DataGenerator.cpp:38-54 | every field of an order from its own draws, with the constants written out |
| `Generator.DataGenerator.ProductsAgreeIff` | src/data/DataGenerator.cpp:42 | two orders are of one product if and only if their product draws agree outside the six fixed bits |
| `Generator.DataGenerator.DatasetAt` | src/data/DataGenerator.cpp:56-63 | order i of a dataset is made of the draws from 37 * i on |
| `Generator.EveryValueDrawn` | src/data/DataGenerator.cpp:49-50 | every value of a range is drawn, by exactly the numbers congruent to it |
| `Generator.DataGenerator.DatasetIsGenerated` | src/data/DataGenerator.cpp:56-63 | the same for every order of a dataset |
| `Generator.DataGenerator.DistinctIdsIff` | src/data/DataGenerator.cpp:38-63 | the orders of a generated dataset have distinct ids if and only if no two id draws agree outside the six fixed bits |
| `Generator.DataGenerator.DistinctPairsIff` | src/data/DataGenerator.cpp:38-63 | and distinct (user_id, created_at) pairs if and only if no two orders draw one user and one epoch |
| `Generator.DataGenerator.SampleUserIds` | src/data/DataGenerator.cpp:82-96 | n pool elements chosen by a generator of its own; the object does not change; the exception exactly for an empty pool |
| `Generator.GeneratedTimes` | src/data/DataGenerator.cpp:29-30 | generated times run from new year 2022 to new year 2024 and sort as strings |
| `CsvFile.CSVWriter.Escape` | src/results/CSVWriter.cpp:104-119 | the character loop produces the RFC 4180 form of the field |
| `Csv.FeedField` | src/results/CSVWriter.cpp:104-119 | a reference reader gets back any string whatsoever, ended by the separator after it |
| `Csv.EscapeRules` | src/results/CSVWriter.cpp:104-119 | a field is left as it is if and only if it has no comma, double quote, line feed or carriage return; otherwise it is enclosed in double quotes with those inside doubled |
| `Csv.QuotedExample` | src/results/CSVWriter.cpp:104-119 | example: a"b, is written with quotes around it and the inner one doubled |
| `Csv.LineOfTwo` | src/results/CSVWriter.cpp:30-51 | commas between the fields, a line feed at the end |
| `Csv.FeedLine` | src/results/CSVWriter.cpp:30-51 | one written line is read as one record with the same fields |
| `Csv.LineInjective` | src/results/CSVWriter.cpp:30-51 | different rows are never written alike |
| `Csv.AppendLine` | src/results/CSVWriter.cpp:18-51 | appending a row to complete records appends exactly that record |
| `Csv.TakesLinesIff` | src/results/CSVWriter.cpp:18-19 | appended lines are read as further records if and only if the existing text is a sequence of complete records |
| `Csv.UnfinishedLineMerges` | src/results/CSVWriter.cpp:18-19 | example: a text without its last line end runs into the next row |
| `CsvFile.CSVWriter.Open` | src/results/CSVWriter.cpp:11-16 | header for a missing file, existing content untouched, the exception exactly for a missing file that cannot be created |
| `CsvFile.CSVWriter.WriteHeader` | src/results/CSVWriter.cpp:68-97 | the file is the header line, or unchanged when it cannot be opened |
| `CsvFile.CSVWriter.RowText` | src/results/CSVWriter.cpp:30-50 | labels and notes escaped, numbers as printed, in column order |
| `CsvFile.RowShows` | src/results/CSVWriter.cpp:30-50 | each figure of the result stands under its own column name |
| `CsvFile.WrittenRow` | src/results/CSVWriter.cpp:18-51 | in the parsed file too, looked up by name in the parsed header; the file stays ready for more rows |
| `CsvFile.NewFileReady` | src/results/CSVWriter.cpp:68-97 | a new file is headed and ready for rows |
| `CsvFile.CSVWriter.Write` | src/results/CSVWriter.cpp:18-54 | one line appended, to an empty text if the file is gone, or the file unchanged when it cannot be opened; a headed file of complete records then reads back with one more record, which shows each of the nineteen figures of the result under its own name in the header |
| `CsvFile.CSVWriter.WriteAll` | src/results/CSVWriter.cpp:56-60 | the rows in order, up to the first that cannot be written |
| `CsvFile.FileReadsBack` | src/results/CSVWriter.cpp:11-119 | a new file reads back, after any sequence of writes and re-openings, as one header and the written rows in order, every text unchanged |
| `CsvFile.AppendedReadsBack` | src/results/CSVWriter.cpp:11-60 | the same for a file that already held any complete records: those, then the written rows, nineteen fields each |
| `CsvFile.FileHolds` | src/results/CSVWriter.cpp:11-60 | with the file vanishing at any time, it holds exactly the records that the same operations give on a list of records |
| `CsvFile.HeaderIff` | src/results/CSVWriter.cpp:11-16 | for any starting file of complete records and any operations, the file reads back with the header first if and only if it was headed at the start and never vanished, or the first operation with an effect since it was last missing was a construction |
| `CsvFile.RowIsNoHeader` | src/results/CSVWriter.cpp:29-30 | no row that is written has the text of the header, so the condition covers every run of the program |
| `CsvFile.VanishedLosesHeader` | src/results/CSVWriter.cpp:18-19 | example: a file that vanishes under a living writer gets its next rows without the header |
| `CsvFile.EmptyFileLosesHeader` | src/results/CSVWriter.cpp:99-102 | example: an existing empty file counts as existing and never gets a header |
| `Summary.SummaryPrinter.CollectNames` | src/results/SummaryPrinter.cpp:199-205 | the names in order of first appearance |
| `Summary.SummaryPrinter.PrintGroup` | src/results/SummaryPrinter.cpp:219-228 | the results of one experiment in input order |
| `Summary.SummaryPrinter.PrintFinalSummary` | src/results/SummaryPrinter.cpp:190-229 | a heading and the group for each name; nothing for no results |
| `Summary.StableGrouping` | src/results/SummaryPrinter.cpp:198-229 | each result exactly once, groups by first appearance, input order inside a group: the stable grouping, characterised by positions |
| `Summary.LinesShowOrder` | src/results/SummaryPrinter.cpp:208-229 | the printed lines show the results in exactly that order |
| `Summary.LinesUnderHeadings` | src/results/SummaryPrinter.cpp:208-229 | each heading once, in the order of the names, and each entry under the heading of its own experiment |
| `Summary.HeadingsOnce` | src/results/SummaryPrinter.cpp:198-229 | the headings of a summary are exactly the experiments of its input, without repetition |

## Left out

- Floating-point rounding: doubles are exact reals, and 0.50, 0.95 and 0.99 are exact; the printed form of numbers is any text without comma, quote or line break.
- Drivers, prepared statements, futures, connections and consistency levels: foreign libraries; a statement is an update or a lookup of a keyed table that may fail before or after taking effect.
- Cassandra.CassandraClient.FindBySecondaryKey: decodes the columns of the statement; the code's own reading, which takes three columns at a type they do not have and so has no defined result there, is `Cassandra.CassandraClient.FindByPosition` with arbitrary values.
- Not-a-number percentiles in a stored result: merging recorders without any sample divides 0 by 0; the sums are then no numbers, and the outcome says so instead of the percentile fields.
- Values left uninitialised in a default-constructed order: zero in the model.
- Column types of the tables: keys and columns are compared as the bound strings; the clustering order on created_at is the string order, which is the time order for the generator's timestamps.
- Epochs before 1970 and the 25-byte limit of the time buffer: the generator never reaches them.
- Console formatting, and how a number is printed: a function from numbers to text is a parameter.
- A failing insert inside a worker thread: the uncaught exception ends the program, so the runs of the transition system are those in which every write is acknowledged; single inserts, batches, deletes and clears do model failures.
- Overflow of 64-bit counters: operation counts and sums are unbounded, and latencies are natural numbers; the timer subtraction and the 32-bit row count do wrap as in the code.
- Teardown of per-thread connections: the Cassandra client is one shared object.
- Cache flushing, restarts and reconnects between write and read phase: external processes that keep the rows.
- Experiments 3, 4 and 6, the base class, configuration, `main`, the PostgreSQL and MongoDB clients beyond the range query: the same loops again, or plumbing.
- generate_date_range: a stub in the code; ranges are parameters.
- generate_random_order_ids: the same sampling loop as `sample_user_ids`.
