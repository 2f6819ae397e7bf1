/** The concurrent insert experiment as a program: it prepares the workers, lets them run under any
    schedule, joins them and merges their recorders. */
module ConcurrentExperiment {
  import opened Store
  import opened Cassandra
  import opened ConcurrentInsert
  import opened Results
  import opened Latency
  import opened Metrics
  import Generator

  const TWO_TO_32 := 0x1_0000_0000

  /** The row count goes through a 32-bit variable. */
  function PlanOf(dataset: seq<Order>, totalRows: nat, threadCount: nat): Plan {
    Plan(dataset[..RowCount(dataset, totalRows)], threadCount)
  }

  /** The rows that are planned: so many of the dataset's first, counted modulo 2^32. */
  lemma PlanOfDataset(dataset: seq<Order>, totalRows: nat, threadCount: nat)
    ensures var p := PlanOf(dataset, totalRows, threadCount);
            && p.threads == threadCount && |p.orders| == RowCount(dataset, totalRows)
            && forall i :: 0 <= i < |p.orders| ==> p.orders[i] == dataset[i]
  {}

  /** The smaller of the dataset's size and the configured number, narrowed to 32 bits. */
  function RowCount(dataset: seq<Order>, totalRows: nat): (n: nat)
    ensures |dataset| <= totalRows ==> n == |dataset| % 0x1_0000_0000
    ensures totalRows <= |dataset| ==> n == totalRows % 0x1_0000_0000
  {
    (if |dataset| < totalRows then |dataset| else totalRows) % TWO_TO_32
  }

  /** All requested rows are planned exactly when their number fits in 32 bits. */
  lemma PlansAllRowsIff(dataset: seq<Order>, totalRows: nat, threadCount: nat)
    ensures var wanted := if |dataset| < totalRows then |dataset| else totalRows;
            PlanOf(dataset, totalRows, threadCount).orders == dataset[..wanted] <==> wanted < TWO_TO_32
  {
    var wanted := if |dataset| < totalRows then |dataset| else totalRows;
    assert |PlanOf(dataset, totalRows, threadCount).orders| == wanted % TWO_TO_32;
  }

  /** 2^32 rows: none is planned. */
  lemma FullWrapPlansNothing(dataset: seq<Order>, threadCount: nat)
    requires |dataset| == TWO_TO_32
    ensures PlanOf(dataset, TWO_TO_32, threadCount).orders == [] != dataset
  {
    PlansAllRowsIff(dataset, TWO_TO_32, threadCount);
  }

  /** The workers' latencies of a complete run, one per row. */
  lemma {:induction false} RecordedPrefix(p: Plan, s: State, k: nat)
    requires Inv(p, s) && Complete(p, s) && k <= p.threads
    ensures |Pool(s.recorded[..k])| == if k == p.threads then p.Total() else p.Start(k)
  {
    if k > 0 {
      RecordedPrefix(p, s, k - 1);
      assert s.recorded[..k][..k - 1] == s.recorded[..k - 1];
      SlicesAbut(p, k - 1);
    }
  }

  lemma RecordedTotal(p: Plan, s: State)
    requires Inv(p, s) && Complete(p, s)
    ensures |Pool(s.recorded)| == p.Total()
    ensures p.Total() >= p.threads ==> forall t :: 0 <= t < p.threads ==> s.recorded[t] != []
  {
    RecordedPrefix(p, s, p.threads);
    assert s.recorded[..p.threads] == s.recorded;
    if p.Total() >= p.threads {
      forall t | 0 <= t < p.threads ensures s.recorded[t] != [] {
        SliceBounds(p, t);
        RowsForEveryThread(p.Total(), p.threads);
      }
    }
  }

  lemma RowsRecorded(p: Plan, schedule: Schedule, s: State)
    requires p.Valid() && Shape(p, Init(p)) && Steps(p, Init(p), schedule, s) && Shape(p, s) && Complete(p, s)
    ensures Inv(p, s) && |Pool(s.recorded)| == p.Total() && |s.recorded| == p.threads
    ensures Shared(Sizes(s.recorded), |p.orders|, p.threads)
  {
    InitInv(p);
    StepsKeepInv(p, Init(p), schedule, s);
    RecordedTotal(p, s);
    JoinShared(p, s);
  }

  lemma PlannedRun(p: Plan, dataset: seq<Order>, totalRows: nat, threadCount: nat, schedule: Schedule, s: State)
    requires p == PlanOf(dataset, totalRows, threadCount) && p.Valid() && Shape(p, Init(p))
    requires Steps(p, Init(p), schedule, s) && Shape(p, s) && Complete(p, s)
    ensures Inv(p, s) && |s.recorded| == p.threads == threadCount && p.Total() == RowCount(dataset, totalRows)
    ensures Shared(Sizes(s.recorded), RowCount(dataset, totalRows), threadCount)
  {
    RowsRecorded(p, schedule, s);
    PlanOfDataset(dataset, totalRows, threadCount);
  }

  lemma RowsForEveryThread(total: nat, threads: nat)
    requires total >= threads >= 1
    ensures total / threads >= 1
  {}

  /** The labels that setup gives a result. */
  function Labels(r: BenchmarkResult, threads: nat): BenchmarkResult {
    r.(database := "cassandra", experimentName := "experiment 2 concurrent_insert", operation := "insert",
       indexType := "primary", threadCount := threads)
  }

  /** result is the merge of these statistics on top of the template's labels, with count, time and
      throughput overwritten; zeros, and no numbers for percentiles, when nothing was recorded. */
  ghost predicate IsReport(result: BenchmarkResult, outcome: MergeOutcome, stats: seq<BenchmarkResult>,
                           template: BenchmarkResult, total: nat, wallMs: real)
  {
    && (outcome.NothingRecorded? <==> TotalOps(stats) == 0)
    && (outcome.Merged? <==> TotalOps(stats) > 0)
    && (outcome.Merged? ==> IsMerge(outcome.result, stats, template))
    && (outcome.NothingRecorded? ==>
          outcome.result == template.(totalOps := 0, totalTimeMs := 0.0, throughputOpsSec := 0.0,
                                      meanUs := 0.0, minUs := 0.0, maxUs := 0.0))
    && !outcome.NoRecorders?
    && result == outcome.result.(totalOps := total, totalTimeMs := wallMs,
                                 throughputOpsSec := Throughput(total, wallMs))
  }

  /** Each of the workers holds rows / workers samples, the last one all the rest. */
  ghost predicate Shared(sizes: seq<nat>, rows: nat, workers: nat) {
    && |sizes| == workers > 0
    && forall t :: 0 <= t < workers ==>
         sizes[t] == if t + 1 < workers then rows / workers else rows / workers + rows % workers
  }

  function Sizes(runs: seq<seq<nat>>): (sizes: seq<nat>)
    ensures |sizes| == |runs| && forall t :: 0 <= t < |runs| ==> sizes[t] == |runs[t]|
  {
    seq(|runs|, t requires 0 <= t < |runs| => |runs[t]|)
  }

  lemma JoinShared(p: Plan, s: State)
    requires Inv(p, s) && Complete(p, s)
    ensures Shared(Sizes(s.recorded), |p.orders|, p.threads)
  {
    forall t | 0 <= t < p.threads
      ensures |s.recorded[t]| == |p.orders| / p.threads + (if t + 1 < p.threads then 0 else |p.orders| % p.threads)
    {
      RowsOfWorker(p, s, t);
    }
  }

  /** What the figures of a run say about all its samples. */
  ghost predicate FiguresOf(result: BenchmarkResult, p: Plan, samples: seq<nat>) {
    && Ordered(result)
    && IsLargest(samples, result.maxUs)
    && (IsSmallest(samples, result.minUs) <==> p.Total() >= p.threads || 0 in samples)
  }

  class Experiment2 {
    const client: CassandraClient
    const dataset: seq<Order>
    const totalRows: nat
    const threadCount: nat
    var threadRecorders: seq<LatencyRecorder>
    var result: BenchmarkResult

    constructor (client: CassandraClient, dataset: seq<Order>, totalRows: nat, threadCount: nat)
      ensures this.client == client && this.dataset == dataset
      ensures this.totalRows == totalRows && this.threadCount == threadCount
      ensures threadRecorders == [] && result == DEFAULT_RESULT
    {
      this.client, this.dataset, this.totalRows, this.threadCount := client, dataset, totalRows, threadCount;
      threadRecorders, result := [], DEFAULT_RESULT;
    }

    method Setup()
      modifies this`result, client
      ensures client.Contents() == EMPTY
      ensures result == Labels(old(result), threadCount)
    {
      var cleared := client.ClearTable(Acknowledged, Acknowledged);
      result := result.(database := "cassandra", experimentName := "experiment 2 concurrent_insert",
                        operation := "insert", indexType := "primary", threadCount := threadCount);
    }

    /** The program variables show the state s. */
    ghost predicate Shows(s: State, cursor: array<nat>, pending: array<bool>, recorders: seq<LatencyRecorder>)
      reads client, cursor, pending, recorders
    {
      && client.Contents() == s.tables
      && cursor[..] == s.cursor && pending[..] == s.pending
      && |recorders| == |s.recorded|
      && (forall t :: 0 <= t < |recorders| ==> recorders[t].latenciesUs == s.recorded[t])
      && (forall t, u :: 0 <= t < u < |recorders| ==> recorders[t] != recorders[u])
    }

    /** One write by worker t: half of insert_one, and on the second half the recording. */
    method WorkerStep(p: Plan, t: nat, us: nat, cursor: array<nat>, pending: array<bool>,
                      recorders: seq<LatencyRecorder>, ghost s: State)
      requires Shape(p, s) && Enabled(p, s, t) && Shows(s, cursor, pending, recorders)
      modifies client, cursor, pending, recorders
      ensures Shows(Step(p, s, t, us), cursor, pending, recorders)
    {
      var i := cursor[t];
      if !pending[t] {
        var ok := client.ExecuteInsertById(p.orders[i], Acknowledged);
        pending[t] := true;
      } else {
        var ok := client.ExecuteInsertByUser(p.orders[i], Acknowledged);
        pending[t] := false;
        cursor[t] := i + 1;
        recorders[t].Record(us);
      }
    }

    method NewRecorders(n: nat) returns (recorders: seq<LatencyRecorder>)
      ensures |recorders| == n && fresh(recorders)
      ensures forall t :: 0 <= t < n ==> recorders[t].latenciesUs == []
      ensures forall t, u :: 0 <= t < u < n ==> recorders[t] != recorders[u]
    {
      recorders := [];
      for i := 0 to n
        invariant |recorders| == i && fresh(recorders)
        invariant forall t :: 0 <= t < i ==> recorders[t].latenciesUs == []
        invariant forall t, u :: 0 <= t < u < i ==> recorders[t] != recorders[u]
      {
        var r := new LatencyRecorder();
        recorders := recorders + [r];
      }
    }

    /** The worker threads under an arbitrary complete schedule, from spawning to the join. */
    method Workers(p: Plan, schedule: Schedule, ghost final: State) returns (recorders: seq<LatencyRecorder>)
      requires p.Valid() && Shape(p, Init(p)) && client.Contents() == EMPTY
      requires Steps(p, Init(p), schedule, final)
      modifies client
      ensures client.Contents() == final.tables
      ensures |recorders| == |final.recorded| && fresh(recorders)
      ensures forall t :: 0 <= t < |recorders| ==> recorders[t].latenciesUs == final.recorded[t]
      ensures forall t, u :: 0 <= t < u < |recorders| ==> recorders[t] != recorders[u]
      ensures Shape(p, final) && (Complete(p, final) ==> Shared(Sizes(final.recorded), |p.orders|, p.threads))
    {
      recorders := NewRecorders(p.threads);
      var cursor := new nat[p.threads](t requires 0 <= t < p.threads => p.Start(t));
      var pending := new bool[p.threads](t => false);
      ghost var s := Init(p);
      assert cursor[..] == s.cursor;
      assert pending[..] == s.pending;
      for k := 0 to |schedule|
        invariant Shape(p, s) && Shows(s, cursor, pending, recorders)
        invariant Steps(p, s, schedule[k..], final)
        invariant fresh(cursor) && fresh(pending) && fresh(recorders)
      {
        var t, us := schedule[k].0, schedule[k].1;
        assert schedule[k..][0] == schedule[k] && schedule[k..][1..] == schedule[k + 1..];
        WorkerStep(p, t, us, cursor, pending, recorders, s);
        s := Step(p, s, t, us);
      }
      assert schedule[|schedule|..] == [];
      if Complete(p, final) {
        RowsRecorded(p, schedule, final);
      }
    }

    /** After the join every recorder's timer is started and stopped, each at its own clock readings. */
    method StampTimers(recorders: seq<LatencyRecorder>, stamps: seq<(uint64, uint64)>)
      requires |stamps| == |recorders|
      requires forall t, u :: 0 <= t < u < |recorders| ==> recorders[t] != recorders[u]
      modifies recorders
      ensures forall t :: 0 <= t < |recorders| ==> recorders[t].latenciesUs == old(recorders[t].latenciesUs)
      ensures forall t :: 0 <= t < |recorders| ==> (recorders[t].startNs, recorders[t].endNs) == stamps[t]
    {
      for i := 0 to |recorders|
        invariant forall t :: 0 <= t < |recorders| ==> recorders[t].latenciesUs == old(recorders[t].latenciesUs)
        invariant forall t :: 0 <= t < i ==> (recorders[t].startNs, recorders[t].endNs) == stamps[t]
      {
        recorders[i].StartTimer(stamps[i].0);
        recorders[i].StopTimer(stamps[i].1);
      }
    }

    /** Merge of the recorders, with counts and times overwritten by the row count and the wall clock. */
    method Report(total: nat, wallMs: real) returns (outcome: MergeOutcome, ghost stats: seq<BenchmarkResult>)
      requires threadRecorders != []
      modifies this`result
      ensures |stats| == |threadRecorders|
      ensures forall t :: 0 <= t < |stats| ==> Summarises(stats[t], threadRecorders[t].latenciesUs)
      ensures IsReport(result, outcome, stats, old(result), total, wallMs)
    {
      var collector := new MetricsCollector();
      outcome, stats := collector.MergeThreadResults(threadRecorders, result);
      var merged := outcome.result;
      merged := merged.(totalOps := total, totalTimeMs := wallMs, throughputOpsSec := Throughput(total, wallMs));
      result := result.(totalOps := merged.totalOps, totalTimeMs := merged.totalTimeMs,
                        p50Us := merged.p50Us, p95Us := merged.p95Us, p99Us := merged.p99Us,
                        minUs := merged.minUs, maxUs := merged.maxUs, meanUs := merged.meanUs,
                        throughputOpsSec := merged.throughputOpsSec);
    }

    /** Workers, join and timers. */
    method RunWorkers(p: Plan, schedule: Schedule, ghost final: State, stamps: seq<(uint64, uint64)>)
      requires p.Valid() && |stamps| == p.threads && client.Contents() == EMPTY
      requires Shape(p, Init(p)) && Steps(p, Init(p), schedule, final) && |final.recorded| == p.threads
      modifies this`threadRecorders, client
      ensures client.Contents() == final.tables
      ensures |threadRecorders| == |final.recorded|
      ensures forall t :: 0 <= t < |threadRecorders| ==> threadRecorders[t].latenciesUs == final.recorded[t]
    {
      threadRecorders := Workers(p, schedule, final);
      StampTimers(threadRecorders, stamps);
    }

    /** The run: workers, join, timers, report. */
    method Run(schedule: Schedule, ghost final: State, stamps: seq<(uint64, uint64)>, wallMs: real)
      returns (outcome: MergeOutcome, ghost stats: seq<BenchmarkResult>)
      requires threadCount >= 1 && |stamps| == threadCount && client.Contents() == EMPTY
      requires var p := PlanOf(dataset, totalRows, threadCount);
               Shape(p, Init(p)) && Steps(p, Init(p), schedule, final) && Shape(p, final) && Complete(p, final)
      modifies this, client
      ensures client.Contents() == final.tables
      ensures SummariseAll(stats, final.recorded)
      ensures TotalOps(stats) == RowCount(dataset, totalRows)
      ensures Shared(Sizes(final.recorded), RowCount(dataset, totalRows), threadCount)
      ensures IsReport(result, outcome, stats, old(result), TotalOps(stats), wallMs)
      ensures outcome.Merged? ==> FiguresOf(result, PlanOf(dataset, totalRows, threadCount), Pool(final.recorded))
    {
      var p := PlanOf(dataset, totalRows, threadCount);
      PlannedRun(p, dataset, totalRows, threadCount, schedule, final);
      RunWorkers(p, schedule, final, stamps);
      outcome, stats := Report(p.Total(), wallMs);
      RunFigures(p, final, stats, outcome, old(result), result, wallMs);
    }

    /** Clear, run, and let the recorders go. */
    method Execute(schedule: Schedule, ghost final: State, stamps: seq<(uint64, uint64)>, wallMs: real)
      returns (outcome: MergeOutcome, ghost stats: seq<BenchmarkResult>)
      requires threadCount >= 1 && |stamps| == threadCount
      requires var p := PlanOf(dataset, totalRows, threadCount);
               Shape(p, Init(p)) && Steps(p, Init(p), schedule, final) && Shape(p, final) && Complete(p, final)
      modifies this, client
      ensures client.Contents() == final.tables && threadRecorders == []
      ensures SummariseAll(stats, final.recorded)
      ensures TotalOps(stats) == RowCount(dataset, totalRows)
      ensures Shared(Sizes(final.recorded), RowCount(dataset, totalRows), threadCount)
      ensures IsHeaded(result, RowCount(dataset, totalRows), threadCount, wallMs)
      ensures IsReport(result, outcome, stats, Labels(old(result), threadCount), TotalOps(stats), wallMs)
      ensures outcome.Merged? ==> FiguresOf(result, PlanOf(dataset, totalRows, threadCount), Pool(final.recorded))
    {
      Setup();
      outcome, stats := Run(schedule, final, stamps, wallMs);
      ReportedHeader(result, outcome, stats, old(result), threadCount, TotalOps(stats), wallMs);
      threadRecorders := [];
    }
  }

  /** What the reported figures say about the whole run: the count is that of the rows, the figures are
      ordered, the largest latency is the largest of all rows; the smallest is that of all rows exactly
      when there are at least as many rows as workers, or some row took no measurable time. */
  lemma ReportedFigures(p: Plan, final: State, stats: seq<BenchmarkResult>,
                        m: BenchmarkResult, template: BenchmarkResult)
    requires Inv(p, final) && Complete(p, final)
    requires SummariseAll(stats, final.recorded) && IsMerge(m, stats, template)
    ensures m.totalOps == p.Total() && FiguresOf(m, p, Pool(final.recorded))
  {
    RecordedTotal(p, final);
    MergedOrdered(m, stats, template, final.recorded);
    MergedTotalsArePooled(m, stats, template, final.recorded);
    if p.Total() < p.threads {
      FirstWorkerIdle(p, final);
    }
  }

  /** The labels of the experiment, the number of workers and rows, and the rate over the wall clock. */
  ghost predicate IsHeaded(r: BenchmarkResult, rows: nat, workers: nat, wallMs: real) {
    && r.database == "cassandra" && r.experimentName == "experiment 2 concurrent_insert"
    && r.operation == "insert" && r.indexType == "primary"
    && r.threadCount == workers && r.totalOps == rows && r.totalTimeMs == wallMs
    && (wallMs > 0.0 ==> r.throughputOpsSec * wallMs == 1000.0 * rows as real)
    && (wallMs <= 0.0 ==> r.throughputOpsSec == 0.0)
  }

  lemma ReportedHeader(result: BenchmarkResult, outcome: MergeOutcome, stats: seq<BenchmarkResult>,
                       template: BenchmarkResult, workers: nat, total: nat, wallMs: real)
    requires IsReport(result, outcome, stats, Labels(template, workers), total, wallMs)
    ensures IsHeaded(result, total, workers, wallMs)
  {
    ThroughputMeans(total, wallMs);
  }

  lemma RunFigures(p: Plan, final: State, stats: seq<BenchmarkResult>, outcome: MergeOutcome,
                   template: BenchmarkResult, result: BenchmarkResult, wallMs: real)
    requires Inv(p, final) && Complete(p, final) && SummariseAll(stats, final.recorded)
    requires IsReport(result, outcome, stats, template, p.Total(), wallMs)
    ensures TotalOps(stats) == p.Total()
    ensures outcome.Merged? ==> FiguresOf(result, p, Pool(final.recorded))
  {
    RecordedTotal(p, final);
    PoolSize(stats, final.recorded);
    if outcome.Merged? {
      ReportedFigures(p, final, stats, outcome.result, template);
    }
  }

  /** With fewer rows than workers, all rows go to the last worker. */
  lemma FirstWorkerIdle(p: Plan, s: State)
    requires Inv(p, s) && Complete(p, s) && 0 < p.Total() < p.threads
    ensures s.recorded[0] == []
  {
    NoRowsEach(p.Total(), p.threads);
    assert p.End(0) == 0;
  }

  lemma NoRowsEach(total: nat, threads: nat)
    requires total < threads
    ensures total / threads == 0
  {}

  /** A concurrent run on a generated dataset whose ids and pairs were drawn apart ends, under every
      schedule that makes all its writes, in the store of the sequential loop, with both tables in step. */
  lemma GeneratedRun(g: Generator.DataGenerator, pool: Generator.FilledPool, at: nat, p: Plan, schedule: Schedule,
                     s: State)
    requires p.Valid() && p.orders == Generator.Collect(g.Maker(pool), at, p.Total())
    requires g.IdsDrawnApart(at, p.Total()) && g.PairsDrawnApart(pool, at, p.Total())
    requires Shape(p, Init(p)) && Steps(p, Init(p), schedule, s) && |schedule| == 2 * p.Total()
    ensures s.tables == Sequential(p) && InSync(s.tables)
  {
    g.DistinctIdsIff(pool, at, p.Total());
    g.DistinctPairsIff(pool, at, p.Total());
    ConcurrentRun(p, schedule, s);
  }
}
