/** The record every experiment reports. Doubles are modelled by exact reals. */
module Results {
  datatype BenchmarkResult = BenchmarkResult(
    database: string, experimentName: string, operation: string, indexType: string, phase: string,
    threadCount: nat, totalOps: nat, totalTimeMs: real,
    p50Us: real, p95Us: real, p99Us: real, meanUs: real, minUs: real, maxUs: real,
    throughputOpsSec: real, sstableCount: nat, resultSetSize: nat, notes: string)

  const DEFAULT_RESULT :=
    BenchmarkResult("", "", "", "", "", 1, 0, 0.0, 0.0, 0.0, 0.0, 0.0, 0.0, 0.0, 0.0, 0, 0, "")

  function Throughput(ops: nat, timeMs: real): real {
    if timeMs > 0.0 then ops as real / (timeMs / 1000.0) else 0.0
  }

  /** The rate is operations per second, and 0 when no time was measured. */
  lemma ThroughputMeans(ops: nat, timeMs: real)
    ensures timeMs > 0.0 ==> Throughput(ops, timeMs) * timeMs == 1000.0 * ops as real
    ensures timeMs <= 0.0 ==> Throughput(ops, timeMs) == 0.0
  {
    if timeMs > 0.0 {
      var x := ops as real / (timeMs / 1000.0);
      assert x * (timeMs / 1000.0) == ops as real;
    }
  }

  /** min <= p50 <= p95 <= p99 <= max */
  predicate Ordered(r: BenchmarkResult) {
    r.minUs <= r.p50Us <= r.p95Us <= r.p99Us <= r.maxUs
  }
}

/** Latency samples of one thread and the statistics read off them. */
module Latency {
  import opened OrderStatistics
  import opened Results

  const TWO_TO_64 := 0x1_0000_0000_0000_0000
  type uint64 = x: nat | x < TWO_TO_64

  /** Unsigned subtraction end - start: it wraps when the timer was stopped before it was started. */
  function ElapsedNs(start: uint64, end: uint64): (d: uint64)
    ensures (start + d) % TWO_TO_64 == end
  {
    if start <= end then end - start else TWO_TO_64 - (start - end)
  }

  ghost predicate IsSmallest(s: seq<nat>, x: real) {
    && (exists i :: 0 <= i < |s| && x == s[i] as real)
    && forall i :: 0 <= i < |s| ==> x <= s[i] as real
  }

  ghost predicate IsLargest(s: seq<nat>, x: real) {
    && (exists i :: 0 <= i < |s| && x == s[i] as real)
    && forall i :: 0 <= i < |s| ==> s[i] as real <= x
  }

  /** r holds the statistics of the samples, stated without sorting them. */
  ghost predicate Summarises(r: BenchmarkResult, samples: seq<nat>) {
    && r.totalOps == |samples|
    && (samples == [] ==> r == DEFAULT_RESULT)
    && (samples != [] ==>
          && IsPercentile(r.p50Us, samples, 0.50)
          && IsPercentile(r.p95Us, samples, 0.95)
          && IsPercentile(r.p99Us, samples, 0.99)
          && IsSmallest(samples, r.minUs)
          && IsLargest(samples, r.maxUs)
          && r.meanUs == Mean(samples)
          && r.throughputOpsSec == Throughput(|samples|, r.totalTimeMs))
  }

  ghost predicate IsPercentile(x: real, samples: seq<nat>, p: real) {
    x >= 0.0 && x == x.Floor as real && IsNearestRank(samples, p, x.Floor)
  }

  /** The time in milliseconds is a whole number of nanoseconds, which leads from the start reading to
      the end reading; the rate is operations per second of that time. */
  ghost predicate IsTimed(timeMs: real, rate: real, ops: nat, start: uint64, end: uint64) {
    && (exists d: uint64 :: Leads(start, d, end) && timeMs == d as real / 1000000.0)
    && (start != end ==> rate * timeMs == 1000.0 * ops as real)
    && (start == end ==> rate == 0.0)
  }

  predicate Leads(start: uint64, d: uint64, end: uint64) { (start + d) % TWO_TO_64 == end }

  lemma TimingHolds(timeMs: real, rate: real, ops: nat, start: uint64, end: uint64)
    requires timeMs == ElapsedNs(start, end) as real / 1000000.0 && rate == Throughput(ops, timeMs)
    ensures IsTimed(timeMs, rate, ops, start, end)
  {
    assert Leads(start, ElapsedNs(start, end), end);
    ThroughputMeans(ops, timeMs);
    PositiveTime(ElapsedNs(start, end));
  }

  lemma PositiveTime(ns: nat)
    ensures ns > 0 ==> ns as real / 1000000.0 > 0.0
  {}

  class LatencyRecorder {
    var latenciesUs: seq<nat>
    var startNs: uint64
    var endNs: uint64

    constructor ()
      ensures latenciesUs == [] && startNs == 0 && endNs == 0
    {
      latenciesUs, startNs, endNs := [], 0, 0;
    }

    method Record(durationUs: nat)
      modifies this`latenciesUs
      ensures latenciesUs == old(latenciesUs) + [durationUs]
    {
      latenciesUs := latenciesUs + [durationUs];
    }

    method StartTimer(now: uint64)
      modifies this`startNs
      ensures startNs == now
    {
      startNs := now;
    }

    method StopTimer(now: uint64)
      modifies this`endNs
      ensures endNs == now
    {
      endNs := now;
    }

    method ComputeStats() returns (result: BenchmarkResult)
      ensures Summarises(result, latenciesUs)
      ensures latenciesUs != [] ==> result.totalTimeMs == ElapsedNs(startNs, endNs) as real / 1000000.0
      ensures latenciesUs != [] ==> IsTimed(result.totalTimeMs, result.throughputOpsSec, |latenciesUs|, startNs, endNs)
      ensures result == result.(database := "", experimentName := "", operation := "", indexType := "",
                                phase := "", threadCount := 1, sstableCount := 0, resultSetSize := 0, notes := "")
    {
      result := DEFAULT_RESULT;
      if latenciesUs == [] {
        return;
      }
      var sorted := SortedCopy(latenciesUs);
      SortedCopyIsSorted(latenciesUs);
      result := result.(totalOps := |sorted|, totalTimeMs := ElapsedNs(startNs, endNs) as real / 1000000.0);
      result := result.(p50Us := Percentile(sorted, 0.50),
                        p95Us := Percentile(sorted, 0.95),
                        p99Us := Percentile(sorted, 0.99));
      result := result.(minUs := sorted[0] as real, maxUs := sorted[|sorted| - 1] as real);
      result := result.(meanUs := Sum(sorted) as real / |sorted| as real);
      if result.totalTimeMs > 0.0 {
        result := result.(throughputOpsSec := result.totalOps as real / (result.totalTimeMs / 1000.0));
      }
      PercentileHolds(latenciesUs, 0.50);
      PercentileHolds(latenciesUs, 0.95);
      PercentileHolds(latenciesUs, 0.99);
      SumSortedCopy(latenciesUs);
      EndsOfSortedCopy(latenciesUs);
      TimingHolds(result.totalTimeMs, result.throughputOpsSec, |latenciesUs|, startNs, endNs);
    }

    method Count() returns (n: nat)
      ensures n == |latenciesUs|
    {
      n := |latenciesUs|;
    }

    method Reset()
      modifies this
      ensures latenciesUs == [] && startNs == 0 && endNs == 0
    {
      latenciesUs, startNs, endNs := [], 0, 0;
    }
  }

  lemma PercentileHolds(samples: seq<nat>, p: real)
    requires samples != []
    ensures IsPercentile(Percentile(SortedCopy(samples), p), samples, p)
  {
    var v := RankedValue(samples, p);
    PercentileCharacterised(samples, p, v);
  }

  lemma PercentileDetermined(x: real, samples: seq<nat>, p: real)
    requires samples != [] && IsPercentile(x, samples, p)
    ensures x == Percentile(SortedCopy(samples), p)
  {
    PercentileCharacterised(samples, p, x.Floor);
  }

  /** Any samples have their statistics, whatever the time. */
  lemma SomeSummary(samples: seq<nat>, timeMs: real) returns (r: BenchmarkResult)
    requires samples != []
    ensures Summarises(r, samples) && r.totalTimeMs == timeMs
    ensures r == r.(database := "", experimentName := "", operation := "", indexType := "", phase := "",
                    threadCount := 1)
  {
    var sorted := SortedCopy(samples);
    EndsOfSortedCopy(samples);
    PercentileHolds(samples, 0.50);
    PercentileHolds(samples, 0.95);
    PercentileHolds(samples, 0.99);
    r := DEFAULT_RESULT.(totalOps := |samples|, totalTimeMs := timeMs,
                         p50Us := Percentile(sorted, 0.50), p95Us := Percentile(sorted, 0.95),
                         p99Us := Percentile(sorted, 0.99), meanUs := Mean(samples),
                         minUs := sorted[0] as real, maxUs := sorted[|samples| - 1] as real,
                         throughputOpsSec := Throughput(|samples|, timeMs));
  }

  lemma EndsOfSortedCopy(samples: seq<nat>)
    requires samples != []
    ensures |SortedCopy(samples)| == |samples|
    ensures IsSmallest(samples, SortedCopy(samples)[0] as real)
    ensures IsLargest(samples, SortedCopy(samples)[|samples| - 1] as real)
  {
    var sorted := SortedCopy(samples);
    SortedCopyIsSorted(samples);
    forall i | 0 <= i < |samples| ensures sorted[0] <= samples[i] <= sorted[|samples| - 1] {
      assert samples[i] in multiset(sorted);
    }
    assert sorted[0] in multiset(samples) && sorted[|samples| - 1] in multiset(samples);
  }

  /** The statistics of any sample list, empty or not, come out in order. */
  lemma SummaryOrdered(r: BenchmarkResult, samples: seq<nat>)
    requires Summarises(r, samples)
    ensures Ordered(r)
  {
    if samples != [] {
      PercentileDetermined(r.p50Us, samples, 0.50);
      PercentileDetermined(r.p95Us, samples, 0.95);
      PercentileDetermined(r.p99Us, samples, 0.99);
      SortedCopyIsSorted(samples);
      PercentileMonotone(SortedCopy(samples), 0.50, 0.95);
      PercentileMonotone(SortedCopy(samples), 0.95, 0.99);
    }
  }

  /** p50 <= 2 * mean, p95 <= 20 * mean, p99 <= 100 * mean. */
  lemma SummaryTailBounds(r: BenchmarkResult, samples: seq<nat>)
    requires Summarises(r, samples)
    ensures r.p50Us <= 2.0 * r.meanUs && r.p95Us <= 20.0 * r.meanUs && r.p99Us <= 100.0 * r.meanUs
  {
    if samples != [] {
      PercentileDetermined(r.p50Us, samples, 0.50);
      PercentileDetermined(r.p95Us, samples, 0.95);
      PercentileDetermined(r.p99Us, samples, 0.99);
      TailBound(samples, 0.50);
      TailBound(samples, 0.95);
      TailBound(samples, 0.99);
    }
  }

  /** Two recorders that saw the same samples in different orders report the same figures. */
  lemma SummaryIgnoresOrder(r: BenchmarkResult, a: seq<nat>, b: seq<nat>)
    requires Summarises(r, a) && multiset(a) == multiset(b)
    ensures Summarises(r, b)
  {
    assert |multiset(a)| == |a| && |multiset(b)| == |b|;
    if a != [] {
      PercentileDetermined(r.p50Us, a, 0.50);
      PercentileDetermined(r.p95Us, a, 0.95);
      PercentileDetermined(r.p99Us, a, 0.99);
      SortedCopyIsSorted(a);
      SortedCopyIsSorted(b);
      SortIsUnique(SortedCopy(a), SortedCopy(b));
      PercentileHolds(b, 0.50);
      PercentileHolds(b, 0.95);
      PercentileHolds(b, 0.99);
      SumSortedCopy(a);
      SumSortedCopy(b);
      EndsOfSortedCopy(b);
      EndsAgree(a, b, r);
    }
  }

  lemma EndsAgree(a: seq<nat>, b: seq<nat>, r: BenchmarkResult)
    requires multiset(a) == multiset(b) && IsSmallest(a, r.minUs) && IsLargest(a, r.maxUs)
    ensures IsSmallest(b, r.minUs) && IsLargest(b, r.maxUs)
  {
    var i :| 0 <= i < |a| && r.minUs == a[i] as real;
    var j :| 0 <= j < |a| && r.maxUs == a[j] as real;
    assert a[i] in multiset(b) && a[j] in multiset(b);
    assert forall k :: 0 <= k < |b| ==> b[k] in multiset(a);
  }
}
