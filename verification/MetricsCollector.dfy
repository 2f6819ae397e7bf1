/** Combining the recorders of several threads into one result. */
module Metrics {
  import opened OrderStatistics
  import opened Results
  import opened Latency

  /** The figures of a result that merging can weight by operation counts. */
  datatype Figure = P50 | P95 | P99 | Average {
    function Of(r: BenchmarkResult): real {
      match this case P50 => r.p50Us case P95 => r.p95Us case P99 => r.p99Us case Average => r.meanUs
    }

    predicate IsQuantile() { !Average? }

    function Level(): (p: real)
      requires IsQuantile()
      ensures 0.0 < p < 1.0
    {
      match this case P50 => 0.50 case P95 => 0.95 case P99 => 0.99
    }
  }

  /** What merging can end in: the exception for an empty list of recorders, a result whose percentiles
      are no numbers because nothing was recorded (the fields here keep the template's), or a proper one. */
  datatype MergeOutcome =
    | NoRecorders
    | NothingRecorded(result: BenchmarkResult)
    | Merged(result: BenchmarkResult)

  /** A double while the percentiles are added up: dividing 0 by 0 gives no number, and that spreads. */
  datatype Double = Number(value: real) | NotANumber {
    function Plus(d: Double): Double {
      if Number? && d.Number? then Number(value + d.value) else NotANumber
    }

    function TimesReal(x: real): Double {
      if Number? then Number(value * x) else NotANumber
    }
  }

  /** The part that ops operations are of the total. */
  function Share(ops: nat, total: nat): Double
    requires ops <= total
  {
    if total == 0 then NotANumber else Number(ops as real / total as real)
  }

  function TotalOps(stats: seq<BenchmarkResult>): nat {
    if stats == [] then 0 else TotalOps(stats[..|stats| - 1]) + stats[|stats| - 1].totalOps
  }

  function LongestTime(stats: seq<BenchmarkResult>): real {
    if stats == [] then 0.0
    else Max(LongestTime(stats[..|stats| - 1]), stats[|stats| - 1].totalTimeMs)
  }

  function Max(x: real, y: real): real { if x < y then y else x }

  function Min(x: real, y: real): real { if y < x then y else x }

  /** Sum of the threads' percentiles, each weighted by its operations times the given unit. */
  function Weighted(stats: seq<BenchmarkResult>, q: Figure, unit: real): real {
    if stats == [] then 0.0
    else
      var s := stats[|stats| - 1];
      Weighted(stats[..|stats| - 1], q, unit) + q.Of(s) * (s.totalOps as real * unit)
  }

  /** The weight of one operation among n. */
  function Unit(n: nat): real
    requires n > 0
  {
    1.0 / n as real
  }

  ghost predicate IsLeastMin(stats: seq<BenchmarkResult>, x: real) {
    && (exists i :: 0 <= i < |stats| && x == stats[i].minUs)
    && forall i :: 0 <= i < |stats| ==> x <= stats[i].minUs
  }

  ghost predicate IsGreatestMax(stats: seq<BenchmarkResult>, x: real) {
    && (exists i :: 0 <= i < |stats| && x == stats[i].maxUs)
    && forall i :: 0 <= i < |stats| ==> stats[i].maxUs <= x
  }

  /** The time of some thread, and at least that of each. */
  ghost predicate IsLongest(stats: seq<BenchmarkResult>, x: real) {
    && (exists i :: 0 <= i < |stats| && x == stats[i].totalTimeMs)
    && forall i :: 0 <= i < |stats| ==> stats[i].totalTimeMs <= x
  }

  /** m is the result merged from the threads' statistics on top of the template's labels. */
  ghost predicate IsMerge(m: BenchmarkResult, stats: seq<BenchmarkResult>, template: BenchmarkResult) {
    && TotalOps(stats) > 0
    && IsLeastMin(stats, m.minUs)
    && IsGreatestMax(stats, m.maxUs)
    && m == template.(totalOps := TotalOps(stats),
                      totalTimeMs := LongestTime(stats),
                      throughputOpsSec := Throughput(TotalOps(stats), LongestTime(stats)),
                      p50Us := Weighted(stats, P50, Unit(TotalOps(stats))),
                      p95Us := Weighted(stats, P95, Unit(TotalOps(stats))),
                      p99Us := Weighted(stats, P99, Unit(TotalOps(stats))),
                      meanUs := 0.0, minUs := m.minUs, maxUs := m.maxUs)
  }

  /** stats[i] summarises the samples of recorder i. */
  ghost predicate SummariseAll(stats: seq<BenchmarkResult>, runs: seq<seq<nat>>) {
    |stats| == |runs| && forall i :: 0 <= i < |stats| ==> Summarises(stats[i], runs[i])
  }

  // The three aspects of SummariseAll that the theorems below rest on.

  ghost predicate QuantilesOf(stats: seq<BenchmarkResult>, runs: seq<seq<nat>>, q: Figure)
    requires q.IsQuantile()
  {
    && |stats| == |runs|
    && forall i :: 0 <= i < |runs| && runs[i] != [] ==> IsPercentile(q.Of(stats[i]), runs[i], q.Level())
  }

  ghost predicate EndsOf(stats: seq<BenchmarkResult>, runs: seq<seq<nat>>) {
    && |stats| == |runs|
    && (forall i :: 0 <= i < |runs| && runs[i] != [] ==> IsSmallest(runs[i], stats[i].minUs))
    && (forall i :: 0 <= i < |runs| && runs[i] != [] ==> IsLargest(runs[i], stats[i].maxUs))
    && (forall i :: 0 <= i < |runs| && runs[i] == [] ==> stats[i].minUs == stats[i].maxUs == 0.0)
  }

  function MeanOrZero(samples: seq<nat>): real {
    if samples == [] then 0.0 else Mean(samples)
  }

  ghost predicate MeansOf(stats: seq<BenchmarkResult>, runs: seq<seq<nat>>) {
    && |stats| == |runs|
    && forall i :: 0 <= i < |runs| ==>
         stats[i].totalOps == |runs[i]| && stats[i].meanUs == MeanOrZero(runs[i])
  }

  lemma Aspects(stats: seq<BenchmarkResult>, runs: seq<seq<nat>>)
    requires SummariseAll(stats, runs)
    ensures EndsOf(stats, runs) && MeansOf(stats, runs)
    ensures forall q: Figure :: q.IsQuantile() ==> QuantilesOf(stats, runs, q)
  {}

  class MetricsCollector {
    var results: seq<BenchmarkResult>

    constructor ()
      ensures results == []
    {
      results := [];
    }

    method AddResult(result: BenchmarkResult)
      modifies this
      ensures results == old(results) + [result]
    {
      results := results + [result];
    }

    /** First loop of the merge: the statistics of every thread. */
    method Collect(recorders: seq<LatencyRecorder>) returns (threadStats: seq<BenchmarkResult>)
      ensures |threadStats| == |recorders|
      ensures forall i :: 0 <= i < |recorders| ==> Summarises(threadStats[i], recorders[i].latenciesUs)
      ensures forall i :: 0 <= i < |recorders| ==> threadStats[i].totalTimeMs >= 0.0
    {
      threadStats := [];
      for i := 0 to |recorders|
        invariant |threadStats| == i
        invariant forall k :: 0 <= k < i ==> threadStats[k].totalTimeMs >= 0.0
        invariant forall k :: 0 <= k < i ==> Summarises(threadStats[k], recorders[k].latenciesUs)
      {
        var s := recorders[i].ComputeStats();
        threadStats := threadStats + [s];
      }
    }

    /** The two loops between: all operations, and the longest time. */
    method Totals(threadStats: seq<BenchmarkResult>) returns (totalOps: nat, totalTimeMs: real)
      requires threadStats != [] && forall i :: 0 <= i < |threadStats| ==> threadStats[i].totalTimeMs >= 0.0
      ensures totalOps == TotalOps(threadStats) && totalTimeMs == LongestTime(threadStats)
      ensures IsLongest(threadStats, totalTimeMs)
    {
      totalOps := 0;
      for i := 0 to |threadStats|
        invariant totalOps == TotalOps(threadStats[..i])
      {
        assert threadStats[..i + 1][..i] == threadStats[..i];
        totalOps := totalOps + threadStats[i].totalOps;
      }
      totalTimeMs := 0.0;
      for i := 0 to |threadStats|
        invariant totalTimeMs == LongestTime(threadStats[..i])
      {
        assert threadStats[..i + 1][..i] == threadStats[..i];
        totalTimeMs := Max(totalTimeMs, threadStats[i].totalTimeMs);
      }
      assert threadStats[..|threadStats|] == threadStats;
      LongestIsATime(threadStats);
    }

    /** Last loop of the merge: weighted percentiles, least minimum, greatest maximum. */
    method Combine(threadStats: seq<BenchmarkResult>, totalOps: nat)
      returns (p50: Double, p95: Double, p99: Double, minV: real, maxV: real)
      requires threadStats != [] && totalOps == TotalOps(threadStats)
      ensures totalOps > 0 ==> p50 == Number(Weighted(threadStats, P50, Unit(totalOps)))
      ensures totalOps > 0 ==> p95 == Number(Weighted(threadStats, P95, Unit(totalOps)))
      ensures totalOps > 0 ==> p99 == Number(Weighted(threadStats, P99, Unit(totalOps)))
      ensures totalOps == 0 ==> p50 == p95 == p99 == NotANumber
      ensures IsLeastMin(threadStats, minV) && IsGreatestMax(threadStats, maxV)
    {
      p50, p95, p99, minV, maxV := Number(0.0), Number(0.0), Number(0.0), 0.0, 0.0;
      var first := true;
      ghost var unit := if totalOps > 0 then Unit(totalOps) else 0.0;
      TotalGrows(threadStats);
      for i := 0 to |threadStats|
        invariant Sums(p50, threadStats[..i], P50, totalOps, unit)
        invariant Sums(p95, threadStats[..i], P95, totalOps, unit)
        invariant Sums(p99, threadStats[..i], P99, totalOps, unit)
        invariant first <==> i == 0
        invariant i > 0 ==> IsLeastMin(threadStats[..i], minV) && IsGreatestMax(threadStats[..i], maxV)
      {
        var s := threadStats[i];
        PrefixGrows(threadStats, i);
        AddThread(p50, threadStats, i, P50, totalOps, unit);
        AddThread(p95, threadStats, i, P95, totalOps, unit);
        AddThread(p99, threadStats, i, P99, totalOps, unit);
        var w := Share(s.totalOps, totalOps);
        p50 := p50.Plus(w.TimesReal(s.p50Us));
        p95 := p95.Plus(w.TimesReal(s.p95Us));
        p99 := p99.Plus(w.TimesReal(s.p99Us));
        ExtendEnds(threadStats, i, minV, maxV);
        if first {
          minV, maxV, first := s.minUs, s.maxUs, false;
        } else {
          minV, maxV := Min(minV, s.minUs), Max(maxV, s.maxUs);
        }
      }
      assert threadStats[..|threadStats|] == threadStats;
    }

    method MergeThreadResults(recorders: seq<LatencyRecorder>, template: BenchmarkResult)
      returns (outcome: MergeOutcome, ghost stats: seq<BenchmarkResult>)
      ensures recorders == [] <==> outcome.NoRecorders?
      ensures |stats| == |recorders|
      ensures forall i :: 0 <= i < |recorders| ==> Summarises(stats[i], recorders[i].latenciesUs)
      ensures outcome.NothingRecorded? <==> recorders != [] && TotalOps(stats) == 0
      ensures outcome.NothingRecorded? ==>
                outcome.result == template.(totalOps := 0, totalTimeMs := 0.0, throughputOpsSec := 0.0,
                                            meanUs := 0.0, minUs := 0.0, maxUs := 0.0)
      ensures outcome.Merged? ==> IsMerge(outcome.result, stats, template)
      ensures outcome.Merged? ==> IsLongest(stats, outcome.result.totalTimeMs)
    {
      stats := [];
      if recorders == [] {
        return NoRecorders, stats;
      }
      var threadStats := Collect(recorders);
      stats := threadStats;

      var totalOps, totalTimeMs := Totals(threadStats);
      var mean := 0.0;
      var p50, p95, p99, minV, maxV := Combine(threadStats, totalOps);
      var merged := template.(totalOps := totalOps, totalTimeMs := totalTimeMs,
                              throughputOpsSec := Throughput(totalOps, totalTimeMs),
                              meanUs := mean, minUs := minV, maxUs := maxV);
      if totalOps == 0 {
        NothingToMerge(threadStats, minV, maxV);
        outcome := NothingRecorded(merged);
      } else {
        outcome := Merged(merged.(p50Us := p50.value, p95Us := p95.value, p99Us := p99.value));
      }
    }
  }

  lemma {:induction false} LongestIsATime(stats: seq<BenchmarkResult>)
    requires forall i :: 0 <= i < |stats| ==> stats[i].totalTimeMs >= 0.0
    ensures if stats == [] then LongestTime(stats) == 0.0 else IsLongest(stats, LongestTime(stats))
  {
    if stats != [] {
      var n := |stats| - 1;
      LongestIsATime(stats[..n]);
      assert forall i :: 0 <= i < n ==> stats[..n][i] == stats[i];
      if n > 0 {
        var i :| 0 <= i < n && LongestTime(stats[..n]) == stats[..n][i].totalTimeMs;
        assert stats[i].totalTimeMs == LongestTime(stats[..n]);
      }
    }
  }

  /** The merged figure times the merged count is the sum of the threads' figures, each taken as often
      as the thread has operations. */
  lemma {:induction false} MergedQuantileExact(m: BenchmarkResult, stats: seq<BenchmarkResult>,
                                               template: BenchmarkResult, q: Figure)
    requires q.IsQuantile() && IsMerge(m, stats, template)
    ensures q.Of(m) * m.totalOps as real == WeightedTotal(stats, q)
  {
    MergedFigure(m, stats, template, q);
    ExactOf(stats, q, q.Of(m), m.totalOps);
  }

  lemma {:induction false} ExactOf(stats: seq<BenchmarkResult>, q: Figure, w: real, n: nat)
    requires n == TotalOps(stats) > 0 && w == Weighted(stats, q, Unit(n))
    ensures w * n as real == WeightedTotal(stats, q)
  {
    UnitsMakeOne(n);
    WeightedExact(stats, q, n, Unit(n), w);
  }

  lemma {:induction false} MergedFigure(m: BenchmarkResult, stats: seq<BenchmarkResult>, template: BenchmarkResult,
                                        q: Figure)
    requires q.IsQuantile() && IsMerge(m, stats, template)
    ensures m.totalOps == TotalOps(stats) > 0 && q.Of(m) == Weighted(stats, q, Unit(m.totalOps))
  {}

  lemma {:induction false} WeightedExact(stats: seq<BenchmarkResult>, q: Figure, n: nat, unit: real, w: real)
    requires n as real * unit == 1.0 && w == Weighted(stats, q, unit)
    ensures w * n as real == WeightedTotal(stats, q)
  {
    WeightedFactors(stats, q, unit);
    CancelTotal(w, WeightedTotal(stats, q), n as real, unit);
  }

  lemma CancelTotal(w: real, total: real, n: real, unit: real)
    requires w == total * unit && n * unit == 1.0
    ensures w * n == total
  {
    CancelUnit(total, unit, n);
    assert w * n == (total * unit) * n;
  }

  /** Two threads: the figures weighted by their counts. */
  lemma MergeOfTwo(m: BenchmarkResult, a: BenchmarkResult, b: BenchmarkResult, template: BenchmarkResult, q: Figure)
    requires q.IsQuantile() && IsMerge(m, [a, b], template)
    ensures m.totalOps == a.totalOps + b.totalOps
    ensures q.Of(m) * m.totalOps as real == q.Of(a) * a.totalOps as real + q.Of(b) * b.totalOps as real
  {
    MergedQuantileExact(m, [a, b], template, q);
    TotalOfTwo(a, b, q);
  }

  lemma TotalOfTwo(a: BenchmarkResult, b: BenchmarkResult, q: Figure)
    ensures TotalOps([a, b]) == a.totalOps + b.totalOps
    ensures WeightedTotal([a, b], q) == q.Of(a) * a.totalOps as real + q.Of(b) * b.totalOps as real
  {
    var both, one := [a, b], [a];
    assert both[..1] == one && one[..0] == [];
    assert TotalOps(one) == 0 + a.totalOps;
    assert WeightedTotal(one, q) == 0.0 + Times(q.Of(a), a.totalOps);
    assert TotalOps(both) == TotalOps(one) + b.totalOps;
    assert WeightedTotal(both, q) == WeightedTotal(one, q) + Times(q.Of(b), b.totalOps);
    TimesIsProduct(q.Of(a), a.totalOps);
    TimesIsProduct(q.Of(b), b.totalOps);
  }

  /** Recorders without samples report zeros. */
  lemma NothingToMerge(stats: seq<BenchmarkResult>, lo: real, hi: real)
    requires TotalOps(stats) == 0 && IsLeastMin(stats, lo) && IsGreatestMax(stats, hi)
    requires forall i :: 0 <= i < |stats| ==> stats[i].totalOps == 0 ==> stats[i] == DEFAULT_RESULT
    ensures LongestTime(stats) == lo == hi == 0.0
  {
    AllEmpty(stats);
  }

  lemma {:induction false} AllEmpty(stats: seq<BenchmarkResult>)
    requires TotalOps(stats) == 0
    requires forall i :: 0 <= i < |stats| ==> stats[i].totalOps == 0 ==> stats[i] == DEFAULT_RESULT
    ensures LongestTime(stats) == 0.0 && forall i :: 0 <= i < |stats| ==> stats[i] == DEFAULT_RESULT
  {
    if stats != [] {
      AllEmpty(stats[..|stats| - 1]);
    }
  }

  /** The totals of the prefixes stay below the total. */
  lemma {:induction false} TotalGrows(stats: seq<BenchmarkResult>)
    ensures forall i :: 0 <= i <= |stats| ==> TotalOps(stats[..i]) <= TotalOps(stats)
  {
    if stats != [] {
      var n := |stats| - 1;
      TotalGrows(stats[..n]);
      forall i | 0 <= i <= |stats| ensures TotalOps(stats[..i]) <= TotalOps(stats) {
        if i <= n {
          assert stats[..n][..i] == stats[..i];
        } else {
          assert stats[..i] == stats;
        }
      }
    }
  }

  lemma PrefixGrows(stats: seq<BenchmarkResult>, i: nat)
    requires i < |stats|
    ensures stats[..i + 1][..i] == stats[..i] && stats[..i + 1][i] == stats[i]
    ensures TotalOps(stats[..i + 1]) == TotalOps(stats[..i]) + stats[i].totalOps
  {
    assert stats[..i + 1][..i] == stats[..i];
  }

  /** d is the weighted sum over these threads, or no number once a share of nothing went into it. */
  ghost predicate Sums(d: Double, stats: seq<BenchmarkResult>, q: Figure, total: nat, unit: real) {
    if total == 0 then stats != [] ==> d == NotANumber else d == Number(Weighted(stats, q, unit))
  }

  lemma AddThread(d: Double, stats: seq<BenchmarkResult>, i: nat, q: Figure, total: nat, unit: real)
    requires i < |stats| && stats[i].totalOps <= total && Sums(d, stats[..i], q, total, unit)
    requires total > 0 ==> unit == Unit(total)
    ensures Sums(d.Plus(Share(stats[i].totalOps, total).TimesReal(q.Of(stats[i]))), stats[..i + 1], q, total, unit)
  {
    PrefixGrows(stats, i);
    if total > 0 {
      ShareIsUnits(q.Of(stats[i]), stats[i].totalOps, total, unit);
    }
  }

  lemma ShareIsUnits(x: real, ops: nat, total: nat, unit: real)
    requires total > 0 && ops <= total && unit == Unit(total)
    ensures Share(ops, total).TimesReal(x) == Number(x * (ops as real * unit))
  {
    WeightIsUnits(ops, total);
    Commute(ops as real / total as real, x);
  }

  lemma Commute(x: real, y: real)
    ensures x * y == y * x
  {}

  lemma ExtendEnds(stats: seq<BenchmarkResult>, n: nat, lo: real, hi: real)
    requires n < |stats|
    requires n > 0 ==> IsLeastMin(stats[..n], lo) && IsGreatestMax(stats[..n], hi)
    ensures IsLeastMin(stats[..n + 1], if n == 0 then stats[n].minUs else Min(lo, stats[n].minUs))
    ensures IsGreatestMax(stats[..n + 1], if n == 0 then stats[n].maxUs else Max(hi, stats[n].maxUs))
  {
    var less, more := stats[..n], stats[..n + 1];
    assert more == less + [stats[n]];
    if n > 0 {
      var i :| 0 <= i < n && lo == less[i].minUs;
      var j :| 0 <= j < n && hi == less[j].maxUs;
      assert more[i] == less[i] && more[j] == less[j];
    }
  }

  // ----- pooled samples -----

  function Pool(runs: seq<seq<nat>>): seq<nat> {
    if runs == [] then [] else Pool(runs[..|runs| - 1]) + runs[|runs| - 1]
  }

  lemma {:induction false} PoolSize(stats: seq<BenchmarkResult>, runs: seq<seq<nat>>)
    requires SummariseAll(stats, runs)
    ensures TotalOps(stats) == |Pool(runs)|
  {
    if runs != [] {
      PoolSize(stats[..|stats| - 1], runs[..|runs| - 1]);
    }
  }

  lemma {:induction false} PoolMembers(runs: seq<seq<nat>>, v: nat)
    ensures v in Pool(runs) <==> exists i :: 0 <= i < |runs| && v in runs[i]
  {
    if runs != [] {
      var n := |runs| - 1;
      PoolMembers(runs[..n], v);
      if i :| 0 <= i < |runs| && v in runs[i] {
        assert i < n ==> runs[..n][i] == runs[i];
      }
    }
  }

  /** c of n samples are at least the share p of them. */
  ghost predicate Reaches(c: nat, n: nat, p: real) {
    c as real >= Times(p, n)
  }

  lemma RankedShare(samples: seq<nat>, p: real) returns (u: nat)
    requires samples != [] && 0.0 < p < 1.0
    ensures Percentile(SortedCopy(samples), p) == u as real && u in samples
    ensures forall w: nat :: Reaches(CountAtMost(samples, w), |samples|, p) <==> u <= w
  {
    u := RankedValue(samples, p);
    forall w: nat ensures Reaches(CountAtMost(samples, w), |samples|, p) <==> u <= w {
      RankIsShare(CountAtMost(samples, w), |samples|, p);
    }
  }

  lemma RankIsShare(c: nat, n: nat, p: real)
    requires 0.0 < p < 1.0
    ensures c >= Rank(n, p) <==> Reaches(c, n, p)
  {}

  lemma RunReaches(x: real, samples: seq<nat>, p: real, v: nat)
    requires samples != [] && 0.0 < p < 1.0 && IsPercentile(x, samples, p)
    ensures x <= v as real <==> Reaches(CountAtMost(samples, v), |samples|, p)
  {
    var u := RankedShare(samples, p);
    PercentileDetermined(x, samples, p);
  }

  lemma ReachesBoth(c: nat, m: nat, d: nat, n: nat, p: real)
    requires c <= m && d <= n
    ensures Reaches(c, m, p) && Reaches(d, n, p) ==> Reaches(c + d, m + n, p)
    ensures (m == 0 || !Reaches(c, m, p)) && (n == 0 || !Reaches(d, n, p)) ==> m + n == 0 || !Reaches(c + d, m + n, p)
  {
    TimesAdds(p, m, n);
  }

  lemma {:induction false} PoolReaches(stats: seq<BenchmarkResult>, runs: seq<seq<nat>>, q: Figure, v: nat)
    requires q.IsQuantile() && QuantilesOf(stats, runs, q)
    ensures (forall i :: 0 <= i < |runs| && runs[i] != [] ==> q.Of(stats[i]) <= v as real)
            ==> Reaches(CountAtMost(Pool(runs), v), |Pool(runs)|, q.Level())
    ensures (forall i :: 0 <= i < |runs| && runs[i] != [] ==> v as real < q.Of(stats[i]))
            ==> Pool(runs) == [] || !Reaches(CountAtMost(Pool(runs), v), |Pool(runs)|, q.Level())
  {
    if runs != [] {
      var n := |runs| - 1;
      PoolReaches(stats[..n], runs[..n], q, v);
      CountConcat(Pool(runs[..n]), runs[n], v);
      ReachesBoth(CountAtMost(Pool(runs[..n]), v), |Pool(runs[..n])|, CountAtMost(runs[n], v), |runs[n]|, q.Level());
      if runs[n] != [] {
        RunReaches(q.Of(stats[n]), runs[n], q.Level(), v);
      }
    }
  }

  /** Bounds on every non-empty recorder's percentile bound the true percentile of the pool. */
  lemma PooledWithinSpread(stats: seq<BenchmarkResult>, runs: seq<seq<nat>>, q: Figure, lo: real, hi: real)
    requires q.IsQuantile() && QuantilesOf(stats, runs, q) && Pool(runs) != []
    requires forall i :: 0 <= i < |runs| && runs[i] != [] ==> lo <= q.Of(stats[i]) <= hi
    ensures lo <= Percentile(SortedCopy(Pool(runs)), q.Level()) <= hi
  {
    var u := RankedShare(Pool(runs), q.Level());
    if u as real < lo {
      PoolReaches(stats, runs, q, u);
    }
    ShareAtMost(stats, runs, q, hi, u);
  }

  lemma ShareAtMost(stats: seq<BenchmarkResult>, runs: seq<seq<nat>>, q: Figure, hi: real, u: nat)
    requires q.IsQuantile() && QuantilesOf(stats, runs, q) && u in Pool(runs)
    requires forall i :: 0 <= i < |runs| && runs[i] != [] ==> q.Of(stats[i]) <= hi
    requires forall w: nat :: Reaches(CountAtMost(Pool(runs), w), |Pool(runs)|, q.Level()) <==> u <= w
    ensures u as real <= hi
  {
    PoolMembers(runs, u);
    var i :| 0 <= i < |runs| && u in runs[i];
    WholePercentiles(stats, runs, q, hi);
    assert 0 <= hi.Floor;
    PoolReaches(stats, runs, q, hi.Floor);
  }

  lemma WholePercentiles(stats: seq<BenchmarkResult>, runs: seq<seq<nat>>, q: Figure, hi: real)
    requires q.IsQuantile() && QuantilesOf(stats, runs, q)
    requires forall i :: 0 <= i < |runs| && runs[i] != [] ==> q.Of(stats[i]) <= hi
    ensures forall i :: 0 <= i < |runs| && runs[i] != [] ==> 0.0 <= q.Of(stats[i]) <= hi.Floor as real
  {
    forall i | 0 <= i < |runs| && runs[i] != []
      ensures 0.0 <= q.Of(stats[i]) <= hi.Floor as real
    {
      assert q.Of(stats[i]) == q.Of(stats[i]).Floor as real;
    }
  }

  lemma WeightIsUnits(ops: nat, total: nat)
    requires total > 0
    ensures ops as real / total as real == ops as real * Unit(total)
  {}

  /** The figures times their operation counts, before the division by the total. */
  function WeightedTotal(stats: seq<BenchmarkResult>, q: Figure): real {
    if stats == [] then 0.0
    else
      var s := stats[|stats| - 1];
      WeightedTotal(stats[..|stats| - 1], q) + Times(q.Of(s), s.totalOps)
  }

  lemma {:induction false} WeightedFactors(stats: seq<BenchmarkResult>, q: Figure, unit: real)
    ensures Weighted(stats, q, unit) == WeightedTotal(stats, q) * unit
  {
    if stats != [] {
      var n := |stats| - 1;
      WeightedFactors(stats[..n], q, unit);
      Factor(WeightedTotal(stats[..n], q), q.Of(stats[n]), stats[n].totalOps, unit);
    }
  }

  lemma Factor(total: real, x: real, ops: nat, unit: real)
    ensures total * unit + x * (ops as real * unit) == (total + Times(x, ops)) * unit
  {
    TimesIsProduct(x, ops);
  }

  lemma {:induction false} TotalWithin(stats: seq<BenchmarkResult>, q: Figure, lo: real, hi: real)
    requires forall i :: 0 <= i < |stats| && stats[i].totalOps > 0 ==> lo <= q.Of(stats[i]) <= hi
    ensures Times(lo, TotalOps(stats)) <= WeightedTotal(stats, q) <= Times(hi, TotalOps(stats))
  {
    if stats != [] {
      var n := |stats| - 1;
      var s := stats[n];
      TotalWithin(stats[..n], q, lo, hi);
      TimesAdds(lo, TotalOps(stats[..n]), s.totalOps);
      TimesAdds(hi, TotalOps(stats[..n]), s.totalOps);
      if s.totalOps > 0 {
        TimesMonotone(lo, q.Of(s), s.totalOps);
        TimesMonotone(q.Of(s), hi, s.totalOps);
      }
    }
  }

  /** The weights add up to one, so a weighted figure stays between the bounds. */
  lemma {:induction false} WeightedBetween(stats: seq<BenchmarkResult>, q: Figure, lo: real, hi: real)
    requires TotalOps(stats) > 0
    requires forall i :: 0 <= i < |stats| && stats[i].totalOps > 0 ==> lo <= q.Of(stats[i]) <= hi
    ensures lo <= Weighted(stats, q, Unit(TotalOps(stats))) <= hi
  {
    TotalWithin(stats, q, lo, hi);
    UnitsMakeOne(TotalOps(stats));
    WeightedBetweenBy(stats, q, lo, hi, TotalOps(stats), Unit(TotalOps(stats)));
  }

  lemma UnitsMakeOne(n: nat)
    requires n > 0
    ensures Unit(n) >= 0.0 && n as real * Unit(n) == 1.0
  {}

  lemma {:induction false} WeightedBetweenBy(stats: seq<BenchmarkResult>, q: Figure, lo: real, hi: real,
                                             n: nat, unit: real)
    requires unit >= 0.0 && n as real * unit == 1.0
    requires Times(lo, n) <= WeightedTotal(stats, q) <= Times(hi, n)
    ensures lo <= Weighted(stats, q, unit) <= hi
  {
    WeightedFactors(stats, q, unit);
    UnitTimes(lo, hi, WeightedTotal(stats, q), n, unit);
  }

  lemma UnitTimes(lo: real, hi: real, x: real, n: nat, unit: real)
    requires unit >= 0.0 && n as real * unit == 1.0 && Times(lo, n) <= x <= Times(hi, n)
    ensures lo <= x * unit <= hi
  {
    TimesIsProduct(lo, n);
    TimesIsProduct(hi, n);
    WithinUnit(lo, hi, x, n as real, unit);
  }

  lemma WithinUnit(lo: real, hi: real, x: real, n: real, u: real)
    requires u >= 0.0 && n * u == 1.0 && lo * n <= x <= hi * n
    ensures lo <= x * u <= hi
  {
    ScaleBetween(lo * n, x, hi * n, u);
    CancelUnit(lo, n, u);
    CancelUnit(hi, n, u);
  }

  lemma CancelUnit(x: real, n: real, u: real)
    requires n * u == 1.0
    ensures (x * n) * u == x
  {
    assert (x * n) * u == x * (n * u);
  }

  lemma ScaleBetween(lo: real, x: real, hi: real, w: real)
    requires lo <= x <= hi && w >= 0.0
    ensures lo * w <= x * w <= hi * w
  {}

  /** For every split of the samples over recorders, the merged percentile and the true percentile
      of the pooled samples lie in the same spread, so they differ by at most its width. */
  lemma MergedQuantileNearPooled(m: BenchmarkResult, stats: seq<BenchmarkResult>, template: BenchmarkResult,
                                 runs: seq<seq<nat>>, q: Figure, lo: real, hi: real)
    requires q.IsQuantile() && SummariseAll(stats, runs) && IsMerge(m, stats, template)
    requires forall i :: 0 <= i < |runs| && runs[i] != [] ==> lo <= q.Of(stats[i]) <= hi
    ensures Pool(runs) != []
    ensures lo <= q.Of(m) <= hi
    ensures lo <= Percentile(SortedCopy(Pool(runs)), q.Level()) <= hi
    ensures lo - hi <= q.Of(m) - Percentile(SortedCopy(Pool(runs)), q.Level()) <= hi - lo
  {
    PoolSize(stats, runs);
    Aspects(stats, runs);
    PooledWithinSpread(stats, runs, q, lo, hi);
    WeightedBetween(stats, q, lo, hi);
  }

  /** Order is kept by merging, empty recorders included. */
  lemma MergedOrdered(m: BenchmarkResult, stats: seq<BenchmarkResult>, template: BenchmarkResult,
                      runs: seq<seq<nat>>)
    requires SummariseAll(stats, runs) && IsMerge(m, stats, template)
    ensures Ordered(m)
  {
    forall i | 0 <= i < |stats| ensures Ordered(stats[i]) {
      SummaryOrdered(stats[i], runs[i]);
    }
    var hi := Highest(stats, P50, m.minUs);
    WeightedBetween(stats, P50, m.minUs, hi);
    WeightedMonotone(stats, P50, P95);
    WeightedMonotone(stats, P95, P99);
    var lo := Lowest(stats, P99, m.maxUs);
    WeightedBetween(stats, P99, lo, m.maxUs);
  }

  lemma {:induction false} WeightedMonotone(stats: seq<BenchmarkResult>, q: Figure, q': Figure)
    requires TotalOps(stats) > 0 && forall i :: 0 <= i < |stats| ==> q.Of(stats[i]) <= q'.Of(stats[i])
    ensures Weighted(stats, q, Unit(TotalOps(stats))) <= Weighted(stats, q', Unit(TotalOps(stats)))
  {
    UnitsMakeOne(TotalOps(stats));
    WeightedMonotoneBy(stats, q, q', Unit(TotalOps(stats)));
  }

  lemma {:induction false} WeightedMonotoneBy(stats: seq<BenchmarkResult>, q: Figure, q': Figure, unit: real)
    requires unit >= 0.0 && forall i :: 0 <= i < |stats| ==> q.Of(stats[i]) <= q'.Of(stats[i])
    ensures Weighted(stats, q, unit) <= Weighted(stats, q', unit)
  {
    if stats != [] {
      var n := |stats| - 1;
      WeightedMonotoneBy(stats[..n], q, q', unit);
      AddScaled(Weighted(stats[..n], q, unit), Weighted(stats[..n], q', unit),
                q.Of(stats[n]), q'.Of(stats[n]), stats[n].totalOps, unit);
    }
  }

  lemma AddScaled(a: real, b: real, x: real, y: real, ops: nat, unit: real)
    requires a <= b && x <= y && unit >= 0.0
    ensures a + x * (ops as real * unit) <= b + y * (ops as real * unit)
  {
    NonNegativeWeight(ops, unit);
    AddWeighted(a, b, x, y, ops as real * unit);
  }

  lemma NonNegativeWeight(ops: nat, unit: real)
    requires unit >= 0.0
    ensures ops as real * unit >= 0.0
  {}

  lemma AddWeighted(a: real, b: real, x: real, y: real, w: real)
    requires a <= b && x <= y && w >= 0.0
    ensures a + x * w <= b + y * w
  {
    Scaled(x, y, w);
    AddOrdered(a, b, x * w, y * w);
  }

  lemma Scaled(x: real, y: real, w: real)
    requires x <= y && w >= 0.0
    ensures x * w <= y * w
  {
    assert y * w == x * w + (y - x) * w;
  }

  lemma AddOrdered(a: real, b: real, l: real, r: real)
    requires a <= b && l <= r
    ensures a + l <= b + r
  {}

  lemma Highest(stats: seq<BenchmarkResult>, q: Figure, floor: real) returns (hi: real)
    ensures floor <= hi && forall i :: 0 <= i < |stats| ==> q.Of(stats[i]) <= hi
  {
    hi := floor;
    for i := 0 to |stats|
      invariant floor <= hi && forall k :: 0 <= k < i ==> q.Of(stats[k]) <= hi
    {
      hi := Max(hi, q.Of(stats[i]));
    }
  }

  lemma Lowest(stats: seq<BenchmarkResult>, q: Figure, ceiling: real) returns (lo: real)
    ensures lo <= ceiling && forall i :: 0 <= i < |stats| ==> lo <= q.Of(stats[i])
  {
    lo := ceiling;
    for i := 0 to |stats|
      invariant lo <= ceiling && forall k :: 0 <= k < i ==> lo <= q.Of(stats[k])
    {
      lo := Min(lo, q.Of(stats[i]));
    }
  }

  /** Totals and maximum equal those of the pooled samples for any split; the minimum does exactly
      when no recorder is empty or some sample is zero, since an empty recorder reports 0. */
  lemma MergedTotalsArePooled(m: BenchmarkResult, stats: seq<BenchmarkResult>, template: BenchmarkResult,
                              runs: seq<seq<nat>>)
    requires SummariseAll(stats, runs) && IsMerge(m, stats, template)
    ensures m.totalOps == |Pool(runs)|
    ensures IsLargest(Pool(runs), m.maxUs)
    ensures IsSmallest(Pool(runs), m.minUs) <==> (forall i :: 0 <= i < |runs| ==> runs[i] != []) || 0 in Pool(runs)
  {
    PoolSize(stats, runs);
    Aspects(stats, runs);
    LargestOfPool(m.maxUs, stats, runs);
    SmallestOfPool(m.minUs, stats, runs);
  }

  lemma LargestOfPool(x: real, stats: seq<BenchmarkResult>, runs: seq<seq<nat>>)
    requires EndsOf(stats, runs) && IsGreatestMax(stats, x) && Pool(runs) != []
    ensures IsLargest(Pool(runs), x)
  {
    var pool := Pool(runs);
    forall k | 0 <= k < |pool| ensures pool[k] as real <= x {
      PoolMembers(runs, pool[k]);
    }
    var i :| 0 <= i < |stats| && x == stats[i].maxUs;
    if runs[i] != [] {
      var j :| 0 <= j < |runs[i]| && x == runs[i][j] as real;
      PoolMembers(runs, runs[i][j]);
    } else {
      assert pool[0] as real <= x == 0.0;
    }
  }

  lemma SmallestOfPool(x: real, stats: seq<BenchmarkResult>, runs: seq<seq<nat>>)
    requires EndsOf(stats, runs) && IsLeastMin(stats, x) && Pool(runs) != []
    ensures IsSmallest(Pool(runs), x) <==> (forall i :: 0 <= i < |runs| ==> runs[i] != []) || 0 in Pool(runs)
  {
    var pool := Pool(runs);
    forall k | 0 <= k < |pool| ensures x <= pool[k] as real {
      PoolMembers(runs, pool[k]);
    }
    assert x >= 0.0;
    var i :| 0 <= i < |stats| && x == stats[i].minUs;
    if runs[i] != [] {
      var j :| 0 <= j < |runs[i]| && x == runs[i][j] as real;
      PoolMembers(runs, runs[i][j]);
      var k :| 0 <= k < |pool| && pool[k] == runs[i][j];
      assert IsSmallest(pool, x);
    } else {
      assert x == 0.0;
    }
    if i' :| 0 <= i' < |runs| && runs[i'] == [] {
      assert x == stats[i'].minUs == 0.0;
    }
  }

  /** One recorder without samples beside one with a sample of 1us: the merged minimum is 0, though no
      sample is. */
  lemma EmptyRecorderLowersMinimum(m: BenchmarkResult, stats: seq<BenchmarkResult>, template: BenchmarkResult)
    requires SummariseAll(stats, [[], [1]]) && IsMerge(m, stats, template)
    ensures m.minUs == 0.0 && Pool([[], [1]]) == [1] && IsSmallest([1], 1.0)
  {
    PoolOfOneSample();
    Aspects(stats, [[], [1]]);
    assert stats[0].minUs == 0.0;
  }

  lemma PoolOfOneSample()
    ensures Pool([[], [1]]) == [1] && IsSmallest([1], 1.0)
  {
    var runs: seq<seq<nat>> := [[], [1]];
    assert runs[..1] == [[]] && runs[..1][..0] == [];
    assert Pool(runs[..1]) == [] + [];
    assert [1][0] == 1;
  }

  // ----- the mean -----

  /** The accumulator for the mean is never added to, so the merged mean is the pooled mean exactly
      when every recorded latency is zero. */
  lemma MergedMeanIsPooledMeanIff(m: BenchmarkResult, stats: seq<BenchmarkResult>, template: BenchmarkResult,
                                  runs: seq<seq<nat>>)
    requires SummariseAll(stats, runs) && IsMerge(m, stats, template)
    ensures Pool(runs) != []
    ensures m.meanUs == Mean(Pool(runs)) <==> forall i :: 0 <= i < |Pool(runs)| ==> Pool(runs)[i] == 0
  {
    PoolSize(stats, runs);
    SumIsZero(Pool(runs));
    QuotientIsZero(Sum(Pool(runs)) as real, |Pool(runs)| as real);
  }

  lemma QuotientIsZero(s: real, n: real)
    requires n > 0.0
    ensures s / n == 0.0 <==> s == 0.0
  {
    assert (s / n) * n == s;
  }

  lemma {:induction false} SumIsZero(s: seq<nat>)
    ensures Sum(s) == 0 <==> forall i :: 0 <= i < |s| ==> s[i] == 0
  {
    if s != [] {
      SumIsZero(s[1..]);
      assert forall i :: 0 < i < |s| ==> s[i] == s[1..][i - 1];
    }
  }

  /** One recorder with one sample of 1us: the merged mean is 0, the pooled mean 1. */
  lemma MergedMeanLost(m: BenchmarkResult, stats: seq<BenchmarkResult>, template: BenchmarkResult)
    requires SummariseAll(stats, [[1]]) && IsMerge(m, stats, template)
    ensures m.meanUs == 0.0 && Pool([[1]]) == [1] && Mean([1]) == 1.0
  {
    PoolOfOne();
  }

  lemma PoolOfOne()
    ensures Pool([[1]]) == [1] && Mean([1]) == 1.0
  {
    var runs: seq<seq<nat>> := [[1]];
    assert runs[..0] == [] && Pool(runs[..0]) == [];
    assert Sum([1]) == 1 + Sum([1][1..]) == 1;
  }

  /** Had the mean been accumulated like the percentiles, it would be the pooled mean, exactly. */
  lemma WeightedMeanIsPooled(stats: seq<BenchmarkResult>, runs: seq<seq<nat>>)
    requires SummariseAll(stats, runs) && TotalOps(stats) > 0
    ensures Pool(runs) != [] && Weighted(stats, Average, Unit(TotalOps(stats))) == Mean(Pool(runs))
  {
    PoolSize(stats, runs);
    Aspects(stats, runs);
    TotalIsSum(stats, runs);
    MeanFromTotal(stats, Pool(runs));
  }

  lemma MeanFromTotal(stats: seq<BenchmarkResult>, pool: seq<nat>)
    requires pool != [] && TotalOps(stats) == |pool| && WeightedTotal(stats, Average) == Sum(pool) as real
    ensures Weighted(stats, Average, Unit(TotalOps(stats))) == Mean(pool)
  {
    WeightedFactors(stats, Average, Unit(TotalOps(stats)));
    MeanByUnit(pool, Weighted(stats, Average, Unit(TotalOps(stats))));
  }

  lemma MeanByUnit(samples: seq<nat>, x: real)
    requires samples != [] && x == Sum(samples) as real * Unit(|samples|)
    ensures x == Mean(samples)
  {
    WeightIsUnits(Sum(samples), |samples|);
  }

  lemma {:induction false} TotalIsSum(stats: seq<BenchmarkResult>, runs: seq<seq<nat>>)
    requires MeansOf(stats, runs)
    ensures WeightedTotal(stats, Average) == Sum(Pool(runs)) as real
  {
    if runs != [] {
      var n := |runs| - 1;
      TotalIsSum(stats[..n], runs[..n]);
      SumConcat(Pool(runs[..n]), runs[n]);
      MeanTimesCount(runs[n]);
    }
  }

  lemma MeanTimesCount(samples: seq<nat>)
    ensures Times(MeanOrZero(samples), |samples|) == Sum(samples) as real
  {
    TimesIsProduct(MeanOrZero(samples), |samples|);
    if samples != [] {
      CancelOps(Sum(samples) as real, |samples| as real);
    }
  }

  lemma CancelOps(sum: real, ops: real)
    requires ops > 0.0
    ensures (sum / ops) * ops == sum
  {}
}
