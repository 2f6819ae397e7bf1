/** Averaging the results of repeated runs. */
module Averages {
  import opened OrderStatistics
  import opened Results
  import opened Latency
  import opened Metrics

  /** The largest finite double, (2^53 - 1) * 2^971: where the running minimum starts. */
  const TWO_TO_256 := TWO_TO_64 * TWO_TO_64 * TWO_TO_64 * TWO_TO_64
  const DOUBLE_MAX: real := (0x1F_FFFF_FFFF_FFFF * 0x800 * TWO_TO_64 * TWO_TO_64 * TWO_TO_64
                             * TWO_TO_256 * TWO_TO_256 * TWO_TO_256) as real

  datatype Column = Fig(figure: Figure) | Throughputs | TotalTimes {
    function Of(r: BenchmarkResult): real {
      match this case Fig(f) => f.Of(r) case Throughputs => r.throughputOpsSec case TotalTimes => r.totalTimeMs
    }
  }

  function SumOf(runs: seq<BenchmarkResult>, c: Column): real {
    if runs == [] then 0.0 else SumOf(runs[..|runs| - 1], c) + c.Of(runs[|runs| - 1])
  }

  function LeastFrom(runs: seq<BenchmarkResult>, start: real): real {
    if runs == [] then start else Min(LeastFrom(runs[..|runs| - 1], start), runs[|runs| - 1].minUs)
  }

  function GreatestFrom(runs: seq<BenchmarkResult>, start: real): real {
    if runs == [] then start else Max(GreatestFrom(runs[..|runs| - 1], start), runs[|runs| - 1].maxUs)
  }

  /** The throughput of every run, as the stream prints it. */
  function PerRun(runs: seq<BenchmarkResult>, show: real -> string): string {
    if runs == [] then "per-run throughput: "
    else PerRun(runs[..|runs| - 1], show) + (if |runs| > 1 then "/" else "") + show(runs[|runs| - 1].throughputOpsSec)
  }

  /** The labels of a result of this experiment. */
  predicate LabelledAs(r: BenchmarkResult, operation: string, phase: string) {
    && r.database == "cassandra" && r.experimentName == "exp_07_write_read_symmetry"
    && r.operation == operation && r.indexType == "primary" && r.phase == phase && r.threadCount == 1
  }

  /** The averaged figures of a non-empty list of runs. */
  ghost predicate IsAverage(avg: BenchmarkResult, runs: seq<BenchmarkResult>) {
    && runs != []
    && avg.p50Us == SumOf(runs, Fig(P50)) / |runs| as real
    && avg.p95Us == SumOf(runs, Fig(P95)) / |runs| as real
    && avg.p99Us == SumOf(runs, Fig(P99)) / |runs| as real
    && avg.meanUs == SumOf(runs, Fig(Average)) / |runs| as real
    && avg.throughputOpsSec == SumOf(runs, Throughputs) / |runs| as real
    && avg.totalTimeMs == SumOf(runs, TotalTimes) / |runs| as real
    && avg.totalOps == TotalOps(runs) / |runs|
    && avg.minUs == LeastFrom(runs, DOUBLE_MAX)
    && avg.maxUs == GreatestFrom(runs, 0.0)
  }

  lemma AddRun(runs: seq<BenchmarkResult>, i: nat, hi: real, lo: real, show: real -> string)
    requires i < |runs|
    ensures PerRun(runs[..i + 1], show)
            == PerRun(runs[..i], show) + (if i > 0 then "/" else "") + show(runs[i].throughputOpsSec)
    ensures forall c: Column :: SumOf(runs[..i + 1], c) == SumOf(runs[..i], c) + c.Of(runs[i])
    ensures TotalOps(runs[..i + 1]) == TotalOps(runs[..i]) + runs[i].totalOps
    ensures LeastFrom(runs[..i + 1], hi) == Min(LeastFrom(runs[..i], hi), runs[i].minUs)
    ensures GreatestFrom(runs[..i + 1], lo) == Max(GreatestFrom(runs[..i], lo), runs[i].maxUs)
  {
    assert runs[..i + 1][..i] == runs[..i];
  }

  /** The running sums over all runs. */
  method SumResults(runs: seq<BenchmarkResult>, show: real -> string) returns (sums: BenchmarkResult)
    ensures sums == DEFAULT_RESULT.(
              p50Us := SumOf(runs, Fig(P50)), p95Us := SumOf(runs, Fig(P95)), p99Us := SumOf(runs, Fig(P99)),
              meanUs := SumOf(runs, Fig(Average)), throughputOpsSec := SumOf(runs, Throughputs),
              totalTimeMs := SumOf(runs, TotalTimes), totalOps := TotalOps(runs), notes := PerRun(runs, show),
              minUs := LeastFrom(runs, DOUBLE_MAX), maxUs := GreatestFrom(runs, 0.0))
  {
    var sumP50, sumP95, sumP99, sumMean, sumThroughput, sumTotalMs := 0.0, 0.0, 0.0, 0.0, 0.0, 0.0;
    var sumOps := 0;
    var minVal, maxVal := DOUBLE_MAX, 0.0;
    var notes := "per-run throughput: ";
    for i := 0 to |runs|
      invariant sumP50 == SumOf(runs[..i], Fig(P50))
      invariant sumP95 == SumOf(runs[..i], Fig(P95))
      invariant sumP99 == SumOf(runs[..i], Fig(P99))
      invariant sumMean == SumOf(runs[..i], Fig(Average))
      invariant sumThroughput == SumOf(runs[..i], Throughputs)
      invariant sumTotalMs == SumOf(runs[..i], TotalTimes)
      invariant sumOps == TotalOps(runs[..i]) && notes == PerRun(runs[..i], show)
      invariant minVal == LeastFrom(runs[..i], DOUBLE_MAX) && maxVal == GreatestFrom(runs[..i], 0.0)
    {
      var r := runs[i];
      AddRun(runs, i, DOUBLE_MAX, 0.0, show);
      sumP50 := sumP50 + r.p50Us;
      sumP95 := sumP95 + r.p95Us;
      sumP99 := sumP99 + r.p99Us;
      sumMean := sumMean + r.meanUs;
      sumThroughput := sumThroughput + r.throughputOpsSec;
      sumTotalMs := sumTotalMs + r.totalTimeMs;
      sumOps := sumOps + r.totalOps;
      minVal, maxVal := Min(minVal, r.minUs), Max(maxVal, r.maxUs);
      if i > 0 {
        notes := notes + "/";
      }
      notes := notes + show(r.throughputOpsSec);
    }
    assert runs[..|runs|] == runs;
    sums := DEFAULT_RESULT.(p50Us := sumP50, p95Us := sumP95, p99Us := sumP99, meanUs := sumMean,
                            throughputOpsSec := sumThroughput, totalTimeMs := sumTotalMs, totalOps := sumOps,
                            minUs := minVal, maxUs := maxVal, notes := notes);
  }

  method AverageResults(runs: seq<BenchmarkResult>, isWrite: bool, show: real -> string)
    returns (avg: BenchmarkResult)
    requires runs != []
    ensures IsAverage(avg, runs)
    ensures LabelledAs(avg, if isWrite then "insert" else "point_read", if isWrite then "avg_write" else "avg_read")
    ensures avg.notes == PerRun(runs, show) + " ops/s"
  {
    var sums := SumResults(runs, show);
    var n := |runs| as real;
    avg := sums.(p50Us := sums.p50Us / n, p95Us := sums.p95Us / n, p99Us := sums.p99Us / n, meanUs := sums.meanUs / n,
                 throughputOpsSec := sums.throughputOpsSec / n, totalTimeMs := sums.totalTimeMs / n,
                 totalOps := sums.totalOps / |runs|, notes := sums.notes + " ops/s");
    avg := avg.(database := "cassandra", experimentName := "exp_07_write_read_symmetry",
                operation := if isWrite then "insert" else "point_read", indexType := "primary",
                phase := if isWrite then "avg_write" else "avg_read", threadCount := 1);
  }

  lemma {:induction false} EqualCounts(runs: seq<BenchmarkResult>, n: nat)
    requires forall i :: 0 <= i < |runs| ==> runs[i].totalOps == n
    ensures TotalOps(runs) == n * |runs|
  {
    if runs != [] {
      var k := |runs| - 1;
      EqualCounts(runs[..k], n);
      assert n * |runs| == n * k + n;
    }
  }

  lemma AverageCount(avg: BenchmarkResult, runs: seq<BenchmarkResult>, n: nat)
    requires IsAverage(avg, runs) && forall i :: 0 <= i < |runs| ==> runs[i].totalOps == n
    ensures avg.totalOps == n
  {
    EqualCounts(runs, n);
    CountQuotient(n, |runs|);
  }

  lemma SumOfThree(runs: seq<BenchmarkResult>, c: Column)
    requires |runs| == 3
    ensures SumOf(runs, c) == c.Of(runs[0]) + c.Of(runs[1]) + c.Of(runs[2])
  {
    var two, one := runs[..2], runs[..1];
    assert two[..1] == one && one[..0] == [];
    assert SumOf(one, c) == 0.0 + c.Of(runs[0]);
    assert SumOf(two, c) == SumOf(one, c) + c.Of(runs[1]);
  }

  lemma NotesOfThree(a: BenchmarkResult, b: BenchmarkResult, c: BenchmarkResult, show: real -> string)
    ensures PerRun([a, b, c], show) == "per-run throughput: " + show(a.throughputOpsSec) + "/"
                                       + show(b.throughputOpsSec) + "/" + show(c.throughputOpsSec)
  {
    var three, two, one := [a, b, c], [a, b], [a];
    assert three[..2] == two && two[..1] == one && one[..0] == [];
    assert PerRun(one, show) == "per-run throughput: " + "" + show(a.throughputOpsSec);
    assert PerRun(two, show) == PerRun(one, show) + "/" + show(b.throughputOpsSec);
  }

  /** The average of three runs, figure by figure. */
  lemma AverageOfThree(avg: BenchmarkResult, a: BenchmarkResult, b: BenchmarkResult, c: BenchmarkResult)
    requires IsAverage(avg, [a, b, c])
    ensures avg.p50Us == (a.p50Us + b.p50Us + c.p50Us) / 3.0
    ensures avg.p95Us == (a.p95Us + b.p95Us + c.p95Us) / 3.0
    ensures avg.p99Us == (a.p99Us + b.p99Us + c.p99Us) / 3.0
    ensures avg.meanUs == (a.meanUs + b.meanUs + c.meanUs) / 3.0
    ensures avg.throughputOpsSec == (a.throughputOpsSec + b.throughputOpsSec + c.throughputOpsSec) / 3.0
    ensures avg.totalTimeMs == (a.totalTimeMs + b.totalTimeMs + c.totalTimeMs) / 3.0
  {
    var runs := [a, b, c];
    SumOfThree(runs, Fig(P50));
    SumOfThree(runs, Fig(P95));
    SumOfThree(runs, Fig(P99));
    SumOfThree(runs, Fig(Average));
    SumOfThree(runs, Throughputs);
    SumOfThree(runs, TotalTimes);
  }

  // ----- order -----

  lemma {:induction false} SumMonotone(runs: seq<BenchmarkResult>, c: Column, d: Column)
    requires forall i :: 0 <= i < |runs| ==> c.Of(runs[i]) <= d.Of(runs[i])
    ensures SumOf(runs, c) <= SumOf(runs, d)
  {
    if runs != [] {
      SumMonotone(runs[..|runs| - 1], c, d);
    }
  }

  lemma {:induction false} LeastIsBelow(runs: seq<BenchmarkResult>, start: real)
    ensures forall i :: 0 <= i < |runs| ==> LeastFrom(runs, start) <= runs[i].minUs
    ensures LeastFrom(runs, start) <= start
  {
    if runs != [] {
      LeastIsBelow(runs[..|runs| - 1], start);
    }
  }

  lemma {:induction false} GreatestIsAbove(runs: seq<BenchmarkResult>, start: real)
    ensures forall i :: 0 <= i < |runs| ==> runs[i].maxUs <= GreatestFrom(runs, start)
    ensures start <= GreatestFrom(runs, start)
  {
    if runs != [] {
      GreatestIsAbove(runs[..|runs| - 1], start);
    }
  }

  lemma QuotientMonotone(x: real, y: real, n: nat)
    requires n > 0 && x <= y
    ensures x / n as real <= y / n as real
  {}

  lemma TimesQuotient(x: real, n: nat)
    requires n > 0
    ensures Times(x, n) / n as real == x
  {
    TimesIsProduct(x, n);
  }

  lemma SumAbove(runs: seq<BenchmarkResult>, c: Column, lo: real)
    requires runs != [] && forall i :: 0 <= i < |runs| ==> lo <= c.Of(runs[i])
    ensures lo <= SumOf(runs, c) / |runs| as real
  {
    SumAtLeast(runs, c, lo);
    QuotientMonotone(Times(lo, |runs|), SumOf(runs, c), |runs|);
    TimesQuotient(lo, |runs|);
  }

  lemma {:induction false} SumAtLeast(runs: seq<BenchmarkResult>, c: Column, lo: real)
    requires forall i :: 0 <= i < |runs| ==> lo <= c.Of(runs[i])
    ensures Times(lo, |runs|) <= SumOf(runs, c)
  {
    if runs != [] {
      SumAtLeast(runs[..|runs| - 1], c, lo);
    }
  }

  lemma {:induction false} SumAtMost(runs: seq<BenchmarkResult>, c: Column, hi: real)
    requires forall i :: 0 <= i < |runs| ==> c.Of(runs[i]) <= hi
    ensures SumOf(runs, c) <= Times(hi, |runs|)
  {
    if runs != [] {
      SumAtMost(runs[..|runs| - 1], c, hi);
    }
  }

  lemma SumBelow(runs: seq<BenchmarkResult>, c: Column, hi: real)
    requires runs != [] && forall i :: 0 <= i < |runs| ==> c.Of(runs[i]) <= hi
    ensures SumOf(runs, c) / |runs| as real <= hi
  {
    SumAtMost(runs, c, hi);
    QuotientMonotone(SumOf(runs, c), Times(hi, |runs|), |runs|);
    TimesQuotient(hi, |runs|);
  }

  /** min <= p50 <= p95 <= p99 <= max is kept by averaging any number of runs. */
  lemma AverageOrdered(avg: BenchmarkResult, runs: seq<BenchmarkResult>)
    requires IsAverage(avg, runs) && forall i :: 0 <= i < |runs| ==> Ordered(runs[i])
    ensures Ordered(avg)
  {
    LeastIsBelow(runs, DOUBLE_MAX);
    GreatestIsAbove(runs, 0.0);
    SumAbove(runs, Fig(P50), avg.minUs);
    SumBelow(runs, Fig(P99), avg.maxUs);
    SumMonotone(runs, Fig(P50), Fig(P95));
    SumMonotone(runs, Fig(P95), Fig(P99));
    QuotientMonotone(SumOf(runs, Fig(P50)), SumOf(runs, Fig(P95)), |runs|);
    QuotientMonotone(SumOf(runs, Fig(P95)), SumOf(runs, Fig(P99)), |runs|);
  }

  /** Starting from DOUBLE_MAX and 0 loses nothing: the extremes are those of the runs. */
  lemma AverageEnds(avg: BenchmarkResult, runs: seq<BenchmarkResult>)
    requires IsAverage(avg, runs)
    requires forall i :: 0 <= i < |runs| ==> 0.0 <= runs[i].minUs <= TWO_TO_64 as real && 0.0 <= runs[i].maxUs
    ensures IsLeastMin(runs, avg.minUs) && IsGreatestMax(runs, avg.maxUs)
  {
    LeastIsBelow(runs, DOUBLE_MAX);
    GreatestIsAbove(runs, 0.0);
    EndsReached(runs, DOUBLE_MAX, 0.0);
    assert TWO_TO_64 as real < DOUBLE_MAX;
    assert avg.minUs <= runs[0].minUs && runs[0].maxUs <= avg.maxUs;
  }

  lemma {:induction false} EndsReached(runs: seq<BenchmarkResult>, hi: real, lo: real)
    ensures LeastFrom(runs, hi) == hi || exists i :: 0 <= i < |runs| && LeastFrom(runs, hi) == runs[i].minUs
    ensures GreatestFrom(runs, lo) == lo || exists i :: 0 <= i < |runs| && GreatestFrom(runs, lo) == runs[i].maxUs
  {
    if runs != [] {
      var n := |runs| - 1;
      EndsReached(runs[..n], hi, lo);
      assert forall i :: 0 <= i < n ==> runs[..n][i] == runs[i];
    }
  }

  // ----- throughput: the arithmetic mean of rates against the pooled rate -----

  /** Runs of equal size n, each with a positive time and the throughput that follows from it. */
  ghost predicate EqualRuns(runs: seq<BenchmarkResult>, n: nat) {
    forall i {:trigger EqualRun(runs[i], n)} :: 0 <= i < |runs| ==> EqualRun(runs[i], n)
  }

  ghost predicate EqualRun(r: BenchmarkResult, n: nat) {
    r.totalOps == n && r.totalTimeMs > 0.0 && r.throughputOpsSec == Throughput(n, r.totalTimeMs)
  }

  /** The tangent of c / t at m, with q = c / m and slope q / m, lies below it and touches only there. */
  lemma Tangent(c: real, t: real, m: real, q: real, slope: real)
    requires c >= 0.0 && t > 0.0 && m > 0.0 && q == c / m && slope == q / m
    ensures t == m ==> c / t == 2.0 * q - slope * t
    ensures t != m ==> c / t >= 2.0 * q - slope * t && (c > 0.0 ==> c / t > 2.0 * q - slope * t)
  {
    var a, u := c / t, t / m;
    QuotientSign(c, t);
    QuotientProduct(c, t, m);
    QuotientIsOne(t, m);
    DivMul(q, t, m);
    AgainstLine(a, u, q, slope * t);
  }

  lemma QuotientSign(c: real, t: real)
    requires t > 0.0
    ensures c >= 0.0 ==> c / t >= 0.0
    ensures c > 0.0 ==> c / t > 0.0
  {}

  lemma QuotientProduct(c: real, t: real, m: real)
    requires t > 0.0 && m > 0.0
    ensures c / m == (c / t) * (t / m)
  {
    assert (c / t) * t == c;
    MulDiv(c / t, t, m);
  }

  lemma QuotientIsOne(t: real, m: real)
    requires m > 0.0
    ensures t / m == 1.0 <==> t == m
  {
    assert (t / m) * m == t;
  }

  lemma MulDiv(a: real, t: real, m: real)
    requires m > 0.0
    ensures (a * t) / m == a * (t / m)
  {}

  lemma DivMul(x: real, t: real, m: real)
    requires m > 0.0
    ensures x / m * t == x * (t / m)
  {}

  /** With q = a * u and w = q * u, the value a is at least 2 * q - w, and equal to it only for u = 1. */
  lemma AgainstLine(a: real, u: real, q: real, w: real)
    requires a >= 0.0 && q == a * u && w == q * u
    ensures u == 1.0 ==> a == 2.0 * q - w
    ensures u != 1.0 ==> a >= 2.0 * q - w && (a > 0.0 ==> a > 2.0 * q - w)
  {
    if u == 1.0 {
      TimesOne(a, u);
      TimesOne(q, u);
    } else if a == 0.0 {
      TimesZero(a, u);
      TimesZero(q, u);
    } else if u < 1.0 {
      Shrinks(a, u, q, w);
    } else {
      Grows(a, u, q, w);
    }
  }

  lemma Shrinks(a: real, u: real, q: real, w: real)
    requires a > 0.0 && u < 1.0 && q == a * u && w == q * u
    ensures a > 2.0 * q - w
  {
    PositiveProduct(a, 1.0 - u);
    Shifted(a, u);
    assert q < a;
    ScaleStrictly(q, a, 1.0 - u);
    Shifted(q, u);
  }

  lemma Grows(a: real, u: real, q: real, w: real)
    requires a > 0.0 && u > 1.0 && q == a * u && w == q * u
    ensures a > 2.0 * q - w
  {
    PositiveProduct(a, u - 1.0);
    Shifted(a, u);
    assert a < q;
    ScaleStrictly(a, q, u - 1.0);
    Shifted(q, u);
  }

  lemma PositiveProduct(x: real, y: real)
    ensures x > 0.0 && y > 0.0 ==> x * y > 0.0
  {}

  lemma TimesOne(x: real, u: real)
    requires u == 1.0
    ensures x * u == x
  {}

  lemma TimesZero(x: real, u: real)
    requires x == 0.0
    ensures x * u == 0.0
  {}

  lemma Shifted(x: real, u: real)
    ensures x * (1.0 - u) == x - x * u && x * (u - 1.0) == x * u - x
  {}

  lemma ThroughputIsQuotient(n: nat, timeMs: real)
    requires timeMs > 0.0
    ensures Throughput(n, timeMs) == 1000.0 * n as real / timeMs
  {
    var x := n as real / (timeMs / 1000.0);
    assert x * (timeMs / 1000.0) == n as real;
    assert x * timeMs == 1000.0 * n as real;
  }

  ghost predicate AllTimes(runs: seq<BenchmarkResult>, m: real) {
    forall i :: 0 <= i < |runs| ==> runs[i].totalTimeMs == m
  }

  lemma TangentAt(r: BenchmarkResult, n: nat, m: real, q: real, slope: real)
    requires r.totalTimeMs > 0.0 && r.throughputOpsSec == Throughput(n, r.totalTimeMs)
    requires m > 0.0 && q == Throughput(n, m) && slope == q / m
    ensures r.totalTimeMs == m ==> r.throughputOpsSec == Line(r, q, slope)
    ensures r.totalTimeMs != m ==> r.throughputOpsSec >= Line(r, q, slope)
    ensures r.totalTimeMs != m && n > 0 ==> r.throughputOpsSec > Line(r, q, slope)
  {
    ThroughputIsQuotient(n, r.totalTimeMs);
    ThroughputIsQuotient(n, m);
    Tangent(1000.0 * n as real, r.totalTimeMs, m, q, slope);
  }

  /** The tangent at a run's time. */
  function Line(r: BenchmarkResult, q: real, slope: real): real {
    2.0 * q - slope * r.totalTimeMs
  }

  function LineSum(runs: seq<BenchmarkResult>, q: real, slope: real): real {
    if runs == [] then 0.0 else LineSum(runs[..|runs| - 1], q, slope) + Line(runs[|runs| - 1], q, slope)
  }

  lemma {:induction false} LineSumFactors(runs: seq<BenchmarkResult>, q: real, slope: real)
    ensures LineSum(runs, q, slope) == Times(2.0 * q, |runs|) - slope * SumOf(runs, TotalTimes)
  {
    if runs != [] {
      var k := |runs| - 1;
      LineSumFactors(runs[..k], q, slope);
      TangentStep(slope, SumOf(runs[..k], TotalTimes), runs[k].totalTimeMs);
    }
  }

  ghost predicate AboveLine(runs: seq<BenchmarkResult>, m: real, q: real, slope: real, strictly: bool) {
    && (forall i :: 0 <= i < |runs| ==> runs[i].throughputOpsSec >= Line(runs[i], q, slope))
    && (strictly ==> forall i :: 0 <= i < |runs| ==>
          (runs[i].throughputOpsSec == Line(runs[i], q, slope) <==> runs[i].totalTimeMs == m))
  }

  lemma RunsAboveLine(runs: seq<BenchmarkResult>, n: nat, m: real, q: real, slope: real)
    requires EqualRuns(runs, n)
    requires m > 0.0 && q == Throughput(n, m) && slope == q / m
    ensures AboveLine(runs, m, q, slope, n > 0)
  {
    forall i | 0 <= i < |runs|
      ensures runs[i].throughputOpsSec >= Line(runs[i], q, slope)
      ensures n > 0 ==> (runs[i].throughputOpsSec == Line(runs[i], q, slope) <==> runs[i].totalTimeMs == m)
    {
      assert EqualRun(runs[i], n);
      TangentAt(runs[i], n, m, q, slope);
    }
  }

  /** Summing the tangents at m. */
  lemma {:induction false} TangentSum(runs: seq<BenchmarkResult>, m: real, q: real, slope: real, strictly: bool)
    requires AboveLine(runs, m, q, slope, strictly)
    ensures SumOf(runs, Throughputs) >= LineSum(runs, q, slope)
    ensures strictly ==> (SumOf(runs, Throughputs) == LineSum(runs, q, slope) <==> AllTimes(runs, m))
  {
    if runs != [] {
      TangentSum(runs[..|runs| - 1], m, q, slope, strictly);
      AllTimesGrow(runs, m);
    }
  }

  lemma AllTimesGrow(runs: seq<BenchmarkResult>, m: real)
    requires runs != []
    ensures AllTimes(runs, m) <==> AllTimes(runs[..|runs| - 1], m) && runs[|runs| - 1].totalTimeMs == m
  {
    assert forall i :: 0 <= i < |runs| - 1 ==> runs[..|runs| - 1][i] == runs[i];
  }

  lemma TangentStep(slope: real, total: real, t: real)
    ensures slope * (total + t) == slope * total + slope * t
  {}

  /** The tangents at the mean m of k times with the sum total add up to k * q. */
  lemma AtTheMean(m: real, k: nat, total: real, q: real, slope: real)
    requires m > 0.0 && total == m * k as real && slope == q / m
    ensures Times(2.0 * q, k) - slope * total == Times(q, k)
  {
    TimesIsProduct(2.0 * q, k);
    TimesIsProduct(q, k);
    assert slope * m == q;
    assert slope * total == (slope * m) * k as real;
  }

  lemma {:induction false} PositiveTotal(runs: seq<BenchmarkResult>, n: nat)
    requires EqualRuns(runs, n)
    ensures SumOf(runs, TotalTimes) >= 0.0 && (runs != [] ==> SumOf(runs, TotalTimes) > 0.0)
    ensures TotalOps(runs) == n * |runs|
  {
    if runs != [] {
      var k := |runs| - 1;
      assert EqualRun(runs[k], n);
      assert forall i :: 0 <= i < k ==> EqualRun(runs[i], n) && runs[..k][i] == runs[i];
      PositiveTotal(runs[..k], n);
      assert n * |runs| == n * k + n;
    }
  }

  /** The averaged throughput never understates the pooled rate, and states it exactly when all runs
      took the same time. */
  lemma AverageThroughput(avg: BenchmarkResult, runs: seq<BenchmarkResult>, n: nat)
    requires IsAverage(avg, runs) && EqualRuns(runs, n)
    ensures avg.totalOps == n && avg.totalTimeMs > 0.0
    ensures avg.throughputOpsSec >= Throughput(avg.totalOps, avg.totalTimeMs)
    ensures n > 0 ==> (avg.throughputOpsSec == Throughput(avg.totalOps, avg.totalTimeMs)
                       <==> AllTimes(runs, avg.totalTimeMs))
  {
    PositiveTotal(runs, n);
    CountQuotient(n, |runs|);
    PositiveQuotient(SumOf(runs, TotalTimes), |runs| as real, avg.totalTimeMs);
    var q := Throughput(n, avg.totalTimeMs);
    LineAtMean(runs, avg.totalTimeMs, q, q / avg.totalTimeMs);
    RunsAboveLine(runs, n, avg.totalTimeMs, q, q / avg.totalTimeMs);
    RateAgainst(runs, avg.totalTimeMs, avg.throughputOpsSec, q, q / avg.totalTimeMs, n > 0);
  }

  /** Rates above the line q at the mean time have a mean of at least q. */
  lemma RateAgainst(runs: seq<BenchmarkResult>, m: real, rate: real, q: real, slope: real, strictly: bool)
    requires runs != [] && AboveLine(runs, m, q, slope, strictly)
    requires LineSum(runs, q, slope) == Times(q, |runs|)
    requires rate == SumOf(runs, Throughputs) / |runs| as real
    ensures rate >= q
    ensures strictly ==> (rate == q <==> AllTimes(runs, m))
  {
    TangentSum(runs, m, q, slope, strictly);
    CompareQuotient(SumOf(runs, Throughputs), q, |runs|, rate);
  }

  /** At the mean time m the tangents add up to k times the rate at m. */
  lemma LineAtMean(runs: seq<BenchmarkResult>, m: real, q: real, slope: real)
    requires runs != [] && m > 0.0 && m == SumOf(runs, TotalTimes) / |runs| as real && slope == q / m
    ensures LineSum(runs, q, slope) == Times(q, |runs|)
  {
    LineSumFactors(runs, q, slope);
    QuotientTimes(SumOf(runs, TotalTimes), |runs|, m);
    AtTheMean(m, |runs|, SumOf(runs, TotalTimes), q, slope);
  }

  lemma QuotientTimes(total: real, k: nat, m: real)
    requires k > 0 && m == total / k as real
    ensures total == m * k as real
  {}

  lemma ScaleInt(a: int, b: int, k: nat)
    ensures k > 0 && a < b ==> a * k < b * k
  {}

  lemma CountQuotient(n: nat, k: nat)
    requires k > 0
    ensures n * k / k == n
  {
    var q := n * k / k;
    assert q * k <= n * k < (q + 1) * k;
    ScaleInt(n, q, k);
    ScaleInt(q, n, k);
    ScaleInt(q + 1, n, k);
  }

  lemma PositiveQuotient(x: real, n: real, q: real)
    requires x > 0.0 && n > 0.0 && q == x / n
    ensures q > 0.0 && x == q * n
  {}

  lemma CompareQuotient(x: real, q: real, k: nat, rate: real)
    requires k > 0 && rate == x / k as real && x >= Times(q, k)
    ensures rate >= q && (rate == q <==> x == Times(q, k))
  {
    TimesIsProduct(q, k);
    DivideBack(q, k as real, x);
    assert rate * k as real == x;
  }

  // ----- runs without measurable time -----

  /** Some average of these runs. */
  lemma SomeAverage(runs: seq<BenchmarkResult>) returns (avg: BenchmarkResult)
    requires runs != []
    ensures IsAverage(avg, runs)
  {
    var k := |runs| as real;
    avg := DEFAULT_RESULT.(
      p50Us := SumOf(runs, Fig(P50)) / k, p95Us := SumOf(runs, Fig(P95)) / k, p99Us := SumOf(runs, Fig(P99)) / k,
      meanUs := SumOf(runs, Fig(Average)) / k, throughputOpsSec := SumOf(runs, Throughputs) / k,
      totalTimeMs := SumOf(runs, TotalTimes) / k, totalOps := TotalOps(runs) / |runs|,
      minUs := LeastFrom(runs, DOUBLE_MAX), maxUs := GreatestFrom(runs, 0.0));
  }

  /** A run of n operations, with a measurable time or with time 0, and the throughput that follows. */
  predicate EqualReport(r: BenchmarkResult, n: nat, measured: bool) {
    && r.totalOps == n && r.throughputOpsSec == Throughput(n, r.totalTimeMs)
    && (if measured then r.totalTimeMs > 0.0 else r.totalTimeMs == 0.0)
  }

  lemma {:induction false} NoTimes(runs: seq<BenchmarkResult>)
    requires forall i :: 0 <= i < |runs| ==> runs[i].totalTimeMs == 0.0 && runs[i].throughputOpsSec == 0.0
    ensures SumOf(runs, TotalTimes) == 0.0 && SumOf(runs, Throughputs) == 0.0
  {
    if runs != [] {
      NoTimes(runs[..|runs| - 1]);
    }
  }

  /** When no run took measurable time, both rates are reported as 0. */
  lemma UnmeasuredAverage(avg: BenchmarkResult, runs: seq<BenchmarkResult>)
    requires IsAverage(avg, runs)
    requires forall i :: 0 <= i < |runs| ==> runs[i].totalTimeMs == 0.0 && runs[i].throughputOpsSec == 0.0
    ensures avg.throughputOpsSec == Throughput(avg.totalOps, avg.totalTimeMs) == 0.0
  {
    NoTimes(runs);
    ZeroQuotient(|runs|);
  }

  lemma ZeroQuotient(k: nat)
    requires k > 0
    ensures 0.0 / k as real == 0.0
  {}

  function Count(measured: seq<bool>): nat {
    if measured == [] then 0
    else Count(measured[..|measured| - 1]) + (if measured[|measured| - 1] then 1 else 0)
  }

  lemma {:induction false} CountBounds(measured: seq<bool>)
    ensures Count(measured) <= |measured|
    ensures (exists i :: 0 <= i < |measured| && measured[i]) ==> Count(measured) > 0
    ensures (exists i :: 0 <= i < |measured| && !measured[i]) ==> Count(measured) < |measured|
  {
    if measured != [] {
      var n := |measured| - 1;
      CountBounds(measured[..n]);
      assert forall i :: 0 <= i < n ==> measured[..n][i] == measured[i];
    }
  }

  /** Runs of n operations that took 1 ms or no measurable time. */
  ghost predicate OneOrNone(runs: seq<BenchmarkResult>, n: nat, measured: seq<bool>) {
    && |runs| == |measured|
    && forall i :: 0 <= i < |runs| ==>
         EqualReport(runs[i], n, measured[i]) && runs[i].totalTimeMs == if measured[i] then 1.0 else 0.0
  }

  lemma {:induction false} OneOrNoneSums(runs: seq<BenchmarkResult>, n: nat, measured: seq<bool>)
    requires OneOrNone(runs, n, measured)
    ensures SumOf(runs, TotalTimes) == Count(measured) as real
    ensures SumOf(runs, Throughputs) == Times(1000.0 * n as real, Count(measured))
    ensures TotalOps(runs) == n * |runs|
  {
    if runs != [] {
      var k := |runs| - 1;
      OneOrNoneSums(runs[..k], n, measured[..k]);
      ThroughputIsQuotient(n, 1.0);
      assert n * |runs| == n * k + n;
    }
  }

  /** When some of these runs took time and some did not, the average understates the pooled rate. */
  lemma MixedUnderstates(avg: BenchmarkResult, runs: seq<BenchmarkResult>, n: nat, measured: seq<bool>)
    requires IsAverage(avg, runs) && OneOrNone(runs, n, measured) && n > 0
    requires 0 < Count(measured) < |measured|
    ensures avg.throughputOpsSec < Throughput(avg.totalOps, avg.totalTimeMs)
  {
    var c, k := Count(measured), |runs|;
    OneOrNoneSums(runs, n, measured);
    CountQuotient(n, k);
    PositiveQuotient(c as real, k as real, avg.totalTimeMs);
    ThroughputIsQuotient(n, avg.totalTimeMs);
    MixedRates(1000.0 * n as real, c, k, avg.totalTimeMs, avg.throughputOpsSec);
  }

  lemma CountTwo()
    ensures Count([false, true, true]) == 2
  {
    var measured := [false, true, true];
    assert measured[..2] == [false, true] && measured[..2][..1] == [false] && [false][..0] == [];
  }

  lemma OneOfThree(avg: BenchmarkResult, runs: seq<BenchmarkResult>)
    requires IsAverage(avg, runs) && OneOrNone(runs, 1, [false, true, true])
    ensures avg.throughputOpsSec == 2000.0 / 3.0 && Throughput(avg.totalOps, avg.totalTimeMs) == 1500.0
  {
    CountTwo();
    OneOrNoneSums(runs, 1, [false, true, true]);
    TimesIsProduct(1000.0, 2);
    assert avg.totalTimeMs == 2.0 / 3.0 && avg.totalOps == 1;
    ThroughputIsQuotient(1, 2.0 / 3.0);
  }

  lemma MixedRates(x: real, c: nat, k: nat, f: real, rate: real)
    requires x > 0.0 && 0 < c < k && f == c as real / k as real && f > 0.0 && rate == Times(x, c) / k as real
    ensures rate < x / f
  {
    TimesIsProduct(x, c);
    MulDiv(x, c as real, k as real);
    BelowOne(c, k, f);
    AcrossOne(x, f);
  }

  lemma BelowOne(c: nat, k: nat, f: real)
    requires 0 < c < k && f == c as real / k as real
    ensures f < 1.0
  {
    assert f * k as real == c as real;
  }

  lemma AcrossOne(x: real, f: real)
    requires x > 0.0 && 0.0 < f < 1.0
    ensures x * f < x < x / f
  {
    QuotientSign(x, f);
    DivideOut(x, f);
    ShrinkBelow(x, f, x * f);
    ShrinkBelow(x / f, f, x);
  }

  lemma DivideOut(x: real, f: real)
    requires f > 0.0
    ensures (x / f) * f == x
  {}

  lemma ShrinkBelow(a: real, f: real, b: real)
    requires a > 0.0 && f < 1.0 && b == a * f
    ensures b < a
  {
    PositiveProduct(a, 1.0 - f);
    Shifted(a, f);
  }
}

/** The write/read experiment: insert everything, then look every written id up in shuffled order,
    NUM_RUNS times over, and average. */
module WriteRead {
  import opened Store
  import opened Cassandra
  import opened Results
  import opened Latency
  import opened Averages
  import opened Digits

  const NUM_RUNS := 3

  function IdsOf(os: seq<Order>): (ids: seq<string>)
    ensures |ids| == |os| && forall i :: 0 <= i < |os| ==> ids[i] == os[i].orderId
  {
    seq(|os|, i requires 0 <= i < |os| => os[i].orderId)
  }

  /** What find_by_primary_key returns for each id. */
  function Lookup(byId: map<string, Order>, id: string): Order {
    if id in byId then byId[id] else NO_ORDER
  }

  function Lookups(byId: map<string, Order>, ids: seq<string>): seq<Order> {
    if ids == [] then [] else Lookups(byId, ids[..|ids| - 1]) + [Lookup(byId, ids[|ids| - 1])]
  }

  /** The readings of one run: the shuffle, the measured latencies and the four timer values. */
  datatype RunInput = RunInput(shuffled: seq<string>, writeUs: seq<nat>, readUs: seq<nat>,
                               writeStart: uint64, writeEnd: uint64, readStart: uint64, readEnd: uint64)

  /** The shuffle permutes the written ids, and there is one latency per operation. */
  ghost predicate Plausible(input: RunInput, os: seq<Order>) {
    multiset(input.shuffled) == multiset(IdsOf(os)) && |input.writeUs| == |os| == |input.readUs| == |input.shuffled|
  }

  datatype RunResult = RunResult(runNumber: nat, writeResult: BenchmarkResult, readResult: BenchmarkResult)

  function Unlabelled(r: BenchmarkResult): BenchmarkResult {
    r.(database := "", experimentName := "", operation := "", indexType := "", phase := "", threadCount := 1)
  }

  /** A result with the statistics of the given samples and timer values, whatever its labels. */
  ghost predicate Reports(r: BenchmarkResult, samples: seq<nat>, start: uint64, end: uint64) {
    && Summarises(Unlabelled(r), samples)
    && (samples != [] ==> r.totalTimeMs == ElapsedNs(start, end) as real / 1000000.0)
  }

  ghost predicate RunReports(result: RunResult, run: nat, input: RunInput) {
    && result.runNumber == run
    && LabelledAs(result.writeResult, "insert", "run_" + Decimal(run) + "_write")
    && LabelledAs(result.readResult, "point_read", "run_" + Decimal(run) + "_read")
    && Reports(result.writeResult, input.writeUs, input.writeStart, input.writeEnd)
    && Reports(result.readResult, input.readUs, input.readStart, input.readEnd)
  }

  lemma PhaseCounts(result: RunResult, run: nat, input: RunInput)
    requires RunReports(result, run, input)
    ensures result.writeResult.totalOps == |input.writeUs| && result.readResult.totalOps == |input.readUs|
  {}

  class Experiment7 {
    const client: CassandraClient
    const dataset: seq<Order>
    const totalRows: nat
    const show: real -> string
    var writtenOrderIds: seq<string>
    var runResults: seq<RunResult>
    var avgWrite: BenchmarkResult
    var avgRead: BenchmarkResult

    constructor (client: CassandraClient, dataset: seq<Order>, totalRows: nat, show: real -> string)
      ensures this.client == client && this.dataset == dataset && this.totalRows == totalRows && this.show == show
      ensures writtenOrderIds == [] && runResults == []
    {
      this.client, this.dataset, this.totalRows, this.show := client, dataset, totalRows, show;
      writtenOrderIds, runResults, avgWrite, avgRead := [], [], DEFAULT_RESULT, DEFAULT_RESULT;
    }

    /** The orders of one write phase: the first of the dataset, up to the configured number. */
    function Rows(): (os: seq<Order>)
      ensures |os| <= totalRows && |os| <= |dataset| && (|os| == totalRows || |os| == |dataset|)
      ensures forall i :: 0 <= i < |os| ==> os[i] == dataset[i]
    {
      dataset[..if |dataset| < totalRows then |dataset| else totalRows]
    }

    /** The ids noted are those of the dataset's first orders, up to the configured number. */
    ghost predicate NotesIds()
      reads this`writtenOrderIds
    {
      && |writtenOrderIds| == (if |dataset| < totalRows then |dataset| else totalRows)
      && forall i :: 0 <= i < |writtenOrderIds| ==> writtenOrderIds[i] == dataset[i].orderId
    }

    lemma NotedRows()
      requires writtenOrderIds == IdsOf(Rows())
      ensures NotesIds() && Rows() == dataset[..|writtenOrderIds|]
    {}

    /** The inserting loop between the start and the stop of the timer. */
    method InsertRows(durations: seq<nat>, start: uint64, end: uint64, recorder: LatencyRecorder)
      requires |durations| == |Rows()|
      modifies client, recorder, this`writtenOrderIds
      ensures client.Contents() == InsertAll(old(client.Contents()), Rows())
      ensures writtenOrderIds == IdsOf(Rows())
      ensures recorder.latenciesUs == old(recorder.latenciesUs) + durations
      ensures recorder.startNs == start && recorder.endNs == end
    {
      var n := if |dataset| < totalRows then |dataset| else totalRows;
      writtenOrderIds := [];
      recorder.StartTimer(start);
      for i := 0 to n
        invariant client.Contents() == InsertAll(old(client.Contents()), Rows()[..i])
        invariant writtenOrderIds == IdsOf(Rows()[..i])
        invariant recorder.latenciesUs == old(recorder.latenciesUs) + durations[..i] && recorder.startNs == start
      {
        assert Rows()[..i + 1][..i] == Rows()[..i];
        var ok := client.InsertOne(dataset[i], Acknowledged, Acknowledged);
        recorder.Record(durations[i]);
        writtenOrderIds := writtenOrderIds + [dataset[i].orderId];
      }
      assert Rows()[..n] == Rows() && durations[..n] == durations;
      recorder.StopTimer(end);
    }

    method WritePhase(run: nat, durations: seq<nat>, start: uint64, end: uint64, recorder: LatencyRecorder)
      returns (r: BenchmarkResult)
      requires |durations| == |Rows()|
      modifies client, recorder, this`writtenOrderIds
      ensures writtenOrderIds == IdsOf(Rows()) && NotesIds() && Rows() == dataset[..|writtenOrderIds|]
      ensures client.Contents() == InsertAll(old(client.Contents()), dataset[..|writtenOrderIds|])
      ensures recorder.latenciesUs == old(recorder.latenciesUs) + durations
      ensures Reports(r, recorder.latenciesUs, start, end)
      ensures LabelledAs(r, "insert", "run_" + Decimal(run) + "_write")
    {
      InsertRows(durations, start, end, recorder);
      NotedRows();
      r := recorder.ComputeStats();
      r := r.(database := "cassandra", experimentName := "exp_07_write_read_symmetry", operation := "insert",
              indexType := "primary", phase := "run_" + Decimal(run) + "_write", threadCount := 1);
    }

    /** The lookups are also returned here, where the program drops them. */
    method ReadPhase(run: nat, shuffled: seq<string>, durations: seq<nat>, start: uint64, end: uint64,
                     recorder: LatencyRecorder)
      returns (r: BenchmarkResult, found: seq<Order>)
      requires multiset(shuffled) == multiset(writtenOrderIds)
      requires |durations| == |shuffled|
      modifies recorder
      ensures found == Lookups(client.ordersById, shuffled)
      ensures recorder.latenciesUs == old(recorder.latenciesUs) + durations
      ensures Reports(r, recorder.latenciesUs, start, end)
      ensures LabelledAs(r, "point_read", "run_" + Decimal(run) + "_read")
    {
      found := [];
      recorder.StartTimer(start);
      for i := 0 to |shuffled|
        invariant found == Lookups(client.ordersById, shuffled[..i])
        invariant recorder.latenciesUs == old(recorder.latenciesUs) + durations[..i] && recorder.startNs == start
      {
        assert shuffled[..i + 1][..i] == shuffled[..i];
        var order := client.FindByPrimaryKey(shuffled[i]);
        recorder.Record(durations[i]);
        found := found + [order];
      }
      assert shuffled[..|shuffled|] == shuffled && durations[..|shuffled|] == durations;
      recorder.StopTimer(end);
      r := recorder.ComputeStats();
      r := r.(database := "cassandra", experimentName := "exp_07_write_read_symmetry", operation := "point_read",
              indexType := "primary", phase := "run_" + Decimal(run) + "_read", threadCount := 1);
    }

    /** One run from a clean table; the restart of the server in between keeps the rows. */
    method RunOnce(run: nat, input: RunInput) returns (result: RunResult, found: seq<Order>)
      requires Plausible(input, Rows())
      modifies client, this`writtenOrderIds
      ensures client.Contents() == InsertAll(EMPTY, Rows()) && NotesIds() && writtenOrderIds == IdsOf(Rows())
      ensures result.writeResult.totalOps == result.readResult.totalOps == |writtenOrderIds|
      ensures found == Lookups(InsertAll(EMPTY, Rows()).byId, input.shuffled)
      ensures RunReports(result, run, input)
    {
      var cleared := client.ClearTable(Acknowledged, Acknowledged);
      var writeRecorder := new LatencyRecorder();
      var writeResult := WritePhase(run, input.writeUs, input.writeStart, input.writeEnd, writeRecorder);
      var readRecorder := new LatencyRecorder();
      var readResult;
      readResult, found := ReadPhase(run, input.shuffled, input.readUs, input.readStart, input.readEnd, readRecorder);
      assert [] + input.writeUs == input.writeUs && [] + input.readUs == input.readUs;
      result := RunResult(run, writeResult, readResult);
      PhaseCounts(result, run, input);
    }

    /** The runs, one after the other. */
    method RunAll(inputs: seq<RunInput>)
      requires |inputs| == NUM_RUNS && forall i :: 0 <= i < NUM_RUNS ==> Plausible(inputs[i], Rows())
      modifies this`runResults, this`writtenOrderIds, client
      ensures NotesIds() && Rows() == dataset[..|writtenOrderIds|] && client.Contents() == InsertAll(EMPTY, Rows())
      ensures |runResults| == NUM_RUNS
      ensures forall i :: 0 <= i < NUM_RUNS ==> RunReports(runResults[i], i + 1, inputs[i])
    {
      runResults := [];
      for i := 0 to NUM_RUNS
        invariant |runResults| == i
        invariant i > 0 ==> client.Contents() == InsertAll(EMPTY, Rows()) && NotesIds()
        invariant forall k :: 0 <= k < i ==> RunReports(runResults[k], k + 1, inputs[k])
      {
        var result, found := RunOnce(i + 1, inputs[i]);
        runResults := runResults + [result];
      }
      assert Rows() == dataset[..|writtenOrderIds|];
    }

    /** All runs and their averages. */
    method Run(inputs: seq<RunInput>)
      requires |inputs| == NUM_RUNS && forall i :: 0 <= i < NUM_RUNS ==> Plausible(inputs[i], Rows())
      modifies this, client
      ensures NotesIds() && client.Contents() == InsertAll(EMPTY, dataset[..|writtenOrderIds|])
      ensures avgWrite.totalOps == avgRead.totalOps == |writtenOrderIds|
      ensures |runResults| == NUM_RUNS
      ensures forall i :: 0 <= i < NUM_RUNS ==> RunReports(runResults[i], i + 1, inputs[i])
      ensures IsAverage(avgWrite, WriteResults(runResults)) && IsAverage(avgRead, ReadResults(runResults))
      ensures Rows() != [] && TimersMoved(inputs) ==> Trusted(avgWrite, |Rows()|) && Trusted(avgRead, |Rows()|)
    {
      RunAll(inputs);
      ComputeAverages();
      RunEnds(avgWrite, avgRead, runResults, inputs, |Rows()|);
    }

    method ComputeAverages()
      requires runResults != []
      modifies this`avgWrite, this`avgRead
      ensures IsAverage(avgWrite, WriteResults(runResults)) && IsAverage(avgRead, ReadResults(runResults))
      ensures LabelledAs(avgWrite, "insert", "avg_write") && LabelledAs(avgRead, "point_read", "avg_read")
    {
      avgWrite := AverageResults(WriteResults(runResults), true, show);
      avgRead := AverageResults(ReadResults(runResults), false, show);
    }
  }

  function WriteResults(runs: seq<RunResult>): (rs: seq<BenchmarkResult>)
    ensures |rs| == |runs| && forall i :: 0 <= i < |runs| ==> rs[i] == runs[i].writeResult
  {
    seq(|runs|, i requires 0 <= i < |runs| => runs[i].writeResult)
  }

  function ReadResults(runs: seq<RunResult>): (rs: seq<BenchmarkResult>)
    ensures |rs| == |runs| && forall i :: 0 <= i < |runs| ==> rs[i] == runs[i].readResult
  {
    seq(|runs|, i requires 0 <= i < |runs| => runs[i].readResult)
  }

  /** The samples of a phase and its timer values. */
  datatype Timed = Timed(samples: seq<nat>, start: uint64, end: uint64)

  ghost predicate ReportsAll(runs: seq<BenchmarkResult>, phases: seq<Timed>) {
    && |runs| == |phases|
    && forall i :: 0 <= i < |runs| ==> Reports(runs[i], phases[i].samples, phases[i].start, phases[i].end)
  }

  /** Phases of n operations each, all in a measurable time. */
  predicate AllMoved(phases: seq<Timed>, n: nat) {
    forall i :: 0 <= i < |phases| ==> |phases[i].samples| == n && phases[i].start != phases[i].end
  }

  /** n operations, ordered figures, and a rate that does not understate the pooled one. */
  ghost predicate Trusted(avg: BenchmarkResult, n: nat) {
    avg.totalOps == n && avg.throughputOpsSec >= Throughput(avg.totalOps, avg.totalTimeMs) && Ordered(avg)
  }

  /** Runs that report n samples each in a measurable time average to a result that can be trusted. */
  lemma ReportedThroughput(avg: BenchmarkResult, runs: seq<BenchmarkResult>, phases: seq<Timed>, n: nat)
    requires IsAverage(avg, runs) && ReportsAll(runs, phases) && AllMoved(phases, n) && n > 0
    ensures Trusted(avg, n)
  {
    forall i | 0 <= i < |runs| ensures EqualRun(runs[i], n) && Ordered(runs[i]) {
      ReportedRun(runs[i], phases[i].samples, phases[i].start, phases[i].end);
    }
    AverageThroughput(avg, runs, n);
    AverageOrdered(avg, runs);
  }

  function WritePhases(inputs: seq<RunInput>): (phases: seq<Timed>)
    ensures |phases| == |inputs|
    ensures forall i :: 0 <= i < |inputs| ==>
              phases[i] == Timed(inputs[i].writeUs, inputs[i].writeStart, inputs[i].writeEnd)
  {
    seq(|inputs|, i requires 0 <= i < |inputs| =>
      Timed(inputs[i].writeUs, inputs[i].writeStart, inputs[i].writeEnd))
  }

  function ReadPhases(inputs: seq<RunInput>): (phases: seq<Timed>)
    ensures |phases| == |inputs|
    ensures forall i :: 0 <= i < |inputs| ==>
              phases[i] == Timed(inputs[i].readUs, inputs[i].readStart, inputs[i].readEnd)
  {
    seq(|inputs|, i requires 0 <= i < |inputs| =>
      Timed(inputs[i].readUs, inputs[i].readStart, inputs[i].readEnd))
  }

  predicate TimersMoved(inputs: seq<RunInput>) {
    forall i :: 0 <= i < |inputs| ==>
      inputs[i].writeStart != inputs[i].writeEnd && inputs[i].readStart != inputs[i].readEnd
  }

  /** A whole experiment on n > 0 rows whose timers all moved ends with averages that can be trusted. */
  lemma RunIsTrusted(avgWrite: BenchmarkResult, avgRead: BenchmarkResult, runs: seq<RunResult>,
                     inputs: seq<RunInput>, n: nat)
    requires |runs| == |inputs| && TimersMoved(inputs) && n > 0
    requires IsAverage(avgWrite, WriteResults(runs)) && IsAverage(avgRead, ReadResults(runs))
    requires forall i :: 0 <= i < |runs| ==> RunReports(runs[i], i + 1, inputs[i])
    requires forall i :: 0 <= i < |runs| ==> |inputs[i].writeUs| == n == |inputs[i].readUs|
    ensures Trusted(avgWrite, n) && Trusted(avgRead, n)
  {
    WritesReported(runs, inputs, n);
    ReadsReported(runs, inputs, n);
    ReportedThroughput(avgWrite, WriteResults(runs), WritePhases(inputs), n);
    ReportedThroughput(avgRead, ReadResults(runs), ReadPhases(inputs), n);
  }

  /** The averages count the rows, whatever the timers show. */
  lemma RunCounts(avgWrite: BenchmarkResult, avgRead: BenchmarkResult, runs: seq<RunResult>,
                  inputs: seq<RunInput>, n: nat)
    requires |runs| == |inputs|
    requires IsAverage(avgWrite, WriteResults(runs)) && IsAverage(avgRead, ReadResults(runs))
    requires forall i :: 0 <= i < |runs| ==> RunReports(runs[i], i + 1, inputs[i])
    requires forall i :: 0 <= i < |runs| ==> |inputs[i].writeUs| == n == |inputs[i].readUs|
    ensures avgWrite.totalOps == n == avgRead.totalOps
  {
    AverageCount(avgWrite, WriteResults(runs), n);
    AverageCount(avgRead, ReadResults(runs), n);
  }

  lemma RunEnds(avgWrite: BenchmarkResult, avgRead: BenchmarkResult, runs: seq<RunResult>,
                inputs: seq<RunInput>, n: nat)
    requires |runs| == |inputs|
    requires IsAverage(avgWrite, WriteResults(runs)) && IsAverage(avgRead, ReadResults(runs))
    requires forall i :: 0 <= i < |runs| ==> RunReports(runs[i], i + 1, inputs[i])
    requires forall i :: 0 <= i < |runs| ==> |inputs[i].writeUs| == n == |inputs[i].readUs|
    ensures avgWrite.totalOps == n == avgRead.totalOps
    ensures n > 0 && TimersMoved(inputs) ==> Trusted(avgWrite, n) && Trusted(avgRead, n)
  {
    RunCounts(avgWrite, avgRead, runs, inputs, n);
    if n > 0 && TimersMoved(inputs) {
      RunIsTrusted(avgWrite, avgRead, runs, inputs, n);
    }
  }

  lemma WritesReported(runs: seq<RunResult>, inputs: seq<RunInput>, n: nat)
    requires |runs| == |inputs| && TimersMoved(inputs)
    requires forall i :: 0 <= i < |runs| ==> RunReports(runs[i], i + 1, inputs[i]) && |inputs[i].writeUs| == n
    ensures ReportsAll(WriteResults(runs), WritePhases(inputs)) && AllMoved(WritePhases(inputs), n)
  {}

  lemma ReadsReported(runs: seq<RunResult>, inputs: seq<RunInput>, n: nat)
    requires |runs| == |inputs| && TimersMoved(inputs)
    requires forall i :: 0 <= i < |runs| ==> RunReports(runs[i], i + 1, inputs[i]) && |inputs[i].readUs| == n
    ensures ReportsAll(ReadResults(runs), ReadPhases(inputs)) && AllMoved(ReadPhases(inputs), n)
  {}

  lemma ReportedRun(r: BenchmarkResult, samples: seq<nat>, start: uint64, end: uint64)
    requires Reports(r, samples, start, end) && samples != [] && start != end
    ensures EqualRun(r, |samples|) && Ordered(r)
  {
    SummaryOrdered(Unlabelled(r), samples);
    PositiveTime(ElapsedNs(start, end));
  }

  // ----- when the averaged throughput can be trusted -----

  /** Phases of n operations each; measured says whose timer moved. */
  ghost predicate Measured(phases: seq<Timed>, measured: seq<bool>, n: nat) {
    && |phases| == |measured|
    && forall i :: 0 <= i < |phases| ==>
         |phases[i].samples| == n && (phases[i].start != phases[i].end <==> measured[i])
  }

  ghost predicate NeverUnderstates(measured: seq<bool>, n: nat) {
    forall avg, runs, phases ::
      IsAverage(avg, runs) && ReportsAll(runs, phases) && Measured(phases, measured, n) ==>
      avg.throughputOpsSec >= Throughput(avg.totalOps, avg.totalTimeMs)
  }

  ghost predicate Uniform(measured: seq<bool>) {
    (forall i :: 0 <= i < |measured| ==> measured[i]) || (forall i :: 0 <= i < |measured| ==> !measured[i])
  }

  /** For any number of runs, the averaged throughput never understates the pooled rate exactly when all
      runs took measurable time or none did, or there was nothing to do. */
  lemma NeverUnderstatesIff(measured: seq<bool>, n: nat)
    ensures NeverUnderstates(measured, n) <==> n == 0 || Uniform(measured)
  {
    if n == 0 || Uniform(measured) {
      forall avg, runs, phases | IsAverage(avg, runs) && ReportsAll(runs, phases) && Measured(phases, measured, n)
        ensures avg.throughputOpsSec >= Throughput(avg.totalOps, avg.totalTimeMs)
      {
        UniformIsFair(avg, runs, phases, measured, n);
      }
    } else {
      MixedIsUnfair(measured, n);
    }
  }

  lemma UniformIsFair(avg: BenchmarkResult, runs: seq<BenchmarkResult>, phases: seq<Timed>,
                      measured: seq<bool>, n: nat)
    requires IsAverage(avg, runs) && ReportsAll(runs, phases) && Measured(phases, measured, n)
    requires n == 0 || Uniform(measured)
    ensures avg.throughputOpsSec >= Throughput(avg.totalOps, avg.totalTimeMs)
  {
    forall i | 0 <= i < |runs| ensures EqualReport(runs[i], n, n > 0 && measured[i]) {
      ReportedEqually(runs[i], phases[i], n);
    }
    if n > 0 && measured[0] {
      assert forall i :: 0 <= i < |runs| ==> EqualRun(runs[i], n);
      AverageThroughput(avg, runs, n);
    } else {
      assert forall i :: 0 <= i < |runs| ==> EqualReport(runs[i], n, false);
      UnmeasuredAverage(avg, runs);
    }
  }

  lemma ReportedEqually(r: BenchmarkResult, phase: Timed, n: nat)
    requires Reports(r, phase.samples, phase.start, phase.end) && |phase.samples| == n
    ensures EqualReport(r, n, n > 0 && phase.start != phase.end)
  {
    if phase.start != phase.end {
      PositiveTime(ElapsedNs(phase.start, phase.end));
    }
  }

  /** A run of n operations without latency, with the timer moved by 1 ms or not at all. */
  lemma SomeReport(n: nat, measured: bool) returns (r: BenchmarkResult, phase: Timed)
    requires n > 0
    ensures Reports(r, phase.samples, phase.start, phase.end) && |phase.samples| == n
    ensures (phase.start != phase.end <==> measured) && EqualReport(r, n, measured)
    ensures r.totalTimeMs == if measured then 1.0 else 0.0
  {
    var samples: seq<nat> := seq(n, _ => 0);
    phase := Timed(samples, 0, if measured then 1000000 else 0);
    r := SomeSummary(samples, if measured then 1.0 else 0.0);
  }

  lemma {:induction false} SomeReports(n: nat, measured: seq<bool>)
    returns (runs: seq<BenchmarkResult>, phases: seq<Timed>)
    requires n > 0
    ensures ReportsAll(runs, phases) && Measured(phases, measured, n) && OneOrNone(runs, n, measured)
    decreases |measured|
  {
    runs, phases := [], [];
    if measured != [] {
      var k := |measured| - 1;
      runs, phases := SomeReports(n, measured[..k]);
      var r, phase := SomeReport(n, measured[k]);
      OneMoreReport(runs, phases, measured, n, r, phase);
      runs, phases := runs + [r], phases + [phase];
    }
  }

  lemma OneMoreReport(runs: seq<BenchmarkResult>, phases: seq<Timed>, measured: seq<bool>, n: nat,
                      r: BenchmarkResult, phase: Timed)
    requires measured != [] && |runs| == |measured| - 1
    requires ReportsAll(runs, phases) && Measured(phases, measured[..|runs|], n)
    requires OneOrNone(runs, n, measured[..|runs|])
    requires Reports(r, phase.samples, phase.start, phase.end) && |phase.samples| == n
    requires (phase.start != phase.end <==> measured[|runs|]) && EqualReport(r, n, measured[|runs|])
    requires r.totalTimeMs == if measured[|runs|] then 1.0 else 0.0
    ensures ReportsAll(runs + [r], phases + [phase])
    ensures Measured(phases + [phase], measured, n) && OneOrNone(runs + [r], n, measured)
  {}

  lemma MixedIsUnfair(measured: seq<bool>, n: nat)
    requires n > 0 && !Uniform(measured)
    ensures !NeverUnderstates(measured, n)
  {
    var runs, phases := SomeReports(n, measured);
    var avg := SomeAverage(runs);
    CountBounds(measured);
    MixedUnderstates(avg, runs, n, measured);
  }

  lemma OneOrNoneReported(runs: seq<BenchmarkResult>, phases: seq<Timed>, measured: seq<bool>, n: nat)
    requires ReportsAll(runs, phases) && Measured(phases, measured, n) && n > 0
    requires forall i :: 0 <= i < |phases| && measured[i] ==> ElapsedNs(phases[i].start, phases[i].end) == 1000000
    ensures OneOrNone(runs, n, measured)
  {
    forall i | 0 <= i < |runs|
      ensures EqualReport(runs[i], n, measured[i]) && runs[i].totalTimeMs == if measured[i] then 1.0 else 0.0
    {
      ReportedEqually(runs[i], phases[i], n);
    }
  }

  /** One operation per run, the first run too short to measure, the others 1 ms each: the average
      reports 667 operations per second, the pooled rate is 1500. */
  lemma UnmeasuredRunUnderstates(avg: BenchmarkResult, runs: seq<BenchmarkResult>, phases: seq<Timed>)
    requires IsAverage(avg, runs) && ReportsAll(runs, phases) && |phases| == NUM_RUNS
    requires Measured(phases, [false, true, true], 1)
    requires ElapsedNs(phases[1].start, phases[1].end) == ElapsedNs(phases[2].start, phases[2].end) == 1000000
    ensures avg.throughputOpsSec == 2000.0 / 3.0 && Throughput(avg.totalOps, avg.totalTimeMs) == 1500.0
  {
    OneOrNoneReported(runs, phases, [false, true, true], 1);
    OneOfThree(avg, runs);
  }

  // ----- what the read phase finds -----

  /** Orders that share an id are the same order. */
  ghost predicate IdDetermines(os: seq<Order>) {
    forall i, j :: 0 <= i < |os| && 0 <= j < |os| && os[i].orderId == os[j].orderId ==> os[i] == os[j]
  }

  lemma {:induction false} LookupsAt(byId: map<string, Order>, ids: seq<string>)
    ensures |Lookups(byId, ids)| == |ids|
    ensures forall i :: 0 <= i < |ids| ==> Lookups(byId, ids)[i] == Lookup(byId, ids[i])
  {
    if ids != [] {
      LookupsAt(byId, ids[..|ids| - 1]);
    }
  }

  /** Each lookup finds the last order written under its id. */
  lemma {:induction false} StoredById(os: seq<Order>, i: nat)
    requires i < |os|
    ensures var byId := InsertAll(EMPTY, os).byId;
            os[i].orderId in byId && byId[os[i].orderId] in os && byId[os[i].orderId].orderId == os[i].orderId
  {
    var n := |os| - 1;
    if os[i].orderId != os[n].orderId {
      StoredById(os[..n], i);
    }
  }

  lemma LookupsOfOwnIds(os: seq<Order>)
    requires IdDetermines(os)
    ensures Lookups(InsertAll(EMPTY, os).byId, IdsOf(os)) == os
  {
    var byId := InsertAll(EMPTY, os).byId;
    LookupsAt(byId, IdsOf(os));
    forall i | 0 <= i < |os| ensures Lookup(byId, os[i].orderId) == os[i] {
      StoredById(os, i);
    }
  }

  lemma LookupsSplit(byId: map<string, Order>, a: seq<string>, b: seq<string>)
    ensures Lookups(byId, a + b) == Lookups(byId, a) + Lookups(byId, b)
  {
    LookupsAt(byId, a);
    LookupsAt(byId, b);
    LookupsAt(byId, a + b);
  }

  /** Shuffling the ids shuffles the answers. */
  lemma {:induction false} LookupsPermute(byId: map<string, Order>, a: seq<string>, b: seq<string>)
    requires multiset(a) == multiset(b)
    ensures multiset(Lookups(byId, a)) == multiset(Lookups(byId, b))
  {
    if a == [] {
      assert |multiset(b)| == 0;
    } else {
      var k := Locate(a, b);
      LookupsPermute(byId, a[1..], b[..k] + b[k + 1..]);
      RemovedHead(byId, a);
      Removed(byId, b, k);
    }
  }

  lemma RemovedHead(byId: map<string, Order>, s: seq<string>)
    requires s != []
    ensures multiset(Lookups(byId, s)) == multiset(Lookups(byId, s[1..])) + multiset{Lookup(byId, s[0])}
  {
    Removed(byId, s, 0);
    assert s[..0] + s[1..] == s[1..];
  }

  lemma Locate(a: seq<string>, b: seq<string>) returns (k: nat)
    requires a != [] && multiset(a) == multiset(b)
    ensures k < |b| && b[k] == a[0] && multiset(a[1..]) == multiset(b[..k] + b[k + 1..])
  {
    assert a[0] in multiset(b);
    k :| 0 <= k < |b| && b[k] == a[0];
    assert b == b[..k] + [b[k]] + b[k + 1..];
    assert a == [a[0]] + a[1..];
    assert multiset(a[1..]) == multiset(a) - multiset{a[0]};
    assert multiset(b[..k] + b[k + 1..]) == multiset(b) - multiset{b[k]};
  }

  lemma Removed(byId: map<string, Order>, s: seq<string>, k: nat)
    requires k < |s|
    ensures multiset(Lookups(byId, s)) == multiset(Lookups(byId, s[..k] + s[k + 1..])) + multiset{Lookup(byId, s[k])}
  {
    assert s == s[..k] + [s[k]] + s[k + 1..];
    LookupsSplit(byId, s[..k] + [s[k]], s[k + 1..]);
    LookupsSplit(byId, s[..k], [s[k]]);
    LookupsSplit(byId, s[..k], s[k + 1..]);
    LookupsAt(byId, [s[k]]);
    assert Lookups(byId, [s[k]]) == [Lookup(byId, s[k])];
  }

  /** The read phase reads back exactly the written orders, in some order, if and only if no two
      different orders share an id. */
  lemma ReadsBackIff(os: seq<Order>, shuffled: seq<string>)
    requires multiset(shuffled) == multiset(IdsOf(os))
    ensures multiset(Lookups(InsertAll(EMPTY, os).byId, shuffled)) == multiset(os) <==> IdDetermines(os)
  {
    var byId := InsertAll(EMPTY, os).byId;
    LookupsPermute(byId, shuffled, IdsOf(os));
    if IdDetermines(os) {
      LookupsOfOwnIds(os);
    } else {
      var i, j :| 0 <= i < |os| && 0 <= j < |os| && os[i].orderId == os[j].orderId && os[i] != os[j];
      StoredById(os, i);
      var lost := if byId[os[i].orderId] == os[i] then os[j] else os[i];
      LostOrder(os, lost);
      assert lost in multiset(os);
    }
  }

  /** An order that is not the one stored under its id is never read. */
  lemma LostOrder(os: seq<Order>, lost: Order)
    requires lost in os && lost.orderId in InsertAll(EMPTY, os).byId && InsertAll(EMPTY, os).byId[lost.orderId] != lost
    ensures lost !in multiset(Lookups(InsertAll(EMPTY, os).byId, IdsOf(os)))
  {
    var byId := InsertAll(EMPTY, os).byId;
    var found := Lookups(byId, IdsOf(os));
    LookupsAt(byId, IdsOf(os));
    forall k | 0 <= k < |found| ensures found[k] != lost {
      StoredById(os, k);
    }
  }

  /** Lookup by lookup: every answer is an inserted order with the id asked for, and when no two inserted
      orders share an id it is the one inserted under that id. */
  lemma ReadsEachWritten(os: seq<Order>, shuffled: seq<string>, k: nat)
    requires multiset(shuffled) == multiset(IdsOf(os)) && k < |shuffled|
    ensures var found := Lookups(InsertAll(EMPTY, os).byId, shuffled);
            && |found| == |shuffled| && found[k] in os && found[k].orderId == shuffled[k]
            && (DistinctIds(os) ==> forall i :: 0 <= i < |os| && os[i].orderId == shuffled[k] ==> found[k] == os[i])
  {
    LookupsAt(InsertAll(EMPTY, os).byId, shuffled);
    assert shuffled[k] in multiset(IdsOf(os));
    var i :| 0 <= i < |os| && IdsOf(os)[i] == shuffled[k];
    StoredById(os, i);
  }

  /** Two orders under one id: only the later one is read back, twice. */
  lemma SharedIdLosesOrder(o: Order, p: Order)
    requires o.orderId == p.orderId
    ensures Lookups(InsertAll(EMPTY, [o, p]).byId, [o.orderId, p.orderId]) == [p, p]
  {
    var os, byId := [o, p], InsertAll(EMPTY, [o, p]).byId;
    assert os[..1] == [o];
    assert InsertAll(EMPTY, os) == Insert(InsertAll(EMPTY, [o]), p);
    LookupsAt(byId, [o.orderId, p.orderId]);
  }
}
