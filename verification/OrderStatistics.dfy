/** Order statistics over recorded samples: sorting, nearest-rank percentiles, means. */
module OrderStatistics {

  ghost predicate Sorted(s: seq<nat>) {
    forall i, j :: 0 <= i < j < |s| ==> s[i] <= s[j]
  }

  function Insert(x: nat, s: seq<nat>): seq<nat> {
    if s == [] || x <= s[0] then [x] + s else [s[0]] + Insert(x, s[1..])
  }

  /** The copy of the samples that the recorder sorts before reading its statistics. */
  function SortedCopy(s: seq<nat>): seq<nat> {
    if s == [] then [] else Insert(s[0], SortedCopy(s[1..]))
  }

  lemma {:induction false} InsertKeeps(x: nat, s: seq<nat>)
    ensures multiset(Insert(x, s)) == multiset(s) + multiset{x}
    ensures |Insert(x, s)| == |s| + 1
  {
    if s != [] && x > s[0] {
      InsertKeeps(x, s[1..]);
      assert s == [s[0]] + s[1..];
    }
  }

  lemma {:induction false} InsertSorts(x: nat, s: seq<nat>)
    requires Sorted(s)
    ensures Sorted(Insert(x, s))
  {
    if s != [] && x > s[0] {
      InsertSorts(x, s[1..]);
      InsertAbove(x, s[1..], s[0]);
    }
  }

  lemma InsertAbove(x: nat, s: seq<nat>, lo: nat)
    requires lo <= x && forall i :: 0 <= i < |s| ==> lo <= s[i]
    ensures forall i :: 0 <= i < |Insert(x, s)| ==> lo <= Insert(x, s)[i]
  {
    var t := Insert(x, s);
    InsertKeeps(x, s);
    forall i | 0 <= i < |t| ensures lo <= t[i] {
      assert t[i] in multiset(t);
      assert t[i] == x || t[i] in s;
    }
  }

  lemma {:induction false} SortedCopyIsSorted(s: seq<nat>)
    ensures Sorted(SortedCopy(s))
    ensures multiset(SortedCopy(s)) == multiset(s)
    ensures |SortedCopy(s)| == |s|
  {
    if s != [] {
      SortedCopyIsSorted(s[1..]);
      InsertKeeps(s[0], SortedCopy(s[1..]));
      InsertSorts(s[0], SortedCopy(s[1..]));
      assert s == [s[0]] + s[1..];
    }
  }

  lemma HeadsAgree(a: seq<nat>, b: seq<nat>)
    requires Sorted(a) && Sorted(b) && a != [] && multiset(a) == multiset(b)
    ensures b != [] && a[0] == b[0] && multiset(a[1..]) == multiset(b[1..])
  {
    assert a[0] in multiset(b);
    assert b != [];
    assert b[0] in multiset(a);
    assert b[0] <= a[0] <= b[0];
    assert a == [a[0]] + a[1..] && b == [b[0]] + b[1..];
    assert multiset(a[1..]) == multiset(a) - multiset{a[0]};
    assert multiset(b[1..]) == multiset(b) - multiset{b[0]};
  }

  /** A sorted arrangement is unique, so the sorting algorithm behind it does not matter. */
  lemma {:induction false} SortIsUnique(a: seq<nat>, b: seq<nat>)
    requires Sorted(a) && Sorted(b) && multiset(a) == multiset(b)
    ensures a == b
  {
    if a == [] {
      assert |multiset(b)| == 0;
    } else {
      HeadsAgree(a, b);
      SortIsUnique(a[1..], b[1..]);
    }
  }

  // ----- counting -----

  function CountAtMost(s: seq<nat>, v: nat): (c: nat)
    ensures c <= |s|
  {
    if s == [] then 0 else (if s[0] <= v then 1 else 0) + CountAtMost(s[1..], v)
  }

  lemma {:induction false} CountConcat(a: seq<nat>, b: seq<nat>, v: nat)
    ensures CountAtMost(a + b, v) == CountAtMost(a, v) + CountAtMost(b, v)
  {
    if a == [] {
      assert a + b == b;
    } else {
      assert (a + b)[1..] == a[1..] + b;
      CountConcat(a[1..], b, v);
    }
  }

  lemma {:induction false} CountInsert(x: nat, s: seq<nat>, v: nat)
    ensures CountAtMost(Insert(x, s), v) == CountAtMost(s, v) + (if x <= v then 1 else 0)
  {
    if s == [] || x <= s[0] {
      assert ([x] + s)[1..] == s;
    } else {
      var t := Insert(x, s[1..]);
      assert ([s[0]] + t)[1..] == t;
      CountInsert(x, s[1..], v);
    }
  }

  lemma {:induction false} CountSortedCopy(s: seq<nat>, v: nat)
    ensures CountAtMost(SortedCopy(s), v) == CountAtMost(s, v)
  {
    if s != [] {
      CountSortedCopy(s[1..], v);
      CountInsert(s[0], SortedCopy(s[1..]), v);
    }
  }

  /** In a sorted list, position k holds a value <= v exactly when more than k values are <= v. */
  lemma {:induction false} CountAgainstPosition(s: seq<nat>, k: nat, v: nat)
    requires Sorted(s) && k < |s|
    ensures s[k] <= v <==> k < CountAtMost(s, v)
  {
    if s[0] > v {
      NoneAtMost(s, v);
    } else if k > 0 {
      CountAgainstPosition(s[1..], k - 1, v);
    }
  }

  lemma {:induction false} NoneAtMost(s: seq<nat>, v: nat)
    requires forall i :: 0 <= i < |s| ==> s[i] > v
    ensures CountAtMost(s, v) == 0
  {
    if s != [] {
      NoneAtMost(s[1..], v);
    }
  }

  // ----- percentiles -----

  function Ceil(x: real): (c: int)
    ensures c as real >= x > c as real - 1.0
  {
    -((-x).Floor)
  }

  /** The product p * n (see TimesIsProduct). Repeated addition keeps statements about a symbolic p
      linear for the verifier. */
  function Times(p: real, n: nat): real {
    if n == 0 then 0.0 else Times(p, n - 1) + p
  }

  lemma {:induction false} TimesIsProduct(p: real, n: nat)
    ensures Times(p, n) == p * n as real
  {
    if n > 0 {
      TimesIsProduct(p, n - 1);
    }
  }

  lemma {:induction false} TimesAdds(p: real, m: nat, n: nat)
    ensures Times(p, m + n) == Times(p, m) + Times(p, n)
  {
    if n > 0 {
      TimesAdds(p, m, n - 1);
    }
  }

  lemma {:induction false} TimesMonotone(p: real, q: real, n: nat)
    requires p <= q
    ensures Times(p, n) <= Times(q, n)
    ensures n > 0 && p < q ==> Times(p, n) < Times(q, n)
  {
    if n > 0 {
      TimesMonotone(p, q, n - 1);
    }
  }

  lemma {:induction false} TimesUnits(n: nat)
    ensures Times(0.0, n) == 0.0 && Times(1.0, n) == n as real
  {
    if n > 0 {
      TimesUnits(n - 1);
    }
  }

  /** The recorder's percentile of an already sorted list. */
  function Percentile(sorted: seq<nat>, p: real): real {
    if sorted == [] then 0.0
    else if p <= 0.0 then sorted[0] as real
    else if p >= 1.0 then sorted[|sorted| - 1] as real
    else
      RankInBounds(|sorted|, p);
      var rank := Times(p, |sorted|);
      var index := Ceil(rank) - 1;
      var index := if |sorted| - 1 < index then |sorted| - 1 else index;
      sorted[index] as real
  }

  /** How many samples a percentile has to dominate. */
  function Rank(n: nat, p: real): int {
    if p <= 0.0 then 1 else if p >= 1.0 then n else Ceil(Times(p, n))
  }

  /** The rank lies in 1..n, so the clamp to the last position never takes effect. */
  lemma RankInBounds(n: nat, p: real)
    requires n > 0
    ensures 1 <= Rank(n, p) <= n
  {
    if 0.0 < p < 1.0 {
      TimesUnits(n);
      TimesMonotone(0.0, p, n);
      TimesMonotone(p, 1.0, n);
    }
  }

  lemma PercentileIsRanked(sorted: seq<nat>, p: real)
    requires sorted != []
    ensures 1 <= Rank(|sorted|, p) <= |sorted|
    ensures Percentile(sorted, p) == sorted[Rank(|sorted|, p) - 1] as real
  {
    RankInBounds(|sorted|, p);
  }

  /** The rank is the index formula of the recorder, on the product itself. */
  lemma RankFormula(n: nat, p: real)
    requires 0.0 < p < 1.0
    ensures Rank(n, p) == Ceil(p * n as real)
  {
    TimesIsProduct(p, n);
  }

  /** v is the smallest recorded value that at least Rank(n, p) samples do not exceed. */
  ghost predicate IsNearestRank(samples: seq<nat>, p: real, v: nat) {
    && v in samples
    && CountAtMost(samples, v) >= Rank(|samples|, p)
    && forall w :: w in samples && w < v ==> CountAtMost(samples, w) < Rank(|samples|, p)
  }

  /** The value the recorder picks, with the number of samples at or below any value. */
  lemma RankedValue(samples: seq<nat>, p: real) returns (u: nat)
    requires samples != []
    ensures Percentile(SortedCopy(samples), p) == u as real && u in samples
    ensures forall w: nat :: CountAtMost(samples, w) >= Rank(|samples|, p) <==> u <= w
  {
    var sorted, rank := SortedCopy(samples), Rank(|samples|, p);
    SortedCopyIsSorted(samples);
    PercentileIsRanked(sorted, p);
    u := sorted[rank - 1];
    assert u in multiset(sorted);
    assert u in samples;
    forall w: nat ensures CountAtMost(samples, w) >= rank <==> u <= w {
      CountSortedCopy(samples, w);
      CountAgainstPosition(sorted, rank - 1, w);
    }
  }

  /** Exact, order-free characterisation of the percentile of any non-empty sample list. */
  lemma PercentileCharacterised(samples: seq<nat>, p: real, v: nat)
    requires samples != []
    ensures Percentile(SortedCopy(samples), p) == v as real <==> IsNearestRank(samples, p, v)
  {
    var u := RankedValue(samples, p);
  }

  /** Recording order is irrelevant. */
  lemma PercentileIgnoresOrder(a: seq<nat>, b: seq<nat>, p: real)
    requires multiset(a) == multiset(b)
    ensures Percentile(SortedCopy(a), p) == Percentile(SortedCopy(b), p)
  {
    SortedCopyIsSorted(a);
    SortedCopyIsSorted(b);
    SortIsUnique(SortedCopy(a), SortedCopy(b));
  }

  lemma CeilMonotone(x: real, y: real)
    requires x <= y
    ensures Ceil(x) <= Ceil(y)
  {}

  lemma RankMonotone(n: nat, p: real, q: real)
    requires n > 0 && p <= q
    ensures Rank(n, p) <= Rank(n, q)
  {
    RankInBounds(n, p);
    RankInBounds(n, q);
    if 0.0 < p && q < 1.0 {
      TimesMonotone(p, q, n);
      CeilMonotone(Times(p, n), Times(q, n));
    }
  }

  lemma PercentileMonotone(sorted: seq<nat>, p: real, q: real)
    requires Sorted(sorted) && p <= q
    ensures Percentile(sorted, p) <= Percentile(sorted, q)
  {
    if sorted != [] {
      PercentileIsRanked(sorted, p);
      PercentileIsRanked(sorted, q);
      RankMonotone(|sorted|, p, q);
    }
  }

  // ----- sums and means -----

  function Sum(s: seq<nat>): nat {
    if s == [] then 0 else s[0] + Sum(s[1..])
  }

  function Mean(s: seq<nat>): real
    requires s != []
  {
    Sum(s) as real / |s| as real
  }

  lemma {:induction false} SumConcat(a: seq<nat>, b: seq<nat>)
    ensures Sum(a + b) == Sum(a) + Sum(b)
  {
    if a == [] {
      assert a + b == b;
    } else {
      assert (a + b)[1..] == a[1..] + b;
      SumConcat(a[1..], b);
    }
  }

  lemma {:induction false} SumInsert(x: nat, s: seq<nat>)
    ensures Sum(Insert(x, s)) == x + Sum(s)
  {
    if s == [] || x <= s[0] {
      assert ([x] + s)[1..] == s;
    } else {
      var t := Insert(x, s[1..]);
      assert ([s[0]] + t)[1..] == t;
      SumInsert(x, s[1..]);
    }
  }

  lemma {:induction false} SumSortedCopy(s: seq<nat>)
    ensures Sum(SortedCopy(s)) == Sum(s)
  {
    if s != [] {
      SumSortedCopy(s[1..]);
      SumInsert(s[0], SortedCopy(s[1..]));
    }
  }

  /** From position k on, a sorted list contributes at least s[k] per element. */
  lemma {:induction false} SumOfTail(s: seq<nat>, k: nat)
    requires Sorted(s) && k < |s|
    ensures Sum(s) as real >= Times(s[k] as real, |s| - k)
  {
    if k > 0 {
      SumOfTail(s[1..], k - 1);
    } else if |s| > 1 {
      SumOfTail(s[1..], 0);
      TimesMonotone(s[0] as real, s[1] as real, |s| - 1);
    } else {
      assert Times(s[0] as real, 0) == 0.0;
    }
  }

  lemma RankedPosition(samples: seq<nat>, p: real) returns (k: nat)
    requires samples != [] && 0.0 < p < 1.0
    ensures k < |samples| == |SortedCopy(samples)| && k as real < Times(p, |samples|)
    ensures Percentile(SortedCopy(samples), p) == SortedCopy(samples)[k] as real
  {
    SortedCopyIsSorted(samples);
    PercentileIsRanked(SortedCopy(samples), p);
    k := Rank(|samples|, p) - 1;
  }

  lemma SumOfSortedTail(samples: seq<nat>, k: nat)
    requires k < |samples|
    ensures |SortedCopy(samples)| == |samples|
    ensures Sum(samples) as real >= Times(SortedCopy(samples)[k] as real, |samples| - k)
  {
    SortedCopyIsSorted(samples);
    SumSortedCopy(samples);
    SumOfTail(SortedCopy(samples), k);
  }

  /** Tail bound: a high percentile forces the mean up, (1 - p) * percentile(p) <= mean. */
  lemma TailBound(samples: seq<nat>, p: real)
    requires samples != [] && 0.0 < p < 1.0
    ensures (1.0 - p) * Percentile(SortedCopy(samples), p) <= Mean(samples)
  {
    var k := RankedPosition(samples, p);
    MeanFromRank(samples, k, p, Percentile(SortedCopy(samples), p));
  }

  lemma MeanFromRank(samples: seq<nat>, k: nat, p: real, q: real)
    requires k < |samples| == |SortedCopy(samples)| && q == SortedCopy(samples)[k] as real
    requires k as real < Times(p, |samples|)
    ensures (1.0 - p) * q <= Mean(samples)
  {
    SumOfSortedTail(samples, k);
    TailShare(|samples|, k, p, q, Sum(samples));
  }

  lemma TailShare(n: nat, k: nat, p: real, q: real, sum: nat)
    requires k < n && k as real < Times(p, n) && q >= 0.0
    requires sum as real >= Times(q, n - k)
    ensures (1.0 - p) * q <= sum as real / n as real
  {
    TimesIsProduct(p, n);
    TimesIsProduct(q, n - k);
    var a, r := (1.0 - p) * q, n as real;
    assert q * (n - k) as real >= q * ((1.0 - p) * r);
    assert q * ((1.0 - p) * r) == a * r;
    DivideBack(a, r, sum as real);
  }

  lemma ScaleStrictly(a: real, b: real, n: real)
    ensures n > 0.0 && a < b ==> a * n < b * n
  {}

  lemma DivideBack(a: real, n: real, s: real)
    requires n > 0.0 && a * n <= s
    ensures a <= s / n
  {
    ScaleStrictly(s / n, a, n);
    assert (s / n) * n == s;
  }
}
