/** Nearest-rank percentiles of latency samples. */
module Percentile {
  import opened Prelude
  import opened RealProducts

  /** The smallest integer not below `x`. */
  function Ceil(x: real): (n: int)
    ensures n as real >= x > n as real - 1.0
  {
    -((-x).Floor)
  }

  predicate Ascending(s: seq<int>) {
    forall i, j | 0 <= i < j < |s| :: s[i] <= s[j]
  }

  /** The sample at the rank, of samples already in ascending order. */
  function AtRank(samples: seq<int>, percentile: real): int
    requires samples != []
  {
    if percentile <= 0.0 then samples[0]
    else if percentile >= 100.0 then samples[|samples| - 1]
    else samples[Rank(|samples|, percentile)]
  }

  /** `max(0, ceil(percentile / 100 * n) - 1)`, an index among `n` samples. */
  function Rank(n: nat, percentile: real): (r: nat)
    requires n > 0 && 0.0 < percentile < 100.0
    ensures r < n
    ensures r as real * 100.0 < percentile * n as real <= (r + 1) as real * 100.0
  {
    ShareInRange(n as real, percentile);
    var top := Ceil(percentile / 100.0 * n as real) - 1;
    if top > 0 then top else 0
  }

  lemma ShareInRange(n: real, percentile: real)
    requires n > 0.0 && 0.0 < percentile < 100.0
    ensures percentile / 100.0 * n * 100.0 == percentile * n
    ensures 0.0 < percentile / 100.0 * n < n
  {
  }

  datatype BenchmarkReport = BenchmarkReport(
    iterations: int,
    warmupIterations: int,
    samplesNs: seq<int>,
    p50Ns: int,
    p95Ns: int,
    p99Ns: int,
    minNs: int,
    maxNs: int,
    meanNs: real)

  function FromSamples(samplesNs: seq<int>, iterations: int, warmupIterations: int)
    : Result<BenchmarkReport, Error>
  {
    var ordered := Sort(samplesNs);
    if ordered == [] then Failure(ValueError("samples_ns"))
    else Success(BenchmarkReport(
      iterations,
      warmupIterations,
      ordered,
      AtRank(ordered, 50.0),
      AtRank(ordered, 95.0),
      AtRank(ordered, 99.0),
      ordered[0],
      ordered[|ordered| - 1],
      Sum(ordered) as real / |ordered| as real))
  }

  function Sum(s: seq<int>): int {
    if s == [] then 0 else Sum(s[..|s| - 1]) + s[|s| - 1]
  }

  // ----- Sorting -----

  function Insert(s: seq<int>, x: int): (r: seq<int>)
    ensures |r| == |s| + 1
    ensures multiset(r) == multiset(s) + multiset{x}
  {
    if s == [] then [x]
    else
      var n := |s| - 1;
      assert s == s[..n] + [s[n]];
      if s[n] <= x then s + [x] else Insert(s[..n], x) + [s[n]]
  }

  predicate Within(s: seq<int>, lo: int, hi: int) {
    forall i | 0 <= i < |s| :: lo <= s[i] <= hi
  }

  lemma {:induction false} InsertWithin(s: seq<int>, x: int, lo: int, hi: int)
    requires Within(s, lo, hi) && lo <= x <= hi
    ensures Within(Insert(s, x), lo, hi)
  {
    if s != [] && x < s[|s| - 1] {
      InsertWithin(s[..|s| - 1], x, lo, hi);
    }
  }

  lemma AscendingAppend(s: seq<int>, lo: int, x: int)
    requires Ascending(s) && Within(s, lo, x)
    ensures Ascending(s + [x])
  {
  }

  lemma {:induction false} InsertAscending(s: seq<int>, x: int)
    requires Ascending(s)
    ensures Ascending(Insert(s, x))
  {
    if s == [] {
    } else {
      var n := |s| - 1;
      var lo := if x < s[0] then x else s[0];
      assert Within(s[..n], lo, s[n]);
      if s[n] <= x {
        AscendingAppend(s, lo, x);
      } else {
        InsertAscending(s[..n], x);
        InsertWithin(s[..n], x, lo, s[n]);
        AscendingAppend(Insert(s[..n], x), lo, s[n]);
      }
    }
  }

  function Sort(s: seq<int>): (r: seq<int>)
    ensures |r| == |s|
    ensures multiset(r) == multiset(s)
  {
    if s == [] then []
    else
      assert s == s[..|s| - 1] + [s[|s| - 1]];
      Insert(Sort(s[..|s| - 1]), s[|s| - 1])
  }

  lemma {:induction false} SortAscending(s: seq<int>)
    ensures Ascending(Sort(s))
  {
    if s != [] {
      SortAscending(s[..|s| - 1]);
      InsertAscending(Sort(s[..|s| - 1]), s[|s| - 1]);
    }
  }

  lemma LastIsLargest(s: seq<int>, x: int)
    requires Ascending(s) && x in multiset(s)
    ensures s != [] && x <= s[|s| - 1]
  {
  }

  lemma DropLast(s: seq<int>)
    requires s != [] && Ascending(s)
    ensures multiset(s[..|s| - 1]) == multiset(s) - multiset{s[|s| - 1]}
    ensures Ascending(s[..|s| - 1])
  {
    assert s == s[..|s| - 1] + [s[|s| - 1]];
  }

  lemma SameLast(a: seq<int>, b: seq<int>)
    requires Ascending(a) && Ascending(b) && multiset(a) == multiset(b) && a != []
    ensures b != [] && a[|a| - 1] == b[|b| - 1]
  {
    assert a[|a| - 1] in multiset(a);
    LastIsLargest(b, a[|a| - 1]);
    assert b[|b| - 1] in multiset(b);
    LastIsLargest(a, b[|b| - 1]);
  }

  /** Ascending order is determined by the elements. */
  lemma {:induction false} AscendingUnique(a: seq<int>, b: seq<int>)
    requires Ascending(a) && Ascending(b) && multiset(a) == multiset(b)
    ensures a == b
  {
    if a == [] {
      assert |multiset(b)| == 0;
    } else {
      SameLast(a, b);
      DropLast(a);
      DropLast(b);
      AscendingUnique(a[..|a| - 1], b[..|b| - 1]);
      assert a == a[..|a| - 1] + [a[|a| - 1]];
      assert b == b[..|b| - 1] + [b[|b| - 1]];
    }
  }

  // ----- What a percentile means -----

  function UpTo(v: int): int -> bool {
    x => x <= v
  }

  /** How many samples are at most `v`. */
  ghost function AtMostCount(samples: seq<int>, v: int): nat {
    Count(UpTo(v), samples)
  }

  ghost predicate Covers(samples: seq<int>, percentile: real, v: int) {
    AtMostCount(samples, v) as real * 100.0 >= percentile * |samples| as real
  }

  /** The least sample that at least `percentile` percent of the samples do not exceed. */
  ghost predicate NearestRank(samples: seq<int>, percentile: real, v: int) {
    && v in samples
    && Covers(samples, percentile, v)
    && forall u | u in samples && Covers(samples, percentile, u) :: v <= u
  }

  lemma {:induction false} AllCounted(s: seq<int>, v: int)
    requires forall i | 0 <= i < |s| :: s[i] <= v
    ensures AtMostCount(s, v) == |s|
  {
    if s != [] {
      AllCounted(s[..|s| - 1], v);
    }
  }

  lemma {:induction false} NoneCounted(s: seq<int>, v: int)
    requires forall i | 0 <= i < |s| :: s[i] > v
    ensures AtMostCount(s, v) == 0
  {
    if s != [] {
      NoneCounted(s[..|s| - 1], v);
    }
  }

  /** In ascending order, `r + 1` samples reach the one at `r`, and at most `r` a smaller value. */
  lemma CountAroundRank(s: seq<int>, r: nat, u: int)
    requires Ascending(s) && r < |s|
    ensures AtMostCount(s, s[r]) >= r + 1
    ensures u < s[r] ==> AtMostCount(s, u) <= r
  {
    assert s == s[..r + 1] + s[r + 1..] == s[..r] + s[r..];
    AllCounted(s[..r + 1], s[r]);
    CountAppend(UpTo(s[r]), s[..r + 1], s[r + 1..]);
    if u < s[r] {
      NoneCounted(s[r..], u);
      CountAppend(UpTo(u), s[..r], s[r..]);
    }
  }

  lemma CountSorted(samples: seq<int>, v: int)
    ensures AtMostCount(samples, v) == AtMostCount(Sort(samples), v)
    ensures v in samples <==> v in Sort(samples)
  {
    CountPermuted(UpTo(v), samples, Sort(samples));
    assert v in samples <==> v in multiset(samples);
    assert v in Sort(samples) <==> v in multiset(Sort(samples));
  }

  /** A value at the right rank of the ordered samples is a nearest rank of the samples. */
  lemma RankIsNearest(samples: seq<int>, percentile: real, r: nat)
    requires r < |samples|
    requires r as real * 100.0 < percentile * |samples| as real <= (r + 1) as real * 100.0
    ensures NearestRank(samples, percentile, Sort(samples)[r])
  {
    var s := Sort(samples);
    SortAscending(samples);
    CountSorted(samples, s[r]);
    CountAroundRank(s, r, s[r]);
    forall u | u in samples && Covers(samples, percentile, u) ensures s[r] <= u {
      CountSorted(samples, u);
      CountAroundRank(s, r, u);
    }
  }

  /** The reported value is the nearest rank of the samples, whatever their order. */
  lemma PercentileIsNearestRank(samples: seq<int>, percentile: real)
    requires samples != []
    ensures Sort(samples) != []
    ensures NearestRank(samples, Min(percentile, 100.0), AtRank(Sort(samples), percentile))
  {
    if percentile <= 0.0 {
      SmallestIsNearest(samples, percentile);
    } else if percentile >= 100.0 {
      RankIsNearest(samples, 100.0, |samples| - 1);
    } else {
      RankIsNearest(samples, percentile, Rank(|samples|, percentile));
    }
  }

  lemma NoPercentCovers(samples: seq<int>, percentile: real, v: int)
    requires percentile <= 0.0
    ensures Covers(samples, percentile, v)
  {
    ProductMonotone(percentile, 0.0, |samples| as real);
  }

  /** For no percent or less every sample covers enough, so the least one is the nearest. */
  lemma SmallestIsNearest(samples: seq<int>, percentile: real)
    requires samples != [] && percentile <= 0.0
    ensures NearestRank(samples, percentile, Sort(samples)[0])
  {
    var s := Sort(samples);
    SortAscending(samples);
    CountSorted(samples, s[0]);
    NoPercentCovers(samples, percentile, s[0]);
    forall u | u in samples ensures s[0] <= u {
      CountSorted(samples, u);
    }
  }

  lemma RanksApart(low: nat, high: nat, pn: real, qn: real)
    requires low as real * 100.0 < pn <= qn <= (high + 1) as real * 100.0
    ensures low <= high
  {
  }

  lemma RankMonotone(n: nat, p: real, q: real)
    requires n > 0 && 0.0 < p <= q < 100.0
    ensures Rank(n, p) <= Rank(n, q)
  {
    ProductMonotone(p, q, n as real);
    RanksApart(Rank(n, p), Rank(n, q), p * n as real, q * n as real);
  }

  lemma AtRankMonotone(s: seq<int>, p: real, q: real)
    requires Ascending(s) && s != [] && 0.0 < p <= q < 100.0
    ensures s[0] <= AtRank(s, p) <= AtRank(s, q) <= s[|s| - 1]
  {
    RankMonotone(|s|, p, q);
  }

  /** A report exists exactly for nonempty samples, and its figures are in ascending order. */
  lemma ReportOrdered(samples: seq<int>, iterations: int, warmup: int)
    ensures FromSamples(samples, iterations, warmup).Success? <==> samples != []
    ensures samples != [] ==>
              var r := FromSamples(samples, iterations, warmup).value;
              && r.minNs <= r.p50Ns <= r.p95Ns <= r.p99Ns <= r.maxNs
              && r.minNs as real <= r.meanNs <= r.maxNs as real
              && r.minNs in samples && r.maxNs in samples
              && forall x | x in samples :: r.minNs <= x <= r.maxNs
  {
    var s := Sort(samples);
    SortAscending(samples);
    if samples != [] {
      AtRankMonotone(s, 50.0, 95.0);
      AtRankMonotone(s, 95.0, 99.0);
      MeanBetween(s, s[0], s[|s| - 1]);
      CountSorted(samples, s[0]);
      CountSorted(samples, s[|s| - 1]);
      forall x | x in samples ensures s[0] <= x <= s[|s| - 1] {
        CountSorted(samples, x);
      }
    }
  }

  lemma {:induction false} SumBetween(s: seq<int>, lo: int, hi: int)
    requires Within(s, lo, hi)
    ensures lo as real * |s| as real <= Sum(s) as real <= hi as real * |s| as real
  {
    if s != [] {
      var n := |s| - 1;
      SumBetween(s[..n], lo, hi);
      assert |s| as real == n as real + 1.0;
      assert Sum(s) as real == Sum(s[..n]) as real + s[n] as real;
    }
  }

  lemma MeanBetween(s: seq<int>, lo: int, hi: int)
    requires s != [] && Within(s, lo, hi)
    ensures lo as real <= Sum(s) as real / |s| as real <= hi as real
  {
    SumBetween(s, lo, hi);
    QuotientBetween(Sum(s) as real, |s| as real, lo as real, hi as real);
  }

  lemma QuotientBetween(total: real, n: real, lo: real, hi: real)
    requires n > 0.0 && lo * n <= total <= hi * n
    ensures lo <= total / n <= hi
  {
  }

  /** The samples added up in their own order. */
  ghost function Total(samples: seq<int>): int {
    if samples == [] then 0 else samples[0] + Total(samples[1..])
  }

  lemma {:induction false} TotalAppend(s: seq<int>, x: int)
    ensures Total(s + [x]) == Total(s) + x
  {
    if s == [] {
      assert ([] + [x])[1..] == [];
    } else {
      TotalAppend(s[1..], x);
      assert (s + [x])[1..] == s[1..] + [x];
    }
  }

  lemma {:induction false} InsertTotal(s: seq<int>, x: int)
    ensures Total(Insert(s, x)) == Total(s) + x
  {
    if s == [] {
      TotalAppend(s, x);
    } else {
      var n := |s| - 1;
      assert s == s[..n] + [s[n]];
      TotalAppend(s[..n], s[n]);
      if s[n] <= x {
        TotalAppend(s, x);
      } else {
        InsertTotal(s[..n], x);
        TotalAppend(Insert(s[..n], x), s[n]);
      }
    }
  }

  lemma {:induction false} SortTotal(s: seq<int>)
    ensures Total(Sort(s)) == Total(s)
  {
    if s != [] {
      var n := |s| - 1;
      assert s == s[..n] + [s[n]];
      TotalAppend(s[..n], s[n]);
      SortTotal(s[..n]);
      InsertTotal(Sort(s[..n]), s[n]);
    }
  }

  lemma {:induction false} SumIsTotal(s: seq<int>)
    ensures Sum(s) == Total(s)
  {
    if s != [] {
      var n := |s| - 1;
      assert s == s[..n] + [s[n]];
      TotalAppend(s[..n], s[n]);
      SumIsTotal(s[..n]);
    }
  }

  lemma QuotientTimes(total: real, n: real, mean: real)
    requires n > 0.0 && mean == total / n
    ensures mean * n == total
  {
  }

  lemma MeanIsQuotient(samples: seq<int>, iterations: int, warmup: int)
    requires samples != []
    ensures FromSamples(samples, iterations, warmup).Success?
    ensures FromSamples(samples, iterations, warmup).value.meanNs
         == Sum(Sort(samples)) as real / |samples| as real
  {
  }

  lemma MeanTimesCount(samples: seq<int>, n: real, mean: real)
    requires samples != [] && n == |samples| as real && mean == Sum(Sort(samples)) as real / n
    ensures mean * n == Total(samples) as real
  {
    SortTotal(samples);
    SumIsTotal(Sort(samples));
    QuotientTimes(Total(samples) as real, n, mean);
  }

  /** The reported mean times the number of samples is their total. */
  lemma ReportMean(samples: seq<int>, iterations: int, warmup: int, mean: real, n: real)
    requires samples != [] && n == |samples| as real
    requires FromSamples(samples, iterations, warmup).Success?
    requires mean == FromSamples(samples, iterations, warmup).value.meanNs
    ensures mean * n == Total(samples) as real
  {
    MeanIsQuotient(samples, iterations, warmup);
    MeanTimesCount(samples, n, mean);
  }

  /** Every figure but the mean is what its name says, on the samples as they came. */
  lemma ReportHoldsFigures(samples: seq<int>, iterations: int, warmup: int)
    requires samples != []
    ensures FromSamples(samples, iterations, warmup).Success?
    ensures var r := FromSamples(samples, iterations, warmup).value;
            && r.iterations == iterations && r.warmupIterations == warmup
            && multiset(r.samplesNs) == multiset(samples)
            && (forall i, j | 0 <= i < j < |r.samplesNs| :: r.samplesNs[i] <= r.samplesNs[j])
            && NearestRank(samples, 50.0, r.p50Ns)
            && NearestRank(samples, 95.0, r.p95Ns)
            && NearestRank(samples, 99.0, r.p99Ns)
            && r.minNs in samples && r.maxNs in samples
            && (forall x | x in samples :: r.minNs <= x <= r.maxNs)
  {
    PercentileIsNearestRank(samples, 50.0);
    PercentileIsNearestRank(samples, 95.0);
    PercentileIsNearestRank(samples, 99.0);
    ReportOrdered(samples, iterations, warmup);
    SortAscending(samples);
  }

  /** The report does not depend on the order of the samples. */
  lemma ReportOrderFree(a: seq<int>, b: seq<int>, iterations: int, warmup: int)
    requires multiset(a) == multiset(b)
    ensures FromSamples(a, iterations, warmup) == FromSamples(b, iterations, warmup)
  {
    SortAscending(a);
    SortAscending(b);
    AscendingUnique(Sort(a), Sort(b));
  }
}
