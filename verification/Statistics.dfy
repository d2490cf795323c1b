/** `packages/tekmemo-benchmark-kit/src/stats/stats.ts`, over exact reals. */
module Statistics {
  import opened Optional
  import opened StableSort
  import opened BenchmarkRunner

  datatype Error = OutOfRange

  function Identity(x: real): real { x }

  function Ascend(values: seq<real>): (sorted: seq<real>) {
    Sort(values, Identity)
  }

  function Ceil(x: real): int {
    -((-x).Floor)
  }

  function Product(x: real, y: real): real { x * y }

  lemma ProductMonotone(m: real, x: real, y: real)
    requires x <= y && m >= 0.0
    ensures Product(m, x) <= Product(m, y)
    ensures Product(m, 0.0) == 0.0 && Product(m, 1.0) == m
  {
  }

  /** The point a part `t` of the way up. */
  function Mix(low: real, high: real, t: real): real {
    low + Product(high - low, t)
  }

  lemma MixMonotone(low: real, high: real, t: real, u: real)
    requires low <= high && 0.0 <= t <= u <= 1.0
    ensures low <= Mix(low, high, t) <= Mix(low, high, u) <= high
  {
    hide Product;
    ProductMonotone(high - low, 0.0, t);
    ProductMonotone(high - low, t, u);
    ProductMonotone(high - low, u, 1.0);
  }

  /** Linear interpolation at a rank between two positions of a list. */
  function AtRank(sorted: seq<real>, rank: real): real
    requires 0.0 <= rank <= |sorted| as real - 1.0
  {
    var lower, upper := rank.Floor, Ceil(rank);
    if lower == upper then sorted[lower]
    else Mix(sorted[lower], sorted[upper], rank - lower as real)
  }

  function Rank(p: real, n: nat): real {
    (p / 100.0) * (n as real - 1.0)
  }

  lemma Scaled(x: real, y: real, m: real)
    requires x <= y && m >= 0.0
    ensures x * m <= y * m
  {
  }

  lemma RankMonotone(p: real, q: real, n: nat)
    requires 0.0 <= p <= q <= 100.0 && n > 0
    ensures 0.0 <= Rank(p, n) <= Rank(q, n) <= n as real - 1.0
    ensures Rank(0.0, n) == 0.0 && Rank(100.0, n) == n as real - 1.0
  {
    Scaled(0.0, p / 100.0, n as real - 1.0);
    Scaled(p / 100.0, q / 100.0, n as real - 1.0);
    Scaled(q / 100.0, 1.0, n as real - 1.0);
  }

  lemma SortLength(values: seq<real>)
    ensures |Ascend(values)| == |values| && Ascending(Ascend(values)) && multiset(Ascend(values)) == multiset(values)
  {
    SortMeaning(values, Identity);
    var sorted := Ascend(values);
    forall i, j | 0 <= i < j < |sorted|
      ensures sorted[i] <= sorted[j]
    {
      assert Identity(sorted[i]) <= Identity(sorted[j]);
    }
  }

  function Percentile(values: seq<real>, p: real): Result<real, Error> {
    if p < 0.0 || p > 100.0 then Err(OutOfRange)
    else if values == [] then Ok(0.0)
    else
      SortLength(values);
      RankMonotone(p, p, |values|);
      Ok(AtRank(Ascend(values), Rank(p, |values|)))
  }

  // ------------------------------------------------------------ interpolation

  /** The value lies between the two it is interpolated from. */
  lemma RankBetween(sorted: seq<real>, rank: real)
    requires Ascending(sorted) && 0.0 <= rank <= |sorted| as real - 1.0
    ensures 0 <= rank.Floor <= Ceil(rank) <= rank.Floor + 1 && Ceil(rank) < |sorted|
    ensures sorted[rank.Floor] <= AtRank(sorted, rank) <= sorted[Ceil(rank)]
  {
    var lower, upper := rank.Floor, Ceil(rank);
    if lower != upper {
      MixMonotone(sorted[lower], sorted[upper], rank - lower as real, rank - lower as real);
    }
  }

  lemma RankIncreases(sorted: seq<real>, a: real, b: real)
    requires Ascending(sorted) && 0.0 <= a <= b <= |sorted| as real - 1.0
    ensures AtRank(sorted, a) <= AtRank(sorted, b)
  {
    hide AtRank;
    RankBetween(sorted, a);
    RankBetween(sorted, b);
    if Ceil(a) > b.Floor {
      SameCell(sorted, a, b);
    } else {
      Between(sorted, Ceil(a), b.Floor);
    }
  }

  lemma Between(sorted: seq<real>, i: nat, j: nat)
    requires Ascending(sorted) && i <= j < |sorted|
    ensures sorted[i] <= sorted[j]
  {
  }

  lemma SameCell(sorted: seq<real>, a: real, b: real)
    requires Ascending(sorted) && 0.0 <= a <= b <= |sorted| as real - 1.0 && Ceil(a) > b.Floor
    ensures AtRank(sorted, a) <= AtRank(sorted, b)
  {
    var lower, upper := a.Floor, Ceil(a);
    assert b.Floor == lower && Ceil(b) == upper == lower + 1;
    MixMonotone(sorted[lower], sorted[upper], a - lower as real, b - lower as real);
  }

  /** A higher percentile is never smaller. */
  lemma PercentileMonotone(values: seq<real>, p: real, q: real)
    requires 0.0 <= p <= q <= 100.0
    ensures Percentile(values, p).value <= Percentile(values, q).value
  {
    hide AtRank, Rank;
    if values != [] {
      SortLength(values);
      RankMonotone(p, q, |values|);
      RankIncreases(Ascend(values), Rank(p, |values|), Rank(q, |values|));
    }
  }

  /** The order of the values does not matter. */
  lemma PercentileOfPermutation(values: seq<real>, others: seq<real>, p: real)
    requires multiset(values) == multiset(others)
    ensures Percentile(values, p) == Percentile(others, p)
  {
    SortLength(values);
    SortLength(others);
    AscendingUnique(Ascend(values), Ascend(others));
    assert |multiset(values)| == |values| && |multiset(others)| == |others|;
  }

  /** Between the whole ranks `k` and `k + 1` the value moves in a straight line. */
  lemma Interpolates(xs: seq<real>, k: nat, t: real)
    requires k + 1 < |xs| && 0.0 <= t <= 1.0
    ensures AtRank(xs, k as real + t) == xs[k] + t * (xs[k + 1] - xs[k])
  {
    var rank := k as real + t;
    if t == 0.0 {
      WholeRank(xs, k);
    } else if t == 1.0 {
      WholeRank(xs, k + 1);
      assert rank == (k + 1) as real;
    } else {
      assert rank.Floor == k && Ceil(rank) == k + 1;
    }
  }

  /** The whole rank at or below the rank of a whole percentage, and the hundredths beyond it. */
  function Below(percent: nat, n: nat): nat
    requires n > 0
  {
    percent * (n - 1) / 100
  }

  function Hundredths(percent: nat, n: nat): nat
    requires n > 0
  {
    percent * (n - 1) % 100
  }

  /** The percentile of an ascending list, by whole numbers. */
  function Interpolated(xs: seq<real>, percent: nat): real
    requires xs != [] && percent <= 100
  {
    var k, h := Below(percent, |xs|), Hundredths(percent, |xs|);
    BelowInRange(percent, |xs|);
    if h == 0 then xs[k] else xs[k] + (h as real / 100.0) * (xs[k + 1] - xs[k])
  }

  lemma BelowInRange(percent: nat, n: nat)
    requires percent <= 100 && n > 0
    ensures Hundredths(percent, n) < 100 && Below(percent, n) < n && (Hundredths(percent, n) > 0 ==> Below(percent, n) + 1 < n)
    ensures percent * (n - 1) == 100 * Below(percent, n) + Hundredths(percent, n)
  {
    AtMostHundred(percent, n - 1);
  }

  lemma AtMostHundred(percent: nat, m: nat)
    requires percent <= 100
    ensures percent * m <= 100 * m
  {
  }

  /** Of any values, in terms of the same values in ascending order, however one comes by them. */
  lemma PercentileIsInterpolated(values: seq<real>, xs: seq<real>, percent: nat)
    requires values != [] && percent <= 100 && Ascending(xs) && multiset(xs) == multiset(values)
    ensures xs != [] && Percentile(values, percent as real) == Ok(Interpolated(xs, percent))
  {
    hide AtRank, Ascend, Rank, Interpolated;
    SortLength(values);
    AscendingUnique(Ascend(values), xs);
    assert |multiset(values)| == |values| && |multiset(xs)| == |xs|;
    RankMonotone(percent as real, percent as real, |xs|);
    AtRankOf(xs, percent);
  }

  lemma AtRankOf(xs: seq<real>, percent: nat)
    requires xs != [] && percent <= 100
    ensures 0.0 <= Rank(percent as real, |xs|) <= |xs| as real - 1.0
    ensures AtRank(xs, Rank(percent as real, |xs|)) == Interpolated(xs, percent)
  {
    hide AtRank, Rank, Below, Hundredths;
    var k, h := Below(percent, |xs|), Hundredths(percent, |xs|);
    BelowInRange(percent, |xs|);
    RankMonotone(percent as real, percent as real, |xs|);
    RankByParts(percent, |xs|, k, h);
    FractionOf(h);
    if h == 0 {
      WholeRank(xs, k);
    } else {
      Interpolates(xs, k, h as real / 100.0);
    }
  }

  lemma FractionOf(h: nat)
    requires h < 100
    ensures 0.0 <= h as real / 100.0 <= 1.0 && (h == 0 ==> h as real / 100.0 == 0.0)
  {
  }

  lemma RankByParts(percent: nat, n: nat, k: nat, h: nat)
    requires n > 0 && percent * (n - 1) == 100 * k + h
    ensures Rank(percent as real, n) == k as real + h as real / 100.0
  {
    var p, m := percent as real, (n - 1) as real;
    assert m == n as real - 1.0;
    RealProduct(percent, n - 1);
    Hundred(p, m);
  }

  lemma RealProduct(a: nat, b: nat)
    ensures (a * b) as real == a as real * b as real
  {
  }

  lemma Hundred(p: real, m: real)
    ensures (p / 100.0) * m == (p * m) / 100.0
  {
  }

  /** The median is the middle value, or the mean of the middle two. */
  lemma MedianIsMiddle(values: seq<real>, xs: seq<real>)
    requires values != [] && Ascending(xs) && multiset(xs) == multiset(values)
    ensures |xs| == |values|
    ensures Percentile(values, 50.0) == Ok(if |xs| % 2 == 1 then xs[|xs| / 2] else (xs[|xs| / 2 - 1] + xs[|xs| / 2]) / 2.0)
  {
    hide Percentile;
    assert |multiset(values)| == |values| && |multiset(xs)| == |xs|;
    PercentileIsInterpolated(values, xs, 50);
  }

  // --------------------------------------------------- minimum, maximum, mean

  function Minimum(values: seq<real>): (m: real)
    requires values != []
    ensures m in values && forall x :: x in values ==> m <= x
  {
    if |values| == 1 then values[0]
    else
      var m := Minimum(values[..|values| - 1]);
      var last := values[|values| - 1];
      assert values == values[..|values| - 1] + [last];
      if last < m then last else m
  }

  function Maximum(values: seq<real>): (m: real)
    requires values != []
    ensures m in values && forall x :: x in values ==> x <= m
  {
    if |values| == 1 then values[0]
    else
      var m := Maximum(values[..|values| - 1]);
      var last := values[|values| - 1];
      assert values == values[..|values| - 1] + [last];
      if last > m then last else m
  }

  function Sum(values: seq<real>): real {
    if values == [] then 0.0 else Sum(values[..|values| - 1]) + values[|values| - 1]
  }

  function Mean(values: seq<real>): real {
    if values == [] then 0.0 else Sum(values) / |values| as real
  }

  /** A percentile is refused exactly outside of 0 to 100, of no values too; of no values it is 0. */
  lemma PercentileFailsIff(values: seq<real>, p: real)
    ensures Percentile(values, p) == Err(OutOfRange) <==> !(0.0 <= p <= 100.0)
    ensures 0.0 <= p <= 100.0 ==> Percentile([], p) == Ok(0.0)
  {
    hide AtRank, Sort, Rank;
  }

  /** The percentile at 0 is the minimum, the one at 100 the maximum. */
  lemma PercentileEnds(values: seq<real>)
    requires values != []
    ensures Percentile(values, 0.0) == Ok(Minimum(values))
    ensures Percentile(values, 100.0) == Ok(Maximum(values))
  {
    hide AtRank, Sort;
    SortLength(values);
    var sorted := Ascend(values);
    RankMonotone(0.0, 100.0, |values|);
    WholeRank(sorted, 0);
    WholeRank(sorted, |sorted| - 1);
    assert (|sorted| - 1) as real == |values| as real - 1.0;
    assert Minimum(values) in multiset(values) && Maximum(values) in multiset(values);
    FirstIsMinimum(sorted, Minimum(values));
    LastIsMaximum(sorted, Maximum(values));
    assert sorted[0] in multiset(sorted) && sorted[|sorted| - 1] in multiset(sorted);
    assert sorted[0] in values && sorted[|sorted| - 1] in values;
  }

  lemma FirstIsMinimum(xs: seq<real>, x: real)
    requires Ascending(xs) && x in multiset(xs)
    ensures xs != [] && xs[0] <= x
  {
  }

  lemma WholeRank(sorted: seq<real>, i: nat)
    requires i < |sorted|
    ensures AtRank(sorted, i as real) == sorted[i]
  {
  }

  lemma {:induction false} SumBounds(values: seq<real>, low: real, high: real)
    requires forall i :: 0 <= i < |values| ==> low <= values[i] <= high
    ensures low * |values| as real <= Sum(values) <= high * |values| as real
  {
    if values != [] {
      var n := |values| - 1;
      SumBounds(values[..n], low, high);
      Distribute(low, n);
      Distribute(high, n);
    }
  }

  lemma Distribute(x: real, n: nat)
    ensures x * (n + 1) as real == x * n as real + x
  {
  }

  lemma MeanBetween(values: seq<real>)
    requires values != []
    ensures Minimum(values) <= Mean(values) <= Maximum(values)
  {
    assert forall i :: 0 <= i < |values| ==> values[i] in values;
    SumBounds(values, Minimum(values), Maximum(values));
    DivideBounds(Sum(values), Minimum(values), Maximum(values), |values| as real);
  }

  /** The mean times the count is the sum. */
  lemma MeanTimesCount(values: seq<real>)
    ensures Mean(values) * |values| as real == Sum(values)
  {
  }

  lemma DivideBounds(sum: real, low: real, high: real, n: real)
    requires n > 0.0 && low * n <= sum <= high * n
    ensures low <= sum / n <= high
  {
    var q := sum / n;
    assert q * n == sum;
    if q < low {
      Strictly(q, low, n);
    }
    if high < q {
      Strictly(high, q, n);
    }
  }

  lemma Strictly(x: real, y: real, m: real)
    requires x < y && m > 0.0
    ensures x * m < y * m
  {
  }

  // ----------------------------------------------------------------- summary

  datatype Stats = Stats(
    count: nat, successes: nat, failures: int, errorRate: real, totalDurationMs: real,
    minMs: real, maxMs: real, meanMs: real, medianMs: real,
    p50Ms: real, p90Ms: real, p95Ms: real, p99Ms: real, throughputPerSecond: real)

  function Durations(iterations: seq<IterationResult>): seq<real> {
    seq(|iterations|, i requires 0 <= i < |iterations| => iterations[i].durationMs)
  }

  function Successes(iterations: seq<IterationResult>): (n: nat)
    ensures n <= |iterations|
  {
    if iterations == [] then 0
    else Successes(iterations[..|iterations| - 1]) + (if iterations[|iterations| - 1].ok then 1 else 0)
  }

  function SummarizeIterations(iterations: seq<IterationResult>): Stats {
    var durations := Durations(iterations);
    var count, successes := |iterations|, Successes(iterations);
    var failures := count - successes;
    var total := Sum(durations);
    Stats(
      count, successes, failures,
      if count > 0 then failures as real / count as real else 0.0,
      total,
      if durations == [] then 0.0 else Minimum(durations),
      if durations == [] then 0.0 else Maximum(durations),
      Mean(durations),
      Percentile(durations, 50.0).value,
      Percentile(durations, 50.0).value,
      Percentile(durations, 90.0).value,
      Percentile(durations, 95.0).value,
      Percentile(durations, 99.0).value,
      if total > 0.0 then (count as real / total) * 1000.0 else 0.0)
  }

  /** In every summary the figures are in order. */
  lemma SummaryOrdered(iterations: seq<IterationResult>)
    ensures var s := SummarizeIterations(iterations);
            && s.minMs <= s.p50Ms <= s.p90Ms <= s.p95Ms <= s.p99Ms <= s.maxMs
            && s.minMs <= s.meanMs <= s.maxMs
            && s.medianMs == s.p50Ms
            && s.successes + s.failures == s.count == |iterations|
            && 0.0 <= s.errorRate <= 1.0 && s.errorRate * s.count as real == s.failures as real
            && s.totalDurationMs == Sum(Durations(iterations))
            && (s.totalDurationMs > 0.0 ==> s.throughputPerSecond * s.totalDurationMs == s.count as real * 1000.0)
            && (s.totalDurationMs <= 0.0 ==> s.throughputPerSecond == 0.0)
            && (iterations == [] ==> s.minMs == s.maxMs == s.errorRate == 0.0)
  {
    hide Percentile, Mean, Minimum, Maximum, Sum, Successes;
    var durations := Durations(iterations);
    if iterations != [] {
      PercentileEnds(durations);
      MeanBetween(durations);
      RateBounds(|iterations| - Successes(iterations), |iterations|);
    }
    if Sum(durations) > 0.0 { RateOf(|iterations| as real, Sum(durations)); }
    PercentileMonotone(durations, 0.0, 50.0);
    PercentileMonotone(durations, 50.0, 90.0);
    PercentileMonotone(durations, 90.0, 95.0);
    PercentileMonotone(durations, 95.0, 99.0);
    PercentileMonotone(durations, 99.0, 100.0);
    if iterations == [] { Nothing(); }
  }

  /** Every figure of a summary, in terms of the durations in ascending order and of the iterations that succeeded. */
  lemma SummaryFigures(iterations: seq<IterationResult>, xs: seq<real>)
    requires iterations != [] && Ascending(xs) && multiset(xs) == multiset(Durations(iterations))
    ensures var s := SummarizeIterations(iterations);
            && |xs| == |iterations|
            && s.minMs == xs[0] && s.maxMs == xs[|xs| - 1]
            && s.medianMs == Interpolated(xs, 50) && s.p50Ms == Interpolated(xs, 50) && s.p90Ms == Interpolated(xs, 90)
            && s.p95Ms == Interpolated(xs, 95) && s.p99Ms == Interpolated(xs, 99)
            && s.meanMs * |xs| as real == Sum(xs) && s.totalDurationMs == Sum(xs)
            && s.successes == |set i | 0 <= i < |iterations| && iterations[i].ok|
  {
    hide Percentile, Mean, Minimum, Maximum, Sum, Successes, Interpolated, Ascending;
    var durations := Durations(iterations);
    assert |multiset(durations)| == |durations| && |multiset(xs)| == |xs|;
    PercentileIsInterpolated(durations, xs, 0);
    PercentileIsInterpolated(durations, xs, 50);
    PercentileIsInterpolated(durations, xs, 90);
    PercentileIsInterpolated(durations, xs, 95);
    PercentileIsInterpolated(durations, xs, 99);
    PercentileIsInterpolated(durations, xs, 100);
    PercentileEnds(durations);
    InterpolatedEnds(xs);
    MeanTimesCount(durations);
    SamePermutation(durations, xs);
    SuccessesCounted(iterations);
  }

  lemma InterpolatedEnds(xs: seq<real>)
    requires xs != []
    ensures Interpolated(xs, 0) == xs[0] && Interpolated(xs, 100) == xs[|xs| - 1]
  {
  }

  lemma {:induction false} SuccessesCounted(iterations: seq<IterationResult>)
    ensures Successes(iterations) == |set i | 0 <= i < |iterations| && iterations[i].ok|
  {
    var all := set i | 0 <= i < |iterations| && iterations[i].ok;
    if iterations == [] {
      assert all == {};
    } else {
      var n := |iterations| - 1;
      SuccessesCounted(iterations[..n]);
      var front := set i | 0 <= i < |iterations[..n]| && iterations[..n][i].ok;
      assert all == front + (if iterations[n].ok then {n} else {});
    }
  }

  lemma Nothing()
    ensures Mean([]) == 0.0
    ensures forall p | 0.0 <= p <= 100.0 :: Percentile([], p) == Ok(0.0)
  {
  }

  lemma RateBounds(part: nat, count: nat)
    requires part <= count && count > 0
    ensures 0.0 <= part as real / count as real <= 1.0
    ensures (part as real / count as real) * count as real == part as real
  {
  }

  lemma RateOf(count: real, total: real)
    requires total > 0.0
    ensures (count / total) * 1000.0 * total == count * 1000.0
  {
    var q := count / total;
    assert q * total == count;
    assert q * 1000.0 * total == (q * total) * 1000.0;
  }

  // ------------------------------------------------------------ permutations

  lemma SumSnoc(values: seq<real>, x: real)
    ensures Sum(values + [x]) == Sum(values) + x
  {
    assert (values + [x])[..|values|] == values;
  }

  lemma {:induction false} SumInsert(values: seq<real>, x: real)
    ensures Sum(Insert(values, x, Identity)) == Sum(values) + x
  {
    if values != [] && values[|values| - 1] > x {
      SumInsert(values[..|values| - 1], x);
      SumSnoc(Insert(values[..|values| - 1], x, Identity), values[|values| - 1]);
    } else {
      SumSnoc(values, x);
    }
  }

  lemma {:induction false} SumAscend(values: seq<real>)
    ensures Sum(Ascend(values)) == Sum(values)
  {
    if values != [] {
      SumAscend(values[..|values| - 1]);
      SumInsert(Ascend(values[..|values| - 1]), values[|values| - 1]);
    }
  }

  lemma SamePermutation(values: seq<real>, others: seq<real>)
    requires multiset(values) == multiset(others)
    ensures |values| == |others| && Sum(values) == Sum(others)
    ensures values != [] ==> Minimum(values) == Minimum(others) && Maximum(values) == Maximum(others)
  {
    hide Sum, Ascend;
    SortLength(values);
    SortLength(others);
    AscendingUnique(Ascend(values), Ascend(others));
    SumAscend(values);
    SumAscend(others);
    assert forall x :: x in values <==> x in multiset(values);
    assert forall x :: x in others <==> x in multiset(others);
  }

  function DurationKey(r: IterationResult): real { r.durationMs }

  function OkKey(r: IterationResult): real { if r.ok then 1.0 else 0.0 }

  lemma {:induction false} SuccessesAsSum(iterations: seq<IterationResult>)
    ensures Successes(iterations) as real == Sum(Keys(iterations, OkKey))
  {
    if iterations != [] {
      var front, last := iterations[..|iterations| - 1], iterations[|iterations| - 1];
      SuccessesAsSum(front);
      assert iterations == front + [last];
      KeysSnoc(front, last, OkKey);
      SumSnoc(Keys(front, OkKey), OkKey(last));
    }
  }

  /** The summary does not depend on the order in which the iterations are listed. */
  lemma SummaryOfPermutation(iterations: seq<IterationResult>, others: seq<IterationResult>)
    requires multiset(iterations) == multiset(others)
    ensures SummarizeIterations(iterations) == SummarizeIterations(others)
  {
    hide Percentile, Minimum, Maximum, Sum, Successes;
    KeysPermutation(iterations, others, DurationKey);
    KeysPermutation(iterations, others, OkKey);
    assert Durations(iterations) == Keys(iterations, DurationKey) && Durations(others) == Keys(others, DurationKey);
    SamePermutation(Durations(iterations), Durations(others));
    SamePermutation(Keys(iterations, OkKey), Keys(others, OkKey));
    SuccessesAsSum(iterations);
    SuccessesAsSum(others);
    PercentileOfPermutation(Durations(iterations), Durations(others), 50.0);
    PercentileOfPermutation(Durations(iterations), Durations(others), 90.0);
    PercentileOfPermutation(Durations(iterations), Durations(others), 95.0);
    PercentileOfPermutation(Durations(iterations), Durations(others), 99.0);
  }
}
