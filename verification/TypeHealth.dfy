/** Health of a workflow type over a window of runs, and its trend. */
module TypeHealth {
  import opened RunHealth

  datatype Trend = Improving | Degrading | Stable

  datatype TypeHealth = TypeHealth(
    wfType: string, windowSize: int, runsConsidered: nat,
    successAvg: real, failAvg: real, errorAvg: real, trend: Trend)

  type Metric = RunHealth -> real

  const SUCCESS: Metric := (h: RunHealth) => h.SuccessPercentage()
  const FAIL: Metric := (h: RunHealth) => h.FailPercentage()
  const ERROR: Metric := (h: RunHealth) => h.ErrorPercentage()

  function Sum(runs: seq<RunHealth>, m: Metric): real {
    if runs == [] then 0.0 else Sum(runs[..|runs| - 1], m) + m(runs[|runs| - 1])
  }

  function Average(runs: seq<RunHealth>, m: Metric): real
    requires runs != []
  {
    Sum(runs, m) / |runs| as real
  }

  /** The last window entries of a chronological history; a window of zero or less keeps all. */
  function LastOf<T>(xs: seq<T>, window: int): seq<T> {
    if window > 0 && |xs| > window then xs[|xs| - window..] else xs
  }

  /** The older and the newer half; with an odd number of runs the middle one is in neither. */
  function TrendOf(runs: seq<RunHealth>): Trend {
    if |runs| < 2 then Stable
    else
      var half := |runs| / 2;
      var delta := Average(runs[|runs| - half..], SUCCESS) - Average(runs[..half], SUCCESS);
      if delta > 1.0 then Improving else if delta < -1.0 then Degrading else Stable
  }

  /** The aggregate of the window's runs, all at once. */
  function Aggregate(wfType: string, history: seq<RunHealth>, window: int): TypeHealth {
    var runs := LastOf(history, window);
    if runs == [] then TypeHealth(wfType, window, 0, 0.0, 0.0, 0.0, Stable)
    else TypeHealth(wfType, window, |runs|, Average(runs, SUCCESS), Average(runs, FAIL), Average(runs, ERROR),
        TrendOf(runs))
  }

  method CalculateTrend(runs: seq<RunHealth>) returns (t: Trend)
    ensures t == TrendOf(runs)
  {
    if |runs| < 2 {
      return Stable;
    }
    var half := |runs| / 2;
    if half == 0 {
      return Stable;
    }
    var older := AddUp(runs[..half]);
    var newer := AddUp(runs[|runs| - half..]);
    older := older / half as real;
    newer := newer / half as real;
    var delta := newer - older;
    return if delta > 1.0 then Improving else if delta < -1.0 then Degrading else Stable;
  }

  method AddUp(runs: seq<RunHealth>) returns (sum: real)
    ensures sum == Sum(runs, SUCCESS)
  {
    sum := 0.0;
    for k := 0 to |runs|
      invariant sum == Sum(runs[..k], SUCCESS)
    {
      assert runs[..k + 1][..k] == runs[..k];
      sum := sum + runs[k].SuccessPercentage();
    }
    assert runs[..|runs|] == runs;
  }

  method AggregateWorkflowHealth(wfType: string, history: seq<RunHealth>, window: int) returns (out: TypeHealth)
    ensures out == Aggregate(wfType, history, window)
  {
    out := TypeHealth(wfType, window, 0, 0.0, 0.0, 0.0, Stable);
    if |history| == 0 {
      return;
    }
    var runs := history;
    if window > 0 && |runs| > window {
      runs := runs[|runs| - window..];
    }
    var sumS, sumF, sumE := 0.0, 0.0, 0.0;
    for k := 0 to |runs|
      invariant sumS == Sum(runs[..k], SUCCESS) && sumF == Sum(runs[..k], FAIL) && sumE == Sum(runs[..k], ERROR)
    {
      assert runs[..k + 1][..k] == runs[..k];
      sumS := sumS + runs[k].SuccessPercentage();
      sumF := sumF + runs[k].FailPercentage();
      sumE := sumE + runs[k].ErrorPercentage();
    }
    assert runs[..|runs|] == runs;
    var n := |runs| as real;
    var trend := CalculateTrend(runs);
    out := TypeHealth(wfType, window, |runs|, sumS / n, sumF / n, sumE / n, trend);
  }

  // ---------------------------------------------------------------- sums

  lemma {:induction false} SumJoin(a: seq<RunHealth>, b: seq<RunHealth>, m: Metric)
    ensures Sum(a + b, m) == Sum(a, m) + Sum(b, m)
  {
    if b == [] {
      assert a + b == a;
    } else {
      assert (a + b)[..|a + b| - 1] == a + b[..|b| - 1];
      SumJoin(a, b[..|b| - 1], m);
    }
  }

  /** Entry by entry no larger means no larger in sum. */
  lemma {:induction false} SumMonotone(a: seq<RunHealth>, b: seq<RunHealth>, m: Metric)
    requires |a| == |b| && forall k | 0 <= k < |a| :: m(a[k]) <= m(b[k])
    ensures Sum(a, m) <= Sum(b, m)
  {
    if a == [] {
    } else {
      var n := |a| - 1;
      assert forall k | 0 <= k < n :: a[..n][k] == a[k] && b[..n][k] == b[k];
      SumMonotone(a[..n], b[..n], m);
    }
  }

  lemma {:induction false} SumBetween(runs: seq<RunHealth>, m: Metric, lo: real, hi: real)
    requires forall h | h in runs :: lo <= m(h) <= hi
    ensures lo * |runs| as real <= Sum(runs, m) <= hi * |runs| as real
  {
    if runs == [] {
    } else {
      SumBetween(runs[..|runs| - 1], m, lo, hi);
    }
  }

  /** An average lies between bounds of its entries. */
  lemma {:induction false} AverageBetween(runs: seq<RunHealth>, m: Metric, lo: real, hi: real)
    requires runs != [] && forall h | h in runs :: lo <= m(h) <= hi
    ensures lo <= Average(runs, m) <= hi
  {
    SumBetween(runs, m, lo, hi);
    var n := |runs| as real;
    assert Average(runs, m) * n == Sum(runs, m);
  }

  /** A row whose outcomes fit into its effective clients. */
  predicate Fits(h: RunHealth) {
    h.success >= 0 && h.fail >= 0 && h.error >= 0 && (h.Effective() > 0 ==> h.Completed() <= h.Effective())
  }

  lemma {:induction false} FittingPercentages(h: RunHealth)
    requires Fits(h)
    ensures 0.0 <= h.SuccessPercentage() && 0.0 <= h.FailPercentage() && 0.0 <= h.ErrorPercentage()
    ensures h.SuccessPercentage() + h.FailPercentage() + h.ErrorPercentage() <= 100.0
  {
    if h.Effective() == 0 {
    } else {
      PercentagesFit(h);
    }
  }

  const ALL: Metric := (h: RunHealth) => h.SuccessPercentage() + h.FailPercentage() + h.ErrorPercentage()

  lemma {:induction false} SumOfThree(runs: seq<RunHealth>)
    ensures Sum(runs, ALL) == Sum(runs, SUCCESS) + Sum(runs, FAIL) + Sum(runs, ERROR)
  {
    if runs == [] {
    } else {
      SumOfThree(runs[..|runs| - 1]);
    }
  }

  lemma {:induction false} AverageOfThree(runs: seq<RunHealth>)
    requires runs != []
    ensures Average(runs, ALL) == Average(runs, SUCCESS) + Average(runs, FAIL) + Average(runs, ERROR)
  {
    SumOfThree(runs);
    SplitQuotient(Sum(runs, SUCCESS), Sum(runs, FAIL), Sum(runs, ERROR), |runs| as real);
  }

  lemma {:induction false} SplitQuotient(a: real, b: real, c: real, n: real)
    requires n > 0.0
    ensures (a + b + c) / n == a / n + b / n + c / n
  {
  }

  lemma {:induction false} MetricFits(runs: seq<RunHealth>, m: Metric)
    requires m == SUCCESS || m == FAIL || m == ERROR || m == ALL
    requires forall h | h in runs :: Fits(h)
    ensures forall h | h in runs :: 0.0 <= m(h) <= 100.0
  {
    forall h | h in runs ensures 0.0 <= m(h) <= 100.0 {
      FittingPercentages(h);
    }
  }

  /** The three averages lie between 0 and 100 and sum to at most 100 when every row of the window fits. */
  lemma {:induction false} AveragesFit(wfType: string, history: seq<RunHealth>, window: int)
    requires forall h | h in LastOf(history, window) :: Fits(h)
    ensures var a := Aggregate(wfType, history, window);
            && 0.0 <= a.successAvg <= 100.0 && 0.0 <= a.failAvg <= 100.0 && 0.0 <= a.errorAvg <= 100.0
            && a.successAvg + a.failAvg + a.errorAvg <= 100.0
  {
    var runs := LastOf(history, window);
    if runs != [] {
      MetricFits(runs, SUCCESS);
      AverageBetween(runs, SUCCESS, 0.0, 100.0);
      MetricFits(runs, FAIL);
      AverageBetween(runs, FAIL, 0.0, 100.0);
      MetricFits(runs, ERROR);
      AverageBetween(runs, ERROR, 0.0, 100.0);
      MetricFits(runs, ALL);
      AverageBetween(runs, ALL, 0.0, 100.0);
      AverageOfThree(runs);
    }
  }

  // ---------------------------------------------------------------- trend

  function Reversed<T>(xs: seq<T>): (r: seq<T>)
    ensures |r| == |xs|
    ensures forall k | 0 <= k < |xs| :: r[k] == xs[|xs| - 1 - k]
  {
    seq(|xs|, k requires 0 <= k < |xs| => xs[|xs| - 1 - k])
  }

  lemma {:induction false} SumReversed(runs: seq<RunHealth>, m: Metric)
    ensures Sum(Reversed(runs), m) == Sum(runs, m)
  {
    if runs == [] {
    } else {
      var init, last := runs[..|runs| - 1], runs[|runs| - 1];
      SumReversed(init, m);
      assert Reversed(runs) == [last] + Reversed(init);
      SumJoin([last], Reversed(init), m);
      assert [last][..0] == [];
    }
  }

  function Opposite(t: Trend): Trend {
    match t
    case Improving => Degrading
    case Degrading => Improving
    case Stable => Stable
  }

  /** Read backwards, a history has the opposite trend. */
  lemma {:induction false} ReversedTrend(runs: seq<RunHealth>)
    ensures TrendOf(Reversed(runs)) == Opposite(TrendOf(runs))
  {
    var half := |runs| / 2;
    var back := Reversed(runs);
    assert back[..half] == Reversed(runs[|runs| - half..]);
    assert back[|runs| - half..] == Reversed(runs[..half]);
    SumReversed(runs[|runs| - half..], SUCCESS);
    SumReversed(runs[..half], SUCCESS);
  }

  lemma {:induction false} RisingHalves(runs: seq<RunHealth>)
    requires |runs| >= 2 && forall i, j | 0 <= i < j < |runs| :: SUCCESS(runs[i]) <= SUCCESS(runs[j])
    ensures Average(runs[..|runs| / 2], SUCCESS) <= Average(runs[|runs| - |runs| / 2..], SUCCESS)
  {
    var half := |runs| / 2;
    var older, newer := runs[..half], runs[|runs| - half..];
    assert forall k | 0 <= k < half :: older[k] == runs[k] && newer[k] == runs[|runs| - half + k];
    EntriesOrderAverages(older, newer);
  }

  lemma {:induction false} FallingHalves(runs: seq<RunHealth>)
    requires |runs| >= 2 && forall i, j | 0 <= i < j < |runs| :: SUCCESS(runs[i]) >= SUCCESS(runs[j])
    ensures Average(runs[..|runs| / 2], SUCCESS) >= Average(runs[|runs| - |runs| / 2..], SUCCESS)
  {
    var half := |runs| / 2;
    var older, newer := runs[..half], runs[|runs| - half..];
    assert forall k | 0 <= k < half :: older[k] == runs[k] && newer[k] == runs[|runs| - half + k];
    EntriesOrderAverages(newer, older);
  }

  /** A history that never gets worse is never called degrading, and one that never gets better never improving. */
  lemma {:induction false} MonotoneTrend(runs: seq<RunHealth>)
    ensures (forall i, j | 0 <= i < j < |runs| :: SUCCESS(runs[i]) <= SUCCESS(runs[j])) ==> !TrendOf(runs).Degrading?
    ensures (forall i, j | 0 <= i < j < |runs| :: SUCCESS(runs[i]) >= SUCCESS(runs[j])) ==> !TrendOf(runs).Improving?
  {
    if |runs| >= 2 {
      if forall i, j | 0 <= i < j < |runs| :: SUCCESS(runs[i]) <= SUCCESS(runs[j]) {
        RisingHalves(runs);
      }
      if forall i, j | 0 <= i < j < |runs| :: SUCCESS(runs[i]) >= SUCCESS(runs[j]) {
        FallingHalves(runs);
      }
    }
  }

  lemma {:induction false} EntriesOrderAverages(a: seq<RunHealth>, b: seq<RunHealth>)
    requires |a| == |b| && a != [] && forall k | 0 <= k < |a| :: SUCCESS(a[k]) <= SUCCESS(b[k])
    ensures Average(a, SUCCESS) <= Average(b, SUCCESS)
  {
    SumMonotone(a, b, SUCCESS);
    QuotientsOrdered(Sum(a, SUCCESS), Sum(b, SUCCESS), |a| as real);
  }

  lemma {:induction false} QuotientsOrdered(x: real, y: real, n: real)
    requires x <= y && n > 0.0
    ensures x / n <= y / n
  {
    assert y / n == x / n + (y - x) / n;
  }

  // ---------------------------------------------------------------- averages and trend, from the counts

  /** The count in percent of the clients that are not banned; zero when there are none. */
  function Percent(count: int, total: int, banned: int): real {
    if total <= banned then 0.0 else 100.0 * count as real / (total - banned) as real
  }

  function Total(xs: seq<real>): real {
    if xs == [] then 0.0 else xs[0] + Total(xs[1..])
  }

  lemma {:induction false} TotalAppend(xs: seq<real>, x: real)
    ensures Total(xs + [x]) == Total(xs) + x
  {
    if xs == [] {
      assert [x][1..] == [];
    } else {
      TotalAppend(xs[1..], x);
      assert (xs + [x])[1..] == xs[1..] + [x];
    }
  }

  lemma {:induction false} SumIsTotal(runs: seq<RunHealth>, m: Metric, xs: seq<real>)
    requires |xs| == |runs| && forall i | 0 <= i < |runs| :: xs[i] == m(runs[i])
    ensures Sum(runs, m) == Total(xs)
  {
    if runs == [] {
    } else {
      var n := |runs| - 1;
      SumIsTotal(runs[..n], m, xs[..n]);
      TotalAppend(xs[..n], xs[n]);
      assert xs == xs[..n] + [xs[n]];
    }
  }

  function SuccessPercents(runs: seq<RunHealth>): (xs: seq<real>)
    ensures |xs| == |runs|
  {
    seq(|runs|, i requires 0 <= i < |runs| => Percent(runs[i].success, runs[i].total, runs[i].banned))
  }

  function FailPercents(runs: seq<RunHealth>): (xs: seq<real>)
    ensures |xs| == |runs|
  {
    seq(|runs|, i requires 0 <= i < |runs| => Percent(runs[i].fail, runs[i].total, runs[i].banned))
  }

  function ErrorPercents(runs: seq<RunHealth>): (xs: seq<real>)
    ensures |xs| == |runs|
  {
    seq(|runs|, i requires 0 <= i < |runs| => Percent(runs[i].error, runs[i].total, runs[i].banned))
  }

  lemma {:induction false} SumsAreTotals(runs: seq<RunHealth>)
    ensures Sum(runs, SUCCESS) == Total(SuccessPercents(runs))
    ensures Sum(runs, FAIL) == Total(FailPercents(runs))
    ensures Sum(runs, ERROR) == Total(ErrorPercents(runs))
  {
    SumIsTotal(runs, SUCCESS, SuccessPercents(runs));
    SumIsTotal(runs, FAIL, FailPercents(runs));
    SumIsTotal(runs, ERROR, ErrorPercents(runs));
  }

  /** Times the number of entries, it is their sum. */
  predicate IsMean(mean: real, xs: seq<real>) {
    mean * |xs| as real == Total(xs)
  }

  lemma {:induction false} QuotientIsMean(sum: real, xs: seq<real>)
    requires xs != [] && sum == Total(xs)
    ensures IsMean(sum / |xs| as real, xs)
  {
    var n := |xs| as real;
    assert sum / n * n == sum;
  }

  lemma {:induction false} AveragesAreMeans(runs: seq<RunHealth>)
    requires runs != []
    ensures IsMean(Average(runs, SUCCESS), SuccessPercents(runs))
    ensures IsMean(Average(runs, FAIL), FailPercents(runs))
    ensures IsMean(Average(runs, ERROR), ErrorPercents(runs))
  {
    SumsAreTotals(runs);
    QuotientIsMean(Sum(runs, SUCCESS), SuccessPercents(runs));
    QuotientIsMean(Sum(runs, FAIL), FailPercents(runs));
    QuotientIsMean(Sum(runs, ERROR), ErrorPercents(runs));
  }

  /** How many of the last rows a window takes. */
  function Taken(rows: nat, window: int): (n: nat)
    ensures n <= rows
  {
    if 0 < window < rows then window else rows
  }

  /**
   * The stored averages, from the counts of the rows: each is the mean over the last window of
   * that outcome in percent of the clients that are not banned.
   */
  lemma {:induction false} AveragesAre(wfType: string, history: seq<RunHealth>, window: int)
    ensures var a, n := Aggregate(wfType, history, window), Taken(|history|, window);
            var runs := history[|history| - n..];
            && a.wfType == wfType && a.windowSize == window && a.runsConsidered == n
            && IsMean(a.successAvg, SuccessPercents(runs)) && IsMean(a.failAvg, FailPercents(runs))
            && IsMean(a.errorAvg, ErrorPercents(runs))
            && (n == 0 ==> a.successAvg == 0.0 && a.failAvg == 0.0 && a.errorAvg == 0.0 && a.trend == Stable)
  {
    var runs := history[|history| - Taken(|history|, window)..];
    assert LastOf(history, window) == runs;
    if runs != [] {
      AveragesAreMeans(runs);
    }
  }

  /** There are entries, and they sum to less than the limit for each. */
  predicate SumsBelow(xs: seq<real>, limit: real) {
    xs != [] && Total(xs) < limit * |xs| as real
  }

  lemma {:induction false} MeanBelow(mean: real, xs: seq<real>, limit: real)
    requires xs != [] && IsMean(mean, xs)
    ensures mean < limit <==> SumsBelow(xs, limit)
  {
    var n, d := |xs| as real, limit - mean;
    assert d * n == limit * n - mean * n;
    if d > 0.0 {
      assert d * n > 0.0;
    } else {
      assert d * n <= 0.0;
    }
  }

  /** Health is below a limit exactly when the window's success percentages sum to less than it for each row. */
  lemma {:induction false} HealthBelow(wfType: string, history: seq<RunHealth>, window: int, limit: real)
    ensures var a := Aggregate(wfType, history, window);
            a.runsConsidered > 0 && a.successAvg < limit
            <==> SumsBelow(SuccessPercents(history[|history| - Taken(|history|, window)..]), limit)
  {
    var percents := SuccessPercents(history[|history| - Taken(|history|, window)..]);
    AveragesAre(wfType, history, window);
    if percents != [] {
      MeanBelow(Aggregate(wfType, history, window).successAvg, percents, limit);
    }
  }

  /** All clients that are not banned have this outcome, or none. */
  lemma {:induction false} FullOrEmpty(h: RunHealth, count: int)
    requires h.total > h.banned && (count == h.total - h.banned || count == 0)
    ensures h.Percentage(count) == if count == 0 then 0.0 else 100.0
  {
    var n := (h.total - h.banned) as real;
    assert 100.0 * n / n == 100.0;
  }

  lemma {:induction false} AverageOfSame(runs: seq<RunHealth>, m: Metric, x: real)
    requires runs != [] && forall h | h in runs :: m(h) == x
    ensures Average(runs, m) == x
  {
    AverageBetween(runs, m, x, x);
  }

  /** When every client that is not banned succeeded in every row of the window, success is 100 and the others 0. */
  lemma {:induction false} AllSucceeded(wfType: string, history: seq<RunHealth>, window: int)
    requires history != []
    requires forall h | h in LastOf(history, window) ::
               h.total > h.banned && h.success == h.total - h.banned && h.fail == 0 && h.error == 0
    ensures var a := Aggregate(wfType, history, window);
            a.successAvg == 100.0 && a.failAvg == 0.0 && a.errorAvg == 0.0
  {
    var runs := LastOf(history, window);
    forall h | h in runs
      ensures SUCCESS(h) == 100.0 && FAIL(h) == 0.0 && ERROR(h) == 0.0
    {
      FullOrEmpty(h, h.success);
      FullOrEmpty(h, h.fail);
      FullOrEmpty(h, h.error);
    }
    AverageOfSame(runs, SUCCESS, 100.0);
    AverageOfSame(runs, FAIL, 0.0);
    AverageOfSame(runs, ERROR, 0.0);
  }

  lemma {:induction false} AllFailed(wfType: string, history: seq<RunHealth>, window: int)
    requires history != []
    requires forall h | h in LastOf(history, window) ::
               h.total > h.banned && h.fail == h.total - h.banned && h.success == 0 && h.error == 0
    ensures var a := Aggregate(wfType, history, window);
            a.successAvg == 0.0 && a.failAvg == 100.0 && a.errorAvg == 0.0
  {
    var runs := LastOf(history, window);
    forall h | h in runs
      ensures SUCCESS(h) == 0.0 && FAIL(h) == 100.0 && ERROR(h) == 0.0
    {
      FullOrEmpty(h, h.success);
      FullOrEmpty(h, h.fail);
      FullOrEmpty(h, h.error);
    }
    AverageOfSame(runs, SUCCESS, 0.0);
    AverageOfSame(runs, FAIL, 100.0);
    AverageOfSame(runs, ERROR, 0.0);
  }

  lemma {:induction false} AllErrored(wfType: string, history: seq<RunHealth>, window: int)
    requires history != []
    requires forall h | h in LastOf(history, window) ::
               h.total > h.banned && h.error == h.total - h.banned && h.success == 0 && h.fail == 0
    ensures var a := Aggregate(wfType, history, window);
            a.successAvg == 0.0 && a.failAvg == 0.0 && a.errorAvg == 100.0
  {
    var runs := LastOf(history, window);
    forall h | h in runs
      ensures SUCCESS(h) == 0.0 && FAIL(h) == 0.0 && ERROR(h) == 100.0
    {
      FullOrEmpty(h, h.success);
      FullOrEmpty(h, h.fail);
      FullOrEmpty(h, h.error);
    }
    AverageOfSame(runs, SUCCESS, 0.0);
    AverageOfSame(runs, FAIL, 0.0);
    AverageOfSame(runs, ERROR, 100.0);
  }

  lemma {:induction false} Scaled(d: real, n: real)
    requires n > 0.0
    ensures d > 1.0 <==> d * n > n
  {
    if d > 1.0 {
      assert (d - 1.0) * n > 0.0;
    } else {
      assert (1.0 - d) * n >= 0.0;
    }
  }

  /** One mean exceeds the other, of as many entries, by more than one. */
  lemma {:induction false} MeansApart(x: real, xs: seq<real>, y: real, ys: seq<real>)
    requires xs != [] && |xs| == |ys| && IsMean(x, xs) && IsMean(y, ys)
    ensures x - y > 1.0 <==> Total(xs) - Total(ys) > |xs| as real
  {
    var n, d := |xs| as real, x - y;
    Scaled(d, n);
    assert d * n == x * n - y * n;
    assert d * n == Total(xs) - Total(ys);
  }

  /**
   * Improving if and only if the newer half's success percentages sum to more than one point per
   * row above the older half's, degrading if and only if they sum to as much below; the middle one
   * of an odd number of rows counts for neither.
   */
  predicate TrendFits(trend: Trend, runs: seq<RunHealth>) {
    var half := |runs| / 2;
    var older, newer := Total(SuccessPercents(runs[..half])), Total(SuccessPercents(runs[|runs| - half..]));
    && (trend == Improving <==> |runs| >= 2 && newer - older > half as real)
    && (trend == Degrading <==> |runs| >= 2 && older - newer > half as real)
  }

  lemma {:induction false} TrendOfHalves(runs: seq<RunHealth>)
    ensures TrendFits(TrendOf(runs), runs)
  {
    var half := |runs| / 2;
    if half > 0 {
      var older, newer := runs[..half], runs[|runs| - half..];
      AveragesAreMeans(older);
      AveragesAreMeans(newer);
      var x, y := Average(newer, SUCCESS), Average(older, SUCCESS);
      MeansApart(x, SuccessPercents(newer), y, SuccessPercents(older));
      MeansApart(y, SuccessPercents(older), x, SuccessPercents(newer));
    }
  }

  /** The trend, from the counts of the last window. */
  lemma {:induction false} TrendIs(wfType: string, history: seq<RunHealth>, window: int)
    ensures TrendFits(Aggregate(wfType, history, window).trend, history[|history| - Taken(|history|, window)..])
  {
    var runs := history[|history| - Taken(|history|, window)..];
    assert LastOf(history, window) == runs;
    TrendOfHalves(runs);
  }

  /** A window whose newer half succeeds throughout, after an older half that fails throughout, is improving. */
  lemma {:induction false} RecoveryImproves(runs: seq<RunHealth>)
    requires |runs| >= 2
    requires forall i | 0 <= i < |runs| / 2 :: runs[i].SuccessPercentage() == 0.0
    requires forall i | |runs| - |runs| / 2 <= i < |runs| :: runs[i].SuccessPercentage() == 100.0
    ensures TrendOf(runs) == Improving && TrendOf(Reversed(runs)) == Degrading
  {
    var half := |runs| / 2;
    AverageOfSame(runs[..half], SUCCESS, 0.0);
    AverageOfSame(runs[|runs| - half..], SUCCESS, 100.0);
    ReversedTrend(runs);
  }
}
