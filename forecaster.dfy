/**
 * The spending forecaster (`calculateForecast`): buckets expenses by local
 * day, then predicts a daily and a 30-day spend, a trend label and a
 * confidence score from the per-day totals.
 */
module Forecaster {
  import opened Wrappers
  import opened Calendar
  import opened Ledger

  datatype Trend = Increasing | Decreasing | Stable

  datatype Forecast = Forecast(dailyAverage: real, monthlyPrediction: real, trend: Trend, confidence: int)

  /** One day's data point: days since the first day, and that day's total. */
  datatype Point = Point(x: int, y: real)

  // ----- Data points and their sums -----

  /** The data points of the days `ds`, measured from day `start`. */
  function Points(ds: seq<int>, start: int, daily: map<int, real>): (pts: seq<Point>)
    requires forall i :: 0 <= i < |ds| ==> ds[i] in daily
    ensures |pts| == |ds|
    ensures forall i :: 0 <= i < |ds| ==> pts[i] == Point(ds[i] - start, daily[ds[i]])
  {
    if ds == [] then [] else [Point(ds[0] - start, daily[ds[0]])] + Points(ds[1..], start, daily)
  }

  function SumX(pts: seq<Point>): int {
    if pts == [] then 0 else pts[0].x + SumX(pts[1..])
  }

  function SumY(pts: seq<Point>): real {
    if pts == [] then 0.0 else pts[0].y + SumY(pts[1..])
  }

  function SumXX(pts: seq<Point>): int {
    if pts == [] then 0 else pts[0].x * pts[0].x + SumXX(pts[1..])
  }

  /** The least-squares denominator `n·Σx² − (Σx)²`, used by the source only as a guard. */
  function Denominator(pts: seq<Point>): int {
    |pts| * SumXX(pts) - SumX(pts) * SumX(pts)
  }

  /** Sum of squared distances of the points' `x` from `x0`. */
  function SqDev(pts: seq<Point>, x0: int): int {
    if pts == [] then 0 else (pts[0].x - x0) * (pts[0].x - x0) + SqDev(pts[1..], x0)
  }

  predicate IncreasingX(pts: seq<Point>) {
    forall i, j :: 0 <= i < j < |pts| ==> pts[i].x < pts[j].x
  }

  // ----- The pieces of the forecast -----

  /** Slope from the first to the last point only, ignoring the ones between. */
  function Slope(pts: seq<Point>): real
    requires |pts| >= 1
  {
    (pts[|pts| - 1].y - pts[0].y) / (Max(1, pts[|pts| - 1].x - pts[0].x) as real)
  }

  /**
   * The predicted daily spend: the historical average over the day span,
   * adjusted by 0.3 times the slope and floored at zero once there are at
   * least three days.
   */
  function PredictedDaily(total: real, pts: seq<Point>, daysBetween: int): (r: real)
    requires |pts| >= 1 && daysBetween >= 1
    ensures |pts| >= 3 ==> r >= 0.0
  {
    var avgDailyHistorical := total / (daysBetween as real);
    if |pts| >= 3 then MaxReal(0.0, avgDailyHistorical + Slope(pts) * 0.3)
    else avgDailyHistorical
  }

  /** Mean `y` of the first `floor(n/2)` points. */
  function FirstHalfMean(pts: seq<Point>): real
    requires |pts| >= 2
  {
    SumY(pts[..|pts| / 2]) / ((|pts| / 2) as real)
  }

  /** Mean `y` of the remaining `n − floor(n/2)` points. */
  function SecondHalfMean(pts: seq<Point>): real
    requires |pts| >= 1
  {
    SumY(pts[|pts| / 2..]) / ((|pts| - |pts| / 2) as real)
  }

  /** The trend label from the two half means; fewer than three points are always stable. */
  function TrendOf(pts: seq<Point>): (t: Trend)
    ensures |pts| < 3 ==> t == Stable
  {
    if |pts| < 3 then Stable
    else if SecondHalfMean(pts) > FirstHalfMean(pts) * 1.1 then Increasing
    else if SecondHalfMean(pts) < FirstHalfMean(pts) * 0.9 then Decreasing
    else Stable
  }

  /** The confidence score, rewarding more days and a longer span, capped at 85. */
  function Confidence(n: int, daysBetween: int): (c: int)
    ensures c <= 85
    ensures n >= 0 && daysBetween >= 0 ==> c >= 30
  {
    Min(85, 30 + n * 5 + daysBetween * 2)
  }

  // ----- The reference definition -----

  /** The distinct days with spending, in ascending order. */
  function Dates(es: seq<Expense>): seq<int> {
    SortAscending(FirstSeen(es, DayKey))
  }

  /** The distinct days are strictly increasing, and they are exactly the days with spending. */
  lemma DatesAreDays(es: seq<Expense>)
    ensures StrictlyIncreasing(Dates(es)) && Distinct(Dates(es))
    ensures forall i :: 0 <= i < |Dates(es)| ==> Dates(es)[i] in Keys(es, DayKey)
    ensures forall i :: 0 <= i < |es| ==> DayKey(es[i]) in Dates(es)
  {
    var ks := FirstSeen(es, DayKey);
    FirstSeenKeys(es, DayKey);
    SortDistinct(ks);
    var dates := Dates(es);
    forall i | 0 <= i < |dates| ensures dates[i] in Keys(es, DayKey) {
      assert dates[i] in ks;
      var j :| 0 <= j < |ks| && ks[j] == dates[i];
    }
  }

  /** The data points of a record list: one per distinct day, in day order. */
  function DataPoints(es: seq<Expense>): (pts: seq<Point>)
    requires |Dates(es)| >= 1
    ensures |pts| == |Dates(es)|
  {
    DatesAreDays(es);
    var dates := Dates(es);
    Points(dates, dates[0], Buckets(es, DayKey))
  }

  /** The inclusive span in days from the first to the last day with spending, at least 1. */
  function DaysBetween(es: seq<Expense>): int
    requires |Dates(es)| >= 1
  {
    var dates := Dates(es);
    Max(1, (Midnight(dates[|dates| - 1]) - Midnight(dates[0])) / MsPerDay + 1)
  }

  /** A forecast that repeats one daily average, labelled stable. */
  function Flat(avgDaily: real, confidence: int): (f: Forecast)
    ensures f.monthlyPrediction == 30.0 * f.dailyAverage && f.trend == Stable
  {
    Forecast(avgDaily, avgDaily * 30.0, Stable, confidence)
  }

  /** The forecast from the data points of two or more days, the day span and the total spend. */
  function FromPoints(total: real, pts: seq<Point>, daysBetween: int): Forecast
    requires |pts| >= 1 && daysBetween >= 1
  {
    var n := |pts|;
    if AbsReal(Denominator(pts) as real) < 0.0001 then Flat(SumY(pts) / (n as real), 40)
    else
      var predictedDaily := PredictedDaily(total, pts, daysBetween);
      Forecast(predictedDaily, predictedDaily * 30.0, TrendOf(pts), Confidence(n, daysBetween))
  }

  /** What `calculateForecast` returns, as a function of the records alone. */
  function ForecastOf(es: seq<Expense>): (r: Option<Forecast>)
    ensures r.None? <==> es == []
  {
    if es == [] then None
    else if |Dates(es)| < 2 then Some(Flat(Total(es) / (|es| as real), 30))
    else Some(FromPoints(Total(es), DataPoints(es), DaysBetween(es)))
  }

  // ----- The forecaster as the source runs it -----

  /**
   * The `forEach` that fills `dailyTotals`: one pass over the records that
   * adds each amount to its day's total, starting new days at 0, and keeps
   * the days in the order the object first received them.
   */
  method BucketByDay(es: seq<Expense>) returns (dailyTotals: map<int, real>, keys: seq<int>)
    ensures dailyTotals == Buckets(es, DayKey)
    ensures keys == FirstSeen(es, DayKey)
  {
    dailyTotals, keys := map[], [];
    for i := 0 to |es|
      invariant dailyTotals == Buckets(es[..i], DayKey)
      invariant keys == FirstSeen(es[..i], DayKey)
    {
      var e := es[i];
      var date := DayKey(e);
      assert es[..i + 1] == es[..i] + [e];
      BucketsSnoc(es[..i], DayKey, e);
      FirstSeenSnoc(es[..i], DayKey, e);
      FirstSeenMembership(es[..i], DayKey, date);
      if date !in dailyTotals {
        keys := keys + [date];
      }
      dailyTotals := dailyTotals[date := (if date in dailyTotals then dailyTotals[date] else 0.0) + e.amount];
    }
    assert es[..|es|] == es;
  }

  /**
   * `calculateForecast`: the daily totals are built by one pass over the
   * records, keeping the object's key order; the keys are then sorted and
   * turned into data points, which `FitPoints` turns into the forecast.
   */
  method CalculateForecast(expensesData: seq<Expense>) returns (r: Option<Forecast>)
    ensures r == ForecastOf(expensesData)
  {
    if |expensesData| == 0 {
      return None;
    }
    var dailyTotals, keys := BucketByDay(expensesData);
    var dates := SortAscending(keys);
    assert dates == Dates(expensesData);
    DatesAreDays(expensesData);

    if |dates| < 2 {
      var totalSpent := Total(expensesData);
      return Some(Flat(totalSpent / (|expensesData| as real), 30));
    }

    var startDate := Midnight(dates[0]);
    var endDate := Midnight(dates[|dates| - 1]);
    MidnightSpan(dates[0], dates[|dates| - 1]);
    var daysBetween := Max(1, (endDate - startDate) / MsPerDay + 1);
    assert daysBetween == DaysBetween(expensesData) == dates[|dates| - 1] - dates[0] + 1;
    var dataPoints := Points(dates, dates[0], dailyTotals);
    FirstSeenKeys(expensesData, DayKey);
    ValuesSumIsTotal(keys, expensesData, DayKey);
    var totalHistoricalSpending := ValuesSum(keys, dailyTotals);
    var f := FitPoints(totalHistoricalSpending, dataPoints, daysBetween);
    assert dataPoints == DataPoints(expensesData);
    return Some(f);
  }

  /**
   * The part of `calculateForecast` after the data points are built: the
   * least-squares sums and the denominator guard, the slope-adjusted
   * prediction, the half-mean trend and the confidence.
   */
  method FitPoints(totalHistoricalSpending: real, dataPoints: seq<Point>, daysBetween: int) returns (f: Forecast)
    requires |dataPoints| >= 1 && daysBetween >= 1
    ensures f == FromPoints(totalHistoricalSpending, dataPoints, daysBetween)
  {
    var n := |dataPoints|;
    var sumX := SumX(dataPoints);
    var sumY := SumY(dataPoints);
    var sumXX := SumXX(dataPoints);
    var denominator := n * sumXX - sumX * sumX;
    assert denominator == Denominator(dataPoints);

    if AbsReal(denominator as real) < 0.0001 {
      return Flat(sumY / (n as real), 40);
    }

    var avgDailyHistorical := totalHistoricalSpending / (daysBetween as real);
    var predictedDaily := avgDailyHistorical;
    if n >= 3 {
      var recentSlope := (dataPoints[n - 1].y - dataPoints[0].y) / (Max(1, dataPoints[n - 1].x - dataPoints[0].x) as real);
      var trendAdjustment := recentSlope * 0.3;
      predictedDaily := MaxReal(0.0, avgDailyHistorical + trendAdjustment);
    }
    var monthlyPrediction := predictedDaily * 30.0;

    var trend := Stable;
    if n >= 3 {
      var half := n / 2;
      var firstHalfAvg := SumY(dataPoints[..half]) / (half as real);
      var secondHalfAvg := SumY(dataPoints[half..]) / ((n - half) as real);
      if secondHalfAvg > firstHalfAvg * 1.1 {
        trend := Increasing;
      } else if secondHalfAvg < firstHalfAvg * 0.9 {
        trend := Decreasing;
      }
    }

    return Forecast(predictedDaily, monthlyPrediction, trend, Min(85, 30 + n * 5 + daysBetween * 2));
  }

  // ----- Sums of the daily totals -----

  lemma {:induction false} SumYOfPoints(ds: seq<int>, start: int, es: seq<Expense>)
    requires forall i :: 0 <= i < |ds| ==> ds[i] in Keys(es, DayKey)
    ensures SumY(Points(ds, start, Buckets(es, DayKey))) == KeyedSum(ds, es, DayKey)
  {
    if ds != [] {
      assert forall i :: 0 <= i < |ds[1..]| ==> ds[1..][i] == ds[i + 1];
      SumYOfPoints(ds[1..], start, es);
      assert Points(ds, start, Buckets(es, DayKey))[1..] == Points(ds[1..], start, Buckets(es, DayKey));
    }
  }

  /** The daily totals of the data points add up to the sum of all amounts. */
  lemma DailyTotalsSumToTotal(es: seq<Expense>)
    requires |Dates(es)| >= 1
    ensures SumY(DataPoints(es)) == Total(es)
  {
    var dates := Dates(es);
    DatesAreDays(es);
    assert Distinct(dates);
    SumYOfPoints(dates, dates[0], es);
    KeyedSumIsTotal(dates, es, DayKey);
  }

  // ----- The guard on the denominator never fires -----

  lemma {:induction false} SqDevExpand(pts: seq<Point>, x0: int)
    ensures SqDev(pts, x0) == SumXX(pts) - 2 * x0 * SumX(pts) + |pts| * x0 * x0
  {
    if pts != [] {
      var p, rest := pts[0].x, pts[1..];
      SqDevExpand(rest, x0);
      var q, s, m := SumXX(rest), SumX(rest), |rest|;
      assert SqDev(pts, x0) == (p - x0) * (p - x0) + (q - 2 * x0 * s + m * x0 * x0);
      assert SumXX(pts) == p * p + q && SumX(pts) == p + s && |pts| == m + 1;
      SqDevStep(p, x0, q, s, m);
    }
  }

  /** The algebra behind one step of `SqDevExpand`. */
  lemma SqDevStep(p: int, x0: int, q: int, s: int, m: int)
    ensures (p - x0) * (p - x0) + (q - 2 * x0 * s + m * x0 * x0) == (p * p + q) - 2 * x0 * (p + s) + (m + 1) * x0 * x0
  {
    calc {
      (p - x0) * (p - x0) + (q - 2 * x0 * s + m * x0 * x0);
      p * p - 2 * x0 * p + x0 * x0 + q - 2 * x0 * s + m * x0 * x0;
      (p * p + q) - 2 * x0 * (p + s) + (m + 1) * x0 * x0;
    }
  }

  lemma {:induction false} SqDevAtLeastCount(pts: seq<Point>, x0: int)
    requires forall i :: 0 <= i < |pts| ==> pts[i].x != x0
    ensures SqDev(pts, x0) >= |pts|
  {
    if pts != [] {
      SquareAtLeastOne(pts[0].x - x0);
      SqDevAtLeastCount(pts[1..], x0);
    }
  }

  /** A non-zero integer has a square of at least 1. */
  lemma SquareAtLeastOne(d: int)
    requires d != 0
    ensures d * d >= 1
  {
    if d > 0 {
      assert d * d >= d;
    } else {
      assert (-d) * (-d) >= -d;
    }
  }

  /**
   * For strictly increasing integer offsets the denominator is at least n − 1:
   * adding a point grows `n·Σx² − (Σx)²` by the squared distances from it to
   * the other points.
   */
  lemma {:induction false} DenominatorAtLeast(pts: seq<Point>)
    requires IncreasingX(pts)
    ensures Denominator(pts) >= |pts| - 1
  {
    if |pts| == 1 {
      assert SumX(pts) == pts[0].x && SumXX(pts) == pts[0].x * pts[0].x;
    } else if |pts| > 1 {
      var p, rest := pts[0].x, pts[1..];
      assert IncreasingX(rest) by {
        forall i, j | 0 <= i < j < |rest| ensures rest[i].x < rest[j].x {
          assert rest[i] == pts[i + 1] && rest[j] == pts[j + 1];
        }
      }
      DenominatorAtLeast(rest);
      assert forall i :: 0 <= i < |rest| ==> rest[i].x != p by {
        forall i | 0 <= i < |rest| ensures rest[i].x != p {
          assert rest[i] == pts[i + 1];
        }
      }
      SqDevAtLeastCount(rest, p);
      SqDevExpand(rest, p);
      var q, s, m := SumXX(rest), SumX(rest), |rest|;
      assert SumXX(pts) == p * p + q && SumX(pts) == p + s && |pts| == m + 1;
      DenominatorStep(p, q, s, m);
    }
  }

  /** The algebra behind one step of `DenominatorAtLeast`. */
  lemma DenominatorStep(p: int, q: int, s: int, m: int)
    ensures (m + 1) * (p * p + q) - (p + s) * (p + s) == (m * q - s * s) + (q - 2 * p * s + m * p * p)
  {
    calc {
      (m + 1) * (p * p + q) - (p + s) * (p + s);
      m * p * p + m * q + p * p + q - p * p - 2 * p * s - s * s;
      (m * q - s * s) + (q - 2 * p * s + m * p * p);
    }
  }

  /** With two or more distinct days the guard `|denominator| < 0.0001` is false. */
  lemma GuardNeverFires(es: seq<Expense>)
    requires |Dates(es)| >= 2
    ensures Denominator(DataPoints(es)) >= 1
    ensures !(AbsReal(Denominator(DataPoints(es)) as real) < 0.0001)
  {
    var dates := Dates(es);
    DatesAreDays(es);
    var pts := DataPoints(es);
    assert IncreasingX(pts) by {
      forall i, j | 0 <= i < j < |pts| ensures pts[i].x < pts[j].x {
        assert pts[i].x == dates[i] - dates[0] && pts[j].x == dates[j] - dates[0];
      }
    }
    DenominatorAtLeast(pts);
  }

  // ----- What the forecast is -----

  /** The day span is the inclusive distance from the first to the last day, and is at least the number of days. */
  lemma DaysBetweenSpan(es: seq<Expense>)
    requires |Dates(es)| >= 1
    ensures var dates := Dates(es);
      DaysBetween(es) == dates[|dates| - 1] - dates[0] + 1 && DaysBetween(es) >= |dates|
  {
    var dates := Dates(es);
    DatesAreDays(es);
    IncreasingSpan(dates);
    MidnightSpan(dates[0], dates[|dates| - 1]);
  }

  /** Fewer than two distinct days: the total is divided by the number of RECORDS, confidence 30. */
  lemma ForecastFewDays(es: seq<Expense>)
    requires es != [] && |Dates(es)| < 2
    ensures ForecastOf(es) == Some(Forecast(Total(es) / (|es| as real), Total(es) / (|es| as real) * 30.0, Stable, 30))
  {
  }

  /** A single record of amount A forecasts A a day, 30·A a month, stable, confidence 30. */
  lemma ForecastOneRecord(e: Expense)
    ensures ForecastOf([e]) == Some(Forecast(e.amount, e.amount * 30.0, Stable, 30))
  {
    var es := [e];
    assert es[..0] == [];
    assert FirstSeen(es, DayKey) == [DayKey(e)];
    assert |Dates(es)| == 1;
    assert Total(es) == e.amount;
  }

  /**
   * With two or more distinct days the guard branch is never taken: the
   * forecast is the adjusted historical average, the half-mean trend and
   * the capped confidence, and the confidence is at least 30 + 7n.
   */
  lemma ForecastManyDays(es: seq<Expense>)
    requires |Dates(es)| >= 2
    ensures var pts := DataPoints(es);
      var db := DaysBetween(es);
      var p := PredictedDaily(Total(es), pts, db);
      ForecastOf(es) == Some(Forecast(p, p * 30.0, TrendOf(pts), Confidence(|pts|, db)))
    ensures ForecastOf(es).value.confidence >= Min(85, 30 + 7 * |Dates(es)|)
  {
    var pts, db := DataPoints(es), DaysBetween(es);
    GuardNeverFires(es);
    assert ForecastOf(es) == Some(FromPoints(Total(es), pts, db));
    DaysBetweenSpan(es);
    assert db >= |pts| == |Dates(es)|;
  }

  /** Exactly two days: the daily average is the total over the inclusive span, the trend is stable. */
  lemma ForecastTwoDays(es: seq<Expense>)
    requires |Dates(es)| == 2
    ensures var f := ForecastOf(es).value;
      f.dailyAverage == Total(es) / (DaysBetween(es) as real) && f.trend == Stable
      && f.confidence == Min(85, 40 + 2 * DaysBetween(es))
  {
    var pts, db := DataPoints(es), DaysBetween(es);
    ForecastManyDays(es);
    var f := ForecastOf(es).value;
    assert f.dailyAverage == PredictedDaily(Total(es), pts, db) && f.trend == TrendOf(pts);
  }

  /** Three or more days: the slope adjustment is floored, so the daily average is never negative, whatever the amounts. */
  lemma ThreeDaysNeverNegative(es: seq<Expense>)
    requires |Dates(es)| >= 3
    ensures ForecastOf(es).value.dailyAverage >= 0.0
  {
    var pts, db, total := DataPoints(es), DaysBetween(es), Total(es);
    assert ForecastOf(es).value.dailyAverage == PredictedDaily(total, pts, db) by {
      ForecastManyDays(es);
    }
  }

  /**
   * Two records of 10 and 20 on consecutive days: 15 a day over the
   * two-day span, 450 a month, stable, confidence 30 + 10 + 4 = 44.
   */
  lemma TwoDayExample(d: int)
    ensures var es := [Expense(10.0, Food, "", Midnight(d)), Expense(20.0, Food, "", Midnight(d + 1))];
      ForecastOf(es) == Some(Forecast(15.0, 450.0, Stable, 44))
  {
    var es := [Expense(10.0, Food, "", Midnight(d)), Expense(20.0, Food, "", Midnight(d + 1))];
    MidnightRoundTrip(d);
    MidnightRoundTrip(d + 1);
    assert es[..1] == [es[0]];
    assert FirstSeen(es[..1], DayKey) == [d];
    assert FirstSeen(es, DayKey) == [d, d + 1];
    assert SortAscending([d + 1]) == [d + 1];
    assert Dates(es) == [d, d + 1];
    MidnightSpan(d, d + 1);
    assert DaysBetween(es) == 2;
    TotalSnoc([], es[0]);
    TotalSnoc([es[0]], es[1]);
    assert es == [es[0]] + [es[1]];
    assert Total(es) == 30.0;
    ForecastTwoDays(es);
    ForecastManyDays(es);
  }

  /** In every branch the monthly prediction is thirty times the daily average. */
  lemma MonthlyIsThirtyDays(es: seq<Expense>)
    requires es != []
    ensures ForecastOf(es).value.monthlyPrediction == 30.0 * ForecastOf(es).value.dailyAverage
  {
  }

  /** The confidence is 30 (one day) or between 44 and 85: the confidence-40 branch is unreachable. */
  lemma ConfidenceRange(es: seq<Expense>)
    requires es != []
    ensures var c := ForecastOf(es).value.confidence;
      c == 30 || 44 <= c <= 85
  {
    if |Dates(es)| >= 2 {
      ForecastManyDays(es);
      DaysBetweenSpan(es);
    }
  }

  /** With no negative amounts the predicted daily spend is never negative. */
  lemma DailyAverageNonNegative(es: seq<Expense>)
    requires es != [] && NonNegativeAmounts(es)
    ensures ForecastOf(es).value.dailyAverage >= 0.0
  {
    TotalNonNegative(es);
    if |Dates(es)| >= 2 {
      var total, pts, db := Total(es), DataPoints(es), DaysBetween(es);
      ForecastManyDays(es);
      assert ForecastOf(es).value.dailyAverage == PredictedDaily(total, pts, db);
      PredictedDailyNonNegative(total, pts, db);
    }
  }

  lemma PredictedDailyNonNegative(total: real, pts: seq<Point>, daysBetween: int)
    requires |pts| >= 1 && daysBetween >= 1 && total >= 0.0
    ensures PredictedDaily(total, pts, daysBetween) >= 0.0
  {
  }

  /** A larger count of days or a longer span never lowers the confidence. */
  lemma ConfidenceMonotone(n: int, d: int, n': int, d': int)
    requires n <= n' && d <= d'
    ensures Confidence(n, d) <= Confidence(n', d')
  {
  }

  // ----- What the trend label means -----

  lemma {:induction false} SumYAtMost(pts: seq<Point>, c: real)
    requires forall i :: 0 <= i < |pts| ==> pts[i].y <= c
    ensures SumY(pts) <= (|pts| as real) * c
  {
    if pts != [] {
      SumYAtMost(pts[1..], c);
    }
  }

  lemma {:induction false} SumYAtLeast(pts: seq<Point>, c: real)
    requires forall i :: 0 <= i < |pts| ==> pts[i].y >= c
    ensures SumY(pts) >= (|pts| as real) * c
  {
    if pts != [] {
      SumYAtLeast(pts[1..], c);
    }
  }

  lemma {:induction false} SumYAbove(pts: seq<Point>, c: real)
    requires |pts| >= 1 && forall i :: 0 <= i < |pts| ==> pts[i].y > c
    ensures SumY(pts) > (|pts| as real) * c
  {
    if |pts| > 1 {
      SumYAbove(pts[1..], c);
    }
  }

  lemma {:induction false} SumYBelow(pts: seq<Point>, c: real)
    requires |pts| >= 1 && forall i :: 0 <= i < |pts| ==> pts[i].y < c
    ensures SumY(pts) < (|pts| as real) * c
  {
    if |pts| > 1 {
      SumYBelow(pts[1..], c);
    }
  }

  lemma MeanAtMost(pts: seq<Point>, c: real)
    requires |pts| >= 1 && forall i :: 0 <= i < |pts| ==> pts[i].y <= c
    ensures SumY(pts) / (|pts| as real) <= c
  {
    SumYAtMost(pts, c);
    var k := |pts| as real;
    assert SumY(pts) == (SumY(pts) / k) * k;
  }

  lemma MeanAtLeast(pts: seq<Point>, c: real)
    requires |pts| >= 1 && forall i :: 0 <= i < |pts| ==> pts[i].y >= c
    ensures SumY(pts) / (|pts| as real) >= c
  {
    SumYAtLeast(pts, c);
    var k := |pts| as real;
    assert SumY(pts) == (SumY(pts) / k) * k;
  }

  lemma MeanAbove(pts: seq<Point>, c: real)
    requires |pts| >= 1 && forall i :: 0 <= i < |pts| ==> pts[i].y > c
    ensures SumY(pts) / (|pts| as real) > c
  {
    SumYAbove(pts, c);
    var k := |pts| as real;
    assert SumY(pts) == (SumY(pts) / k) * k;
  }

  lemma MeanBelow(pts: seq<Point>, c: real)
    requires |pts| >= 1 && forall i :: 0 <= i < |pts| ==> pts[i].y < c
    ensures SumY(pts) / (|pts| as real) < c
  {
    SumYBelow(pts, c);
    var k := |pts| as real;
    assert SumY(pts) == (SumY(pts) / k) * k;
  }

  /** The first-half and second-half means are means of the two halves of the points. */
  lemma HalfElements(pts: seq<Point>)
    requires |pts| >= 2
    ensures var h := |pts| / 2;
      |pts[..h]| >= 1 && |pts[h..]| >= 1
      && FirstHalfMean(pts) == SumY(pts[..h]) / (|pts[..h]| as real)
      && SecondHalfMean(pts) == SumY(pts[h..]) / (|pts[h..]| as real)
      && (forall i :: 0 <= i < h ==> pts[..h][i] == pts[i])
      && (forall j :: 0 <= j < |pts| - h ==> pts[h..][j] == pts[h + j])
  {
  }

  /** Every first-half day at most c and every second-half day above 1.1·c: the trend is increasing. */
  lemma TrendRising(pts: seq<Point>, c: real)
    requires |pts| >= 3
    requires forall i :: 0 <= i < |pts| / 2 ==> pts[i].y <= c
    requires forall j :: |pts| / 2 <= j < |pts| ==> pts[j].y > 1.1 * c
    ensures TrendOf(pts) == Increasing
  {
    var h := |pts| / 2;
    HalfElements(pts);
    MeanAtMost(pts[..h], c);
    MeanAbove(pts[h..], 1.1 * c);
    var fm, sm := FirstHalfMean(pts), SecondHalfMean(pts);
    assert fm <= c && sm > 1.1 * c;
    assert sm > fm * 1.1;
  }

  /** Every first-half day at least c ≥ 0 and every second-half day below 0.9·c: the trend is decreasing. */
  lemma TrendFalling(pts: seq<Point>, c: real)
    requires |pts| >= 3 && c >= 0.0
    requires forall i :: 0 <= i < |pts| / 2 ==> pts[i].y >= c
    requires forall j :: |pts| / 2 <= j < |pts| ==> pts[j].y < 0.9 * c
    ensures TrendOf(pts) == Decreasing
  {
    var h := |pts| / 2;
    HalfElements(pts);
    MeanAtLeast(pts[..h], c);
    MeanBelow(pts[h..], 0.9 * c);
    var fm, sm := FirstHalfMean(pts), SecondHalfMean(pts);
    assert fm >= c && sm < 0.9 * c;
    assert !(sm > fm * 1.1) && sm < fm * 0.9;
  }

  /** Spending the same non-negative amount every day is a stable trend. */
  lemma TrendFlat(pts: seq<Point>, c: real)
    requires c >= 0.0
    requires forall i :: 0 <= i < |pts| ==> pts[i].y == c
    ensures TrendOf(pts) == Stable
  {
    if |pts| >= 3 {
      var h := |pts| / 2;
      HalfElements(pts);
      MeanAtMost(pts[..h], c);
      MeanAtLeast(pts[..h], c);
      MeanAtMost(pts[h..], c);
      MeanAtLeast(pts[h..], c);
      var fm, sm := FirstHalfMean(pts), SecondHalfMean(pts);
      assert fm == c && sm == c;
    }
  }

  /**
   * With no negative daily totals the labels point the right way: an
   * increasing trend has a strictly higher second-half mean, a decreasing
   * one a strictly lower one, and the two labels need at least three days.
   */
  lemma TrendDirection(pts: seq<Point>)
    requires forall i :: 0 <= i < |pts| ==> pts[i].y >= 0.0
    ensures TrendOf(pts) == Increasing ==> |pts| >= 3 && SecondHalfMean(pts) > FirstHalfMean(pts)
    ensures TrendOf(pts) == Decreasing ==> |pts| >= 3 && SecondHalfMean(pts) < FirstHalfMean(pts)
  {
    if |pts| >= 3 {
      var h := |pts| / 2;
      HalfElements(pts);
      MeanAtLeast(pts[..h], 0.0);
      assert FirstHalfMean(pts) >= 0.0;
    }
  }

  /** Five consecutive days of 10, 10, 10, 30, 30: the half means are 10 and 70/3, so the trend is increasing. */
  lemma FiveDayExample()
    ensures var pts := [Point(0, 10.0), Point(1, 10.0), Point(2, 10.0), Point(3, 30.0), Point(4, 30.0)];
      FirstHalfMean(pts) == 10.0 && SecondHalfMean(pts) == 70.0 / 3.0 && TrendOf(pts) == Increasing
  {
    var pts := [Point(0, 10.0), Point(1, 10.0), Point(2, 10.0), Point(3, 30.0), Point(4, 30.0)];
    var a, b := pts[..2], pts[2..];
    assert a == [Point(0, 10.0), Point(1, 10.0)];
    assert b == [Point(2, 10.0), Point(3, 30.0), Point(4, 30.0)];
    assert a[1..] == [Point(1, 10.0)] && a[1..][1..] == [];
    assert b[1..] == [Point(3, 30.0), Point(4, 30.0)] && b[1..][1..] == [Point(4, 30.0)] && b[1..][1..][1..] == [];
    assert SumY(a[1..]) == 10.0;
    assert SumY(a) == 20.0;
    assert SumY(b[1..][1..]) == 30.0;
    assert SumY(b[1..]) == 60.0;
    assert SumY(b) == 70.0;
  }
}
