/**
 * The dashboard metrics (`calculateMetrics`): the grand total, the total of
 * the current calendar month, the total since one week ago and the total per
 * category. The clock reading `new Date()` is the parameter `now`.
 */
module Aggregator {
  import opened Calendar
  import opened Ledger

  datatype Metrics = Metrics(total: real, thisMonth: real, lastWeek: real, categoryTotals: map<Category, real>)

  /**
   * Whether two instants fall in the same local calendar month of the same
   * year (`getMonth() === now.getMonth() && getFullYear() === now.getFullYear()`).
   */
  predicate SameMonth(s: int, t: int) {
    CivilMonth(DayOf(s)).month == CivilMonth(DayOf(t)).month
    && CivilMonth(DayOf(s)).year == CivilMonth(DayOf(t)).year
  }

  /** Sum of the amounts of the expenses dated in the same month as `now`. */
  function ThisMonthTotal(es: seq<Expense>, now: int): real {
    if es == [] then 0.0
    else ThisMonthTotal(es[..|es| - 1], now) + (if SameMonth(es[|es| - 1].date, now) then es[|es| - 1].amount else 0.0)
  }

  /**
   * The instant seven days before `now`, at the same wall-clock time
   * (`weekAgo.setDate(weekAgo.getDate() - 7)`).
   */
  function WeekAgo(now: int): (w: int)
    ensures DayOf(w) == DayOf(now) - 7 && w - Midnight(DayOf(w)) == now - Midnight(DayOf(now))
  {
    now - 7 * MsPerDay
  }

  /** What `calculateMetrics` returns for the records `es` at the instant `now`. */
  function MetricsOf(es: seq<Expense>, now: int): Metrics {
    Metrics(Total(es), ThisMonthTotal(es, now), SumSince(es, WeekAgo(now)), Buckets(es, CategoryKey))
  }

  /**
   * `calculateMetrics`: the three sums are `filter`/`reduce` pipelines; the
   * category totals are filled in place by a `forEach`.
   */
  method CalculateMetrics(expenses: seq<Expense>, now: int) returns (m: Metrics)
    ensures m == MetricsOf(expenses, now)
  {
    var total := Total(expenses);
    var thisMonth := ThisMonthTotal(expenses, now);
    var lastWeek := SumSince(expenses, WeekAgo(now));

    var categoryTotals: map<Category, real> := map[];
    for i := 0 to |expenses|
      invariant categoryTotals == Buckets(expenses[..i], CategoryKey)
    {
      var e := expenses[i];
      assert expenses[..i + 1] == expenses[..i] + [e];
      BucketsSnoc(expenses[..i], CategoryKey, e);
      categoryTotals := categoryTotals[e.category := (if e.category in categoryTotals then categoryTotals[e.category] else 0.0) + e.amount];
    }
    assert expenses[..|expenses|] == expenses;
    return Metrics(total, thisMonth, lastWeek, categoryTotals);
  }

  // ----- Properties -----

  /** No records: every figure is zero and there are no categories. */
  lemma MetricsEmpty(now: int)
    ensures MetricsOf([], now) == Metrics(0.0, 0.0, 0.0, map[])
  {
    assert Keys([], CategoryKey) == {};
  }

  /**
   * Appending one record adds its amount to the total, to this month's
   * total exactly when it is dated in the current month, to the last-week
   * total exactly when it is dated at or after one week ago (however far in
   * the future), and to its own category's total.
   */
  lemma {:induction false} MetricsSnoc(es: seq<Expense>, now: int, e: Expense)
    ensures var m, m' := MetricsOf(es, now), MetricsOf(es + [e], now);
      && m'.total == m.total + e.amount
      && m'.thisMonth == m.thisMonth + (if SameMonth(e.date, now) then e.amount else 0.0)
      && m'.lastWeek == m.lastWeek + (if e.date >= WeekAgo(now) then e.amount else 0.0)
      && m'.categoryTotals == m.categoryTotals[e.category :=
           (if e.category in m.categoryTotals then m.categoryTotals[e.category] else 0.0) + e.amount]
  {
    SnocPrefix(es, e);
    TotalSnoc(es, e);
    SumSinceSnoc(es, WeekAgo(now), e);
    BucketsSnoc(es, CategoryKey, e);
  }

  /** A record dated in the current month raises this month's total by exactly its amount. */
  lemma CurrentMonthRecord(es: seq<Expense>, now: int, e: Expense)
    requires SameMonth(e.date, now)
    ensures ThisMonthTotal(es + [e], now) == ThisMonthTotal(es, now) + e.amount
  {
    MetricsSnoc(es, now, e);
  }

  /** A record dated in any other month leaves this month's total unchanged. */
  lemma OtherMonthRecord(es: seq<Expense>, now: int, e: Expense)
    requires !SameMonth(e.date, now)
    ensures ThisMonthTotal(es + [e], now) == ThisMonthTotal(es, now)
  {
    MetricsSnoc(es, now, e);
  }

  /** The last-week window has no upper end: a record dated after `now` still counts. */
  lemma FutureRecordCountsAsLastWeek(es: seq<Expense>, now: int, e: Expense)
    requires e.date > now
    ensures SumSince(es + [e], WeekAgo(now)) == SumSince(es, WeekAgo(now)) + e.amount
  {
    MetricsSnoc(es, now, e);
  }

  /** A record dated before one week ago does not change the last-week total. */
  lemma OldRecordNotLastWeek(es: seq<Expense>, now: int, e: Expense)
    requires e.date < WeekAgo(now)
    ensures SumSince(es + [e], WeekAgo(now)) == SumSince(es, WeekAgo(now))
  {
    MetricsSnoc(es, now, e);
  }

  /**
   * The category totals, summed in the object's own key order
   * (`Object.values`), give the grand total.
   */
  lemma CategoryTotalsSumToTotal(es: seq<Expense>, now: int)
    ensures var m := MetricsOf(es, now);
      var ks := FirstSeen(es, CategoryKey);
      (forall i :: 0 <= i < |ks| ==> ks[i] in m.categoryTotals) && ValuesSum(ks, m.categoryTotals) == m.total
  {
    FirstSeenKeys(es, CategoryKey);
    ValuesSumIsTotal(FirstSeen(es, CategoryKey), es, CategoryKey);
  }

  /** Only the six categories can appear, so their totals also add up to the grand total. */
  lemma CategoryTotalsOverAllCategories(es: seq<Expense>)
    ensures KeyedSum(AllCategories, es, CategoryKey) == Total(es)
    ensures KeyedCount(AllCategories, es, CategoryKey) == |es|
  {
    assert Distinct(AllCategories);
    forall i | 0 <= i < |es| ensures CategoryKey(es[i]) in AllCategories {
      var c := es[i].category;
      assert c == AllCategories[0] || c == AllCategories[1] || c == AllCategories[2]
          || c == AllCategories[3] || c == AllCategories[4] || c == AllCategories[5];
    }
    KeyedSumIsTotal(AllCategories, es, CategoryKey);
  }

  /** With no negative amounts, this month's and the last week's totals are between 0 and the grand total. */
  lemma PartialTotalsBounded(es: seq<Expense>, now: int)
    requires NonNegativeAmounts(es)
    ensures var m := MetricsOf(es, now);
      0.0 <= m.thisMonth <= m.total && 0.0 <= m.lastWeek <= m.total
  {
    ThisMonthIsMonthBucket(es, now);
    KeyTotalAtMostTotal(es, MonthKey, MonthOfInstant(now));
    SumSinceAtMostTotal(es, WeekAgo(now));
  }

  /**
   * This month's total is the total of the current month's `YYYY-MM`
   * bucket: comparing year and month is comparing month indices.
   */
  lemma {:induction false} ThisMonthIsMonthBucket(es: seq<Expense>, now: int)
    ensures ThisMonthTotal(es, now) == KeyTotal(es, MonthKey, MonthOfInstant(now))
  {
    if es != [] {
      var init, e := es[..|es| - 1], es[|es| - 1];
      ThisMonthIsMonthBucket(init, now);
      SameMonthIndex(e.date, now);
    }
  }
}
