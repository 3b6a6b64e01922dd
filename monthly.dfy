/**
 * The monthly view of the analytics page: one total and one count per
 * `YYYY-MM` month, the months in ascending order, and the highest and the
 * mean monthly total.
 */
module Monthly {
  import opened Wrappers
  import opened Calendar
  import opened Ledger

  /** `{ total, count }` of one month. */
  datatype MonthStat = MonthStat(total: real, count: nat)

  /** Everything the analytics page derives from the records. */
  datatype MonthlyView = MonthlyView(
    monthlyData: map<int, MonthStat>, months: seq<int>, totals: seq<real>, max: real, avg: real)

  /** Per month present, the total and the number of its records. */
  function MonthlyData(es: seq<Expense>): (d: map<int, MonthStat>)
    ensures d.Keys == Keys(es, MonthKey)
  {
    map k | k in Keys(es, MonthKey) :: MonthStat(KeyTotal(es, MonthKey, k), KeyCount(es, MonthKey, k))
  }

  /** The months' totals in the order of `ms` (`months.map(m => monthlyData[m].total)`). */
  function TotalsOf(ms: seq<int>, d: map<int, MonthStat>): (ts: seq<real>)
    requires forall i :: 0 <= i < |ms| ==> ms[i] in d
    ensures |ts| == |ms| && forall i :: 0 <= i < |ms| ==> ts[i] == d[ms[i]].total
  {
    if ms == [] then [] else [d[ms[0]].total] + TotalsOf(ms[1..], d)
  }

  /** The months' record counts in the order of `ms`. */
  function CountsOf(ms: seq<int>, d: map<int, MonthStat>): (cs: seq<nat>)
    requires forall i :: 0 <= i < |ms| ==> ms[i] in d
    ensures |cs| == |ms| && forall i :: 0 <= i < |ms| ==> cs[i] == d[ms[i]].count
  {
    if ms == [] then [] else [d[ms[0]].count] + CountsOf(ms[1..], d)
  }

  function SumReals(s: seq<real>): real {
    if s == [] then 0.0 else s[0] + SumReals(s[1..])
  }

  function SumNats(s: seq<nat>): nat {
    if s == [] then 0 else s[0] + SumNats(s[1..])
  }

  /** `Math.max(...s)`: no element of `s` exceeds it (and it is one of them, `MaxOfIsElement`). */
  function MaxOf(s: seq<real>): (r: real)
    requires |s| >= 1
    ensures forall i :: 0 <= i < |s| ==> s[i] <= r
  {
    if |s| == 1 then s[0]
    else
      var m := MaxOf(s[1..]);
      assert forall i :: 1 <= i < |s| ==> s[i] == s[1..][i - 1];
      if s[0] >= m then s[0] else m
  }

  /** The maximum is attained: it is one of the elements. */
  lemma {:induction false} MaxOfIsElement(s: seq<real>)
    requires |s| >= 1
    ensures exists i :: 0 <= i < |s| && s[i] == MaxOf(s)
  {
    if |s| == 1 {
      assert s[0] == MaxOf(s);
    } else {
      MaxOfIsElement(s[1..]);
      var j :| 0 <= j < |s[1..]| && s[1..][j] == MaxOf(s[1..]);
      if s[0] >= MaxOf(s[1..]) {
        assert s[0] == MaxOf(s);
      } else {
        assert s[j + 1] == MaxOf(s);
      }
    }
  }

  /** The sorted month keys: `Object.keys(monthlyData).sort()`. */
  function Months(es: seq<Expense>): seq<int> {
    SortAscending(FirstSeen(es, MonthKey))
  }

  lemma MonthsAreMonths(es: seq<Expense>)
    ensures StrictlyIncreasing(Months(es)) && Distinct(Months(es))
    ensures forall i :: 0 <= i < |Months(es)| ==> Months(es)[i] in Keys(es, MonthKey)
    ensures forall i :: 0 <= i < |es| ==> MonthKey(es[i]) in Months(es)
  {
    var ks := FirstSeen(es, MonthKey);
    FirstSeenKeys(es, MonthKey);
    SortDistinct(ks);
    var ms := Months(es);
    forall i | 0 <= i < |ms| ensures ms[i] in Keys(es, MonthKey) {
      assert ms[i] in ks;
      var j :| 0 <= j < |ks| && ks[j] == ms[i];
    }
  }

  /** The record count of each month, in month order. */
  function MonthCounts(es: seq<Expense>): seq<nat> {
    MonthsAreMonths(es);
    CountsOf(Months(es), MonthlyData(es))
  }

  /** What the analytics page computes from the records. */
  function MonthlyOf(es: seq<Expense>): MonthlyView {
    MonthsAreMonths(es);
    var d := MonthlyData(es);
    var ms := Months(es);
    var ts := TotalsOf(ms, d);
    MonthlyView(d, ms, ts,
      if |ts| > 0 then MaxOf(ts) else 0.0,
      if |ts| > 0 then SumReals(ts) / (|ts| as real) else 0.0)
  }

  /** Appending a record adds its amount and one to its month's entry, creating the entry at zero if new. */
  lemma MonthlyDataSnoc(es: seq<Expense>, e: Expense)
    ensures var d := MonthlyData(es);
      var k := MonthKey(e);
      var s := if k in d then d[k] else MonthStat(0.0, 0);
      MonthlyData(es + [e]) == d[k := MonthStat(s.total + e.amount, s.count + 1)]
  {
    var d, k := MonthlyData(es), MonthKey(e);
    var s := if k in d then d[k] else MonthStat(0.0, 0);
    var u := d[k := MonthStat(s.total + e.amount, s.count + 1)];
    var d' := MonthlyData(es + [e]);
    KeyTotalSnoc(es, MonthKey, e, k);
    if k !in d {
      AbsentKey(es, MonthKey, k);
    }
    forall j | j in Keys(es + [e], MonthKey)
      ensures d'[j] == u[j]
    {
      KeyTotalSnoc(es, MonthKey, e, j);
    }
    assert d'.Keys == u.Keys;
  }

  /** The monthly map and its key order as they stand after the records `es`. */
  predicate MonthBucketed(es: seq<Expense>, d: map<int, MonthStat>, keys: seq<int>) {
    d == MonthlyData(es) && keys == FirstSeen(es, MonthKey)
  }

  /** One step of the `forEach`: how the map and its key order change when a record is appended. */
  lemma MonthStep(es: seq<Expense>, e: Expense, d: map<int, MonthStat>, keys: seq<int>)
    requires MonthBucketed(es, d, keys)
    ensures var k := MonthKey(e);
      var s := if k in d then d[k] else MonthStat(0.0, 0);
      MonthBucketed(es + [e], d[k := MonthStat(s.total + e.amount, s.count + 1)], if k in d then keys else keys + [k])
  {
    MonthlyDataSnoc(es, e);
    FirstSeenSnoc(es, MonthKey, e);
    FirstSeenMembership(es, MonthKey, MonthKey(e));
  }

  /**
   * The `forEach` of `Analytics`: fills `monthlyData` in place, creating a
   * month's `{ total: 0, count: 0 }` on first use, and keeps the months in
   * the order the object first received them.
   */
  method BucketByMonth(expenses: seq<Expense>) returns (monthlyData: map<int, MonthStat>, keys: seq<int>)
    ensures monthlyData == MonthlyData(expenses)
    ensures keys == FirstSeen(expenses, MonthKey)
  {
    monthlyData, keys := map[], [];
    for i := 0 to |expenses|
      invariant MonthBucketed(expenses[..i], monthlyData, keys)
    {
      var exp := expenses[i];
      var key := MonthKey(exp);
      assert expenses[..i + 1] == expenses[..i] + [exp];
      MonthStep(expenses[..i], exp, monthlyData, keys);
      var before := monthlyData;
      if key !in monthlyData {
        keys := keys + [key];
        monthlyData := monthlyData[key := MonthStat(0.0, 0)];
      }
      var stat := monthlyData[key];
      monthlyData := monthlyData[key := MonthStat(stat.total + exp.amount, stat.count + 1)];
      assert monthlyData == before[key := MonthStat(stat.total + exp.amount, stat.count + 1)];
    }
    assert expenses[..|expenses|] == expenses;
  }

  /**
   * `Analytics`: the monthly buckets, then the sorted months, their totals,
   * and the highest and mean total (both 0 when there are no months).
   */
  method GroupByMonth(expenses: seq<Expense>) returns (v: MonthlyView)
    ensures v == MonthlyOf(expenses)
  {
    var monthlyData, keys := BucketByMonth(expenses);
    var months := SortAscending(keys);
    MonthsAreMonths(expenses);
    var totals := TotalsOf(months, monthlyData);
    var max := if |totals| > 0 then MaxOf(totals) else 0.0;
    var avg := if |totals| > 0 then SumReals(totals) / (|totals| as real) else 0.0;
    return MonthlyView(monthlyData, months, totals, max, avg);
  }

  // ----- Properties -----

  /**
   * The months are strictly ascending, every month with a record is listed,
   * nothing else is, and each listed total and count are that month's.
   */
  lemma MonthsListed(es: seq<Expense>)
    ensures var v := MonthlyOf(es);
      StrictlyIncreasing(v.months)
      && (forall i :: 0 <= i < |es| ==> MonthKey(es[i]) in v.months)
      && (forall i :: 0 <= i < |v.months| ==> v.months[i] in Keys(es, MonthKey))
      && |v.totals| == |v.months|
      && (forall i :: 0 <= i < |v.months| ==> v.totals[i] == KeyTotal(es, MonthKey, v.months[i]))
  {
    MonthsAreMonths(es);
  }

  lemma {:induction false} SumTotalsIsKeyedSum(ms: seq<int>, es: seq<Expense>)
    requires forall i :: 0 <= i < |ms| ==> ms[i] in Keys(es, MonthKey)
    ensures SumReals(TotalsOf(ms, MonthlyData(es))) == KeyedSum(ms, es, MonthKey)
    ensures SumNats(CountsOf(ms, MonthlyData(es))) == KeyedCount(ms, es, MonthKey)
  {
    if ms != [] {
      assert forall i :: 0 <= i < |ms[1..]| ==> ms[1..][i] == ms[i + 1];
      SumTotalsIsKeyedSum(ms[1..], es);
      assert TotalsOf(ms, MonthlyData(es))[1..] == TotalsOf(ms[1..], MonthlyData(es));
      assert CountsOf(ms, MonthlyData(es))[1..] == CountsOf(ms[1..], MonthlyData(es));
    }
  }

  /** The monthly totals add up to the grand total and the monthly counts to the number of records. */
  lemma MonthlySums(es: seq<Expense>)
    ensures SumReals(MonthlyOf(es).totals) == Total(es)
    ensures SumNats(MonthCounts(es)) == |es|
  {
    MonthsAreMonths(es);
    var v, ms, d := MonthlyOf(es), Months(es), MonthlyData(es);
    assert v.months == ms && v.monthlyData == d && v.totals == TotalsOf(ms, d);
    SumTotalsIsKeyedSum(ms, es);
    KeyedSumIsTotal(ms, es, MonthKey);
    assert MonthCounts(es) == CountsOf(ms, d);
  }

  lemma {:induction false} SumAtMost(s: seq<real>, c: real)
    requires forall i :: 0 <= i < |s| ==> s[i] <= c
    ensures SumReals(s) <= (|s| as real) * c
  {
    if s != [] {
      assert forall i :: 0 <= i < |s[1..]| ==> s[1..][i] == s[i + 1];
      SumAtMost(s[1..], c);
    }
  }

  lemma MeanAtMost(s: real, k: real, c: real)
    requires k > 0.0 && s <= k * c
    ensures s / k <= c
  {
    assert s == (s / k) * k;
  }

  /**
   * With at least one record, the highest month is one of the monthly
   * totals, no month exceeds it, and it is at least the mean month.
   */
  lemma MaxAndMean(es: seq<Expense>)
    requires es != []
    ensures var v := MonthlyOf(es);
      |v.totals| >= 1
      && (exists i :: 0 <= i < |v.totals| && v.totals[i] == v.max)
      && (forall i :: 0 <= i < |v.totals| ==> v.totals[i] <= v.max)
      && v.max >= v.avg
  {
    MonthsAreMonths(es);
    var v, ms, d := MonthlyOf(es), Months(es), MonthlyData(es);
    var ts := TotalsOf(ms, d);
    assert v.totals == ts;
    assert MonthKey(es[0]) in ms;
    assert |ts| >= 1;
    assert v.max == MaxOf(ts) && v.avg == SumReals(ts) / (|ts| as real);
    MaxAtLeastMean(ts);
    MaxOfIsElement(ts);
  }

  /** The largest of a non-empty list is at least its mean. */
  lemma MaxAtLeastMean(ts: seq<real>)
    requires |ts| >= 1
    ensures MaxOf(ts) >= SumReals(ts) / (|ts| as real)
  {
    var m, k, total := MaxOf(ts), |ts| as real, SumReals(ts);
    assert total <= k * m by { SumAtMost(ts, m); }
    MeanAtMost(total, k, m);
  }

  /** No records: no months, and the highest and mean month are both 0. */
  lemma MonthlyEmpty()
    ensures MonthlyOf([]) == MonthlyView(map[], [], [], 0.0, 0.0)
  {
    assert Keys([], MonthKey) == {};
    assert FirstSeen([], MonthKey) == [];
  }
}
