/**
 * Expense records and the bucketing every analytic is built from: sums of
 * amounts per key (day, category or month), the set of keys present, and
 * the keys in order of first appearance (the order a JavaScript object
 * lists keys that were added one by one).
 */
module Ledger {
  import opened Calendar

  /** The closed set of spending categories. */
  datatype Category = Food | Transportation | Utilities | Entertainment | Healthcare | Other

  const AllCategories: seq<Category> :=
    [Food, Transportation, Utilities, Entertainment, Healthcare, Other]

  /** The name a category is stored and shown under. */
  function CategoryName(c: Category): string {
    match c
    case Food => "Food"
    case Transportation => "Transportation"
    case Utilities => "Utilities"
    case Entertainment => "Entertainment"
    case Healthcare => "Healthcare"
    case Other => "Other"
  }

  /**
   * One expense. `date` is a local instant in milliseconds (see Calendar).
   * The record's `id` is not used by any analytic and is not modelled.
   */
  datatype Expense = Expense(amount: real, category: Category, description: string, date: int)

  /** The local day an expense was made on. */
  function DayKey(e: Expense): int { DayOf(e.date) }

  /** The category an expense is filed under. */
  function CategoryKey(e: Expense): Category { e.category }

  /** The `YYYY-MM` month an expense was made in, as a month index. */
  function MonthKey(e: Expense): int { MonthOfInstant(e.date) }

  predicate Distinct<K(==)>(ks: seq<K>) {
    forall i, j :: 0 <= i < j < |ks| ==> ks[i] != ks[j]
  }

  predicate NonNegativeAmounts(es: seq<Expense>) {
    forall i :: 0 <= i < |es| ==> es[i].amount >= 0.0
  }

  /** Sum of all amounts (`reduce((sum, e) => sum + e.amount, 0)`). */
  function Total(es: seq<Expense>): real {
    if es == [] then 0.0 else Total(es[..|es| - 1]) + es[|es| - 1].amount
  }

  /** Sum of the amounts of the expenses whose key is `k`. */
  function KeyTotal<K(==)>(es: seq<Expense>, key: Expense -> K, k: K): real {
    if es == [] then 0.0
    else KeyTotal(es[..|es| - 1], key, k) + (if key(es[|es| - 1]) == k then es[|es| - 1].amount else 0.0)
  }

  /** Number of expenses whose key is `k`. */
  function KeyCount<K(==)>(es: seq<Expense>, key: Expense -> K, k: K): nat {
    if es == [] then 0
    else KeyCount(es[..|es| - 1], key, k) + (if key(es[|es| - 1]) == k then 1 else 0)
  }

  /** The keys that occur. */
  function Keys<K(==)>(es: seq<Expense>, key: Expense -> K): set<K> {
    if es == [] then {} else Keys(es[..|es| - 1], key) + {key(es[|es| - 1])}
  }

  /** Per-key totals, holding exactly the keys that occur (`totals[k] = (totals[k] || 0) + e.amount`). */
  function Buckets<K(==)>(es: seq<Expense>, key: Expense -> K): (b: map<K, real>)
    ensures b.Keys == Keys(es, key)
  {
    map k | k in Keys(es, key) :: KeyTotal(es, key, k)
  }

  /** The keys that occur, each once, in the order they first occur. */
  function FirstSeen<K(==)>(es: seq<Expense>, key: Expense -> K): seq<K> {
    if es == [] then []
    else
      var ks := FirstSeen(es[..|es| - 1], key);
      if key(es[|es| - 1]) in ks then ks else ks + [key(es[|es| - 1])]
  }

  /** Sum of the amounts of expenses dated at or after `cutoff`. */
  function SumSince(es: seq<Expense>, cutoff: int): real {
    if es == [] then 0.0
    else SumSince(es[..|es| - 1], cutoff) + (if es[|es| - 1].date >= cutoff then es[|es| - 1].amount else 0.0)
  }

  /** Sum of the per-key totals of the keys `ks`. */
  function KeyedSum<K(==)>(ks: seq<K>, es: seq<Expense>, key: Expense -> K): real {
    if ks == [] then 0.0 else KeyTotal(es, key, ks[0]) + KeyedSum(ks[1..], es, key)
  }

  /** Sum of the per-key counts of the keys `ks`. */
  function KeyedCount<K(==)>(ks: seq<K>, es: seq<Expense>, key: Expense -> K): nat {
    if ks == [] then 0 else KeyCount(es, key, ks[0]) + KeyedCount(ks[1..], es, key)
  }

  /** Sum of the values stored under the keys `ks` (`Object.values(m).reduce((a, b) => a + b, 0)`). */
  function ValuesSum<K(==)>(ks: seq<K>, m: map<K, real>): real
    requires forall i :: 0 <= i < |ks| ==> ks[i] in m
  {
    if ks == [] then 0.0 else m[ks[0]] + ValuesSum(ks[1..], m)
  }

  // ----- Appending one record -----

  lemma SnocPrefix(es: seq<Expense>, e: Expense)
    ensures (es + [e])[..|es + [e]| - 1] == es && (es + [e])[|es + [e]| - 1] == e
  {
  }

  /** Appending a record adds its amount to the total. */
  lemma TotalSnoc(es: seq<Expense>, e: Expense)
    ensures Total(es + [e]) == Total(es) + e.amount
  {
    SnocPrefix(es, e);
  }

  /** Appending a record adds its amount to its own key's total and to no other. */
  lemma KeyTotalSnoc<K>(es: seq<Expense>, key: Expense -> K, e: Expense, k: K)
    ensures KeyTotal(es + [e], key, k) == KeyTotal(es, key, k) + (if key(e) == k then e.amount else 0.0)
    ensures KeyCount(es + [e], key, k) == KeyCount(es, key, k) + (if key(e) == k then 1 else 0)
    ensures Keys(es + [e], key) == Keys(es, key) + {key(e)}
  {
    SnocPrefix(es, e);
  }

  lemma SumSinceSnoc(es: seq<Expense>, cutoff: int, e: Expense)
    ensures SumSince(es + [e], cutoff) == SumSince(es, cutoff) + (if e.date >= cutoff then e.amount else 0.0)
  {
    SnocPrefix(es, e);
  }

  /** A key that never occurs has total and count zero. */
  lemma {:induction false} AbsentKey<K>(es: seq<Expense>, key: Expense -> K, k: K)
    requires k !in Keys(es, key)
    ensures KeyTotal(es, key, k) == 0.0 && KeyCount(es, key, k) == 0
  {
    if es != [] {
      AbsentKey(es[..|es| - 1], key, k);
    }
  }

  /** A key occurs exactly when some record carries it. */
  lemma {:induction false} KeysMembership<K>(es: seq<Expense>, key: Expense -> K, k: K)
    ensures k in Keys(es, key) <==> exists i :: 0 <= i < |es| && key(es[i]) == k
  {
    if es != [] {
      var init := es[..|es| - 1];
      KeysMembership(init, key, k);
      if k in Keys(init, key) {
        var i :| 0 <= i < |init| && key(init[i]) == k;
        assert es[i] == init[i];
      }
      if exists i :: 0 <= i < |es| && key(es[i]) == k {
        var i :| 0 <= i < |es| && key(es[i]) == k;
        if i < |init| {
          assert init[i] == es[i];
        }
      }
    }
  }

  /**
   * Appending a record updates the bucket map the way the source's
   * `forEach` does: the record's key gets its amount added, starting from 0
   * when the key is new, and every other key is untouched.
   */
  lemma BucketsSnoc<K>(es: seq<Expense>, key: Expense -> K, e: Expense)
    ensures var b := Buckets(es, key);
      Buckets(es + [e], key) == b[key(e) := (if key(e) in b then b[key(e)] else 0.0) + e.amount]
  {
    var b := Buckets(es, key);
    var b' := Buckets(es + [e], key);
    var u := b[key(e) := (if key(e) in b then b[key(e)] else 0.0) + e.amount];
    KeyTotalSnoc(es, key, e, key(e));
    if key(e) !in b {
      AbsentKey(es, key, key(e));
    }
    forall k | k in Keys(es + [e], key)
      ensures b'[k] == u[k]
    {
      KeyTotalSnoc(es, key, e, k);
    }
    assert b'.Keys == u.Keys;
  }

  /** Appending a record extends the first-appearance order by its key if that key is new. */
  lemma FirstSeenSnoc<K>(es: seq<Expense>, key: Expense -> K, e: Expense)
    ensures var ks := FirstSeen(es, key);
      FirstSeen(es + [e], key) == if key(e) in ks then ks else ks + [key(e)]
  {
    SnocPrefix(es, e);
  }

  /**
   * The first-appearance order lists every key that occurs, each exactly
   * once, and nothing else.
   */
  lemma {:induction false} FirstSeenKeys<K>(es: seq<Expense>, key: Expense -> K)
    ensures Distinct(FirstSeen(es, key))
    ensures forall i :: 0 <= i < |es| ==> key(es[i]) in FirstSeen(es, key)
    ensures forall j :: 0 <= j < |FirstSeen(es, key)| ==> FirstSeen(es, key)[j] in Keys(es, key)
  {
    if es != [] {
      var init := es[..|es| - 1];
      FirstSeenKeys(init, key);
      var ks := FirstSeen(init, key);
      var x := key(es[|es| - 1]);
      var r := FirstSeen(es, key);
      assert r == if x in ks then ks else ks + [x];
      if x !in ks {
        assert Distinct(r) by {
          forall i, j | 0 <= i < j < |r| ensures r[i] != r[j] {
            if j < |ks| {
              assert r[i] == ks[i] && r[j] == ks[j];
            } else {
              assert r[i] == ks[i] && r[j] == x;
            }
          }
        }
      }
      forall i | 0 <= i < |es| ensures key(es[i]) in r {
        if i < |init| {
          assert es[i] == init[i];
        }
      }
      forall j | 0 <= j < |r| ensures r[j] in Keys(es, key) {
        if j < |ks| {
          assert r[j] == ks[j];
        }
      }
    }
  }

  /** A key is in the first-appearance order exactly when some record has it. */
  lemma FirstSeenMembership<K>(es: seq<Expense>, key: Expense -> K, k: K)
    ensures k in FirstSeen(es, key) <==> k in Keys(es, key)
  {
    FirstSeenKeys(es, key);
    KeysMembership(es, key, k);
    if k in FirstSeen(es, key) {
      var ks := FirstSeen(es, key);
      var j :| 0 <= j < |ks| && ks[j] == k;
    }
  }

  // ----- Per-key totals add up -----

  /** Appending a record adds its amount to the keyed sum when its key is listed (once). */
  lemma {:induction false} KeyedSumSnoc<K>(ks: seq<K>, es: seq<Expense>, key: Expense -> K, e: Expense)
    requires Distinct(ks)
    ensures KeyedSum(ks, es + [e], key) == KeyedSum(ks, es, key) + (if key(e) in ks then e.amount else 0.0)
    ensures KeyedCount(ks, es + [e], key) == KeyedCount(ks, es, key) + (if key(e) in ks then 1 else 0)
  {
    if ks != [] {
      var rest := ks[1..];
      assert Distinct(rest) by {
        forall i, j | 0 <= i < j < |rest| ensures rest[i] != rest[j] {
          assert rest[i] == ks[i + 1] && rest[j] == ks[j + 1];
        }
      }
      KeyedSumSnoc(rest, es, key, e);
      KeyTotalSnoc(es, key, e, ks[0]);
      assert key(e) in ks <==> key(e) == ks[0] || key(e) in rest;
      assert key(e) == ks[0] ==> key(e) !in rest by {
        forall i | 0 <= i < |rest| ensures rest[i] != ks[0] {
          assert rest[i] == ks[i + 1];
        }
      }
    }
  }

  /**
   * Summing the per-key totals over a list of distinct keys that covers every
   * key present gives the grand total; the counts give the number of records.
   */
  lemma {:induction false} KeyedSumIsTotal<K>(ks: seq<K>, es: seq<Expense>, key: Expense -> K)
    requires Distinct(ks)
    requires forall i :: 0 <= i < |es| ==> key(es[i]) in ks
    ensures KeyedSum(ks, es, key) == Total(es)
    ensures KeyedCount(ks, es, key) == |es|
  {
    if es == [] {
      EmptyKeyedSum(ks, key);
    } else {
      var init, e := es[..|es| - 1], es[|es| - 1];
      assert es == init + [e];
      assert forall i :: 0 <= i < |init| ==> key(init[i]) in ks by {
        forall i | 0 <= i < |init| ensures key(init[i]) in ks {
          assert init[i] == es[i];
        }
      }
      KeyTotalSnoc(init, key, e, key(e));
      KeyedSumIsTotal(ks, init, key);
      KeyedSumSnoc(ks, init, key, e);
      TotalSnoc(init, e);
    }
  }

  /** Reading the bucket map back key by key gives the per-key totals. */
  lemma {:induction false} ValuesSumIsKeyedSum<K>(ks: seq<K>, es: seq<Expense>, key: Expense -> K)
    requires forall i :: 0 <= i < |ks| ==> ks[i] in Keys(es, key)
    ensures ValuesSum(ks, Buckets(es, key)) == KeyedSum(ks, es, key)
  {
    if ks != [] {
      assert forall i :: 0 <= i < |ks[1..]| ==> ks[1..][i] == ks[i + 1];
      ValuesSumIsKeyedSum(ks[1..], es, key);
    }
  }

  /**
   * Summing the stored bucket totals under any duplicate-free list of the
   * keys present (in particular the object's own key order) gives the
   * grand total.
   */
  lemma ValuesSumIsTotal<K>(ks: seq<K>, es: seq<Expense>, key: Expense -> K)
    requires Distinct(ks)
    requires forall i :: 0 <= i < |ks| ==> ks[i] in Keys(es, key)
    requires forall i :: 0 <= i < |es| ==> key(es[i]) in ks
    ensures ValuesSum(ks, Buckets(es, key)) == Total(es)
  {
    ValuesSumIsKeyedSum(ks, es, key);
    KeyedSumIsTotal(ks, es, key);
  }

  lemma {:induction false} EmptyKeyedSum<K>(ks: seq<K>, key: Expense -> K)
    ensures KeyedSum(ks, [], key) == 0.0 && KeyedCount(ks, [], key) == 0
  {
    if ks != [] {
      EmptyKeyedSum(ks[1..], key);
    }
  }

  /** With non-negative amounts, any one key's total is at most the grand total. */
  lemma {:induction false} KeyTotalAtMostTotal<K>(es: seq<Expense>, key: Expense -> K, k: K)
    requires NonNegativeAmounts(es)
    ensures 0.0 <= KeyTotal(es, key, k) <= Total(es)
  {
    if es != [] {
      var init := es[..|es| - 1];
      assert NonNegativeAmounts(init) by {
        forall i | 0 <= i < |init| ensures init[i].amount >= 0.0 {
          assert init[i] == es[i];
        }
      }
      KeyTotalAtMostTotal(init, key, k);
    }
  }

  /** With non-negative amounts, the total since any cutoff is at most the grand total. */
  lemma {:induction false} SumSinceAtMostTotal(es: seq<Expense>, cutoff: int)
    requires NonNegativeAmounts(es)
    ensures 0.0 <= SumSince(es, cutoff) <= Total(es)
  {
    if es != [] {
      var init := es[..|es| - 1];
      assert NonNegativeAmounts(init) by {
        forall i | 0 <= i < |init| ensures init[i].amount >= 0.0 {
          assert init[i] == es[i];
        }
      }
      SumSinceAtMostTotal(init, cutoff);
    }
  }

  lemma {:induction false} TotalNonNegative(es: seq<Expense>)
    requires NonNegativeAmounts(es)
    ensures Total(es) >= 0.0
  {
    if es != [] {
      var init := es[..|es| - 1];
      assert NonNegativeAmounts(init) by {
        forall i | 0 <= i < |init| ensures init[i].amount >= 0.0 {
          assert init[i] == es[i];
        }
      }
      TotalNonNegative(init);
    }
  }

  // ----- Ordering integer keys -----

  predicate Ascending(s: seq<int>) {
    forall i, j :: 0 <= i < j < |s| ==> s[i] <= s[j]
  }

  predicate StrictlyIncreasing(s: seq<int>) {
    forall i, j :: 0 <= i < j < |s| ==> s[i] < s[j]
  }

  /** Inserts `x` into an ascending list, before the first element not below it. */
  function InsertAscending(x: int, s: seq<int>): (r: seq<int>)
    requires Ascending(s)
    ensures Ascending(r) && multiset(r) == multiset(s) + multiset{x}
    ensures |r| == |s| + 1 && (r[0] == x || (s != [] && r[0] == s[0]))
  {
    if s == [] || x <= s[0] then [x] + s
    else
      var t := InsertAscending(x, s[1..]);
      assert s == [s[0]] + s[1..];
      [s[0]] + t
  }

  /** Sorts a list of integers into ascending order (the `sort` applied to the object's keys). */
  function SortAscending(s: seq<int>): (r: seq<int>)
    ensures Ascending(r) && multiset(r) == multiset(s) && |r| == |s|
  {
    if s == [] then []
    else
      assert s == [s[0]] + s[1..];
      InsertAscending(s[0], SortAscending(s[1..]))
  }

  /** Sorting a list of distinct keys gives a strictly increasing list of the same keys. */
  lemma SortDistinct(s: seq<int>)
    requires Distinct(s)
    ensures StrictlyIncreasing(SortAscending(s))
    ensures forall x :: x in SortAscending(s) <==> x in s
  {
    var r := SortAscending(s);
    forall x ensures x in r <==> x in s {
      assert x in r <==> x in multiset(r);
      assert x in s <==> x in multiset(s);
    }
    forall i, j | 0 <= i < j < |r| ensures r[i] < r[j] {
      if r[i] == r[j] {
        RepeatCount(r, i, j);
        DistinctCount(s, r[i]);
      }
    }
  }

  /** A value found at two positions occurs at least twice. */
  lemma RepeatCount<T>(r: seq<T>, i: int, j: int)
    requires 0 <= i < j < |r| && r[i] == r[j]
    ensures multiset(r)[r[i]] >= 2
  {
    assert r == r[..i] + [r[i]] + r[i + 1..j] + [r[j]] + r[j + 1..];
  }

  /** Each element of a list without repetitions occurs in it at most once. */
  lemma {:induction false} DistinctCount(s: seq<int>, x: int)
    requires Distinct(s)
    ensures multiset(s)[x] <= 1
  {
    if s != [] {
      var rest := s[1..];
      assert s == [s[0]] + rest;
      assert Distinct(rest) by {
        forall i, j | 0 <= i < j < |rest| ensures rest[i] != rest[j] {
          assert rest[i] == s[i + 1] && rest[j] == s[j + 1];
        }
      }
      DistinctCount(rest, x);
      if x == s[0] {
        assert x !in rest by {
          forall i | 0 <= i < |rest| ensures rest[i] != x {
            assert rest[i] == s[i + 1];
          }
        }
      }
    }
  }

  /** A strictly increasing list of integers spans at least its length, less one. */
  lemma {:induction false} IncreasingSpan(s: seq<int>)
    requires |s| >= 1 && StrictlyIncreasing(s)
    ensures s[|s| - 1] - s[0] >= |s| - 1
  {
    if |s| > 1 {
      var init := s[..|s| - 1];
      assert StrictlyIncreasing(init) by {
        forall i, j | 0 <= i < j < |init| ensures init[i] < init[j] {
          assert init[i] == s[i] && init[j] == s[j];
        }
      }
      IncreasingSpan(init);
      assert init[|init| - 1] == s[|s| - 2] && init[0] == s[0];
    }
  }
}
