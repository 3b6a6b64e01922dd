/**
 * The part of `generateSuggestions` that is arithmetic: per-category totals
 * and record lists, the total spent, and the three categories with the
 * highest totals, highest first.
 */
module Suggestions {
  import opened Wrappers
  import opened Ledger

  /** One `[category, amount]` pair of `Object.entries(categoryTotals)`. */
  datatype CategoryAmount = CategoryAmount(category: Category, amount: real)

  /** What the suggestion generator derives from the records before asking for tips. */
  datatype Selection = Selection(
    categoryTotals: map<Category, real>,
    expensesByCategory: map<Category, seq<Expense>>,
    totalSpent: real,
    sortedCategories: seq<CategoryAmount>)

  // ----- Records per category -----

  /** The records filed under `c`, in their original order. */
  function InCategory(es: seq<Expense>, c: Category): (r: seq<Expense>)
    ensures |r| <= |es|
  {
    if es == [] then []
    else InCategory(es[..|es| - 1], c) + (if es[|es| - 1].category == c then [es[|es| - 1]] else [])
  }

  /** Per category present, its records (`expensesByCategory[cat].push(expense)`). */
  function ByCategory(es: seq<Expense>): (b: map<Category, seq<Expense>>)
    ensures b.Keys == Keys(es, CategoryKey)
  {
    map c | c in Keys(es, CategoryKey) :: InCategory(es, c)
  }

  lemma {:induction false} InCategoryMatches(es: seq<Expense>, c: Category)
    ensures Total(InCategory(es, c)) == KeyTotal(es, CategoryKey, c)
    ensures |InCategory(es, c)| == KeyCount(es, CategoryKey, c)
    ensures forall i :: 0 <= i < |InCategory(es, c)| ==> InCategory(es, c)[i].category == c
  {
    if es != [] {
      var init, e := es[..|es| - 1], es[|es| - 1];
      InCategoryMatches(init, c);
      var r := InCategory(init, c);
      if e.category == c {
        TotalSnoc(r, e);
        assert InCategory(es, c) == r + [e];
      } else {
        assert InCategory(es, c) == r;
      }
    }
  }

  /**
   * Each category's record list holds exactly its records: they all carry
   * the category, there are as many as the category's count, and their
   * amounts add up to the category's total.
   */
  lemma ByCategoryMatchesTotals(es: seq<Expense>, c: Category)
    requires c in Keys(es, CategoryKey)
    ensures var list := ByCategory(es)[c];
      (forall i :: 0 <= i < |list| ==> list[i].category == c)
      && |list| == KeyCount(es, CategoryKey, c)
      && Total(list) == Buckets(es, CategoryKey)[c]
  {
    InCategoryMatches(es, c);
  }

  lemma ByCategorySnoc(es: seq<Expense>, e: Expense)
    ensures var b := ByCategory(es);
      ByCategory(es + [e]) == b[e.category := (if e.category in b then b[e.category] else []) + [e]]
  {
    var b, c := ByCategory(es), e.category;
    var u := b[c := (if c in b then b[c] else []) + [e]];
    var b' := ByCategory(es + [e]);
    SnocPrefix(es, e);
    KeyTotalSnoc(es, CategoryKey, e, c);
    if c !in b {
      InCategoryMatches(es, c);
      AbsentKey(es, CategoryKey, c);
    }
    forall k | k in Keys(es + [e], CategoryKey)
      ensures b'[k] == u[k]
    {
      KeyTotalSnoc(es, CategoryKey, e, k);
    }
    assert b'.Keys == u.Keys;
  }

  /** The three objects the `forEach` fills, as they stand after the records `es`. */
  predicate Bucketed(es: seq<Expense>, totals: map<Category, real>, byCategory: map<Category, seq<Expense>>, keys: seq<Category>) {
    totals == Buckets(es, CategoryKey) && byCategory == ByCategory(es) && keys == FirstSeen(es, CategoryKey)
  }

  /** One step of the `forEach`: how the three objects change when a record is appended. */
  lemma CategoryStep(es: seq<Expense>, e: Expense, totals: map<Category, real>, byCategory: map<Category, seq<Expense>>, keys: seq<Category>)
    requires Bucketed(es, totals, byCategory, keys)
    ensures var c := e.category;
      && (c in byCategory <==> c in totals)
      && Bucketed(es + [e],
           totals[c := (if c in totals then totals[c] else 0.0) + e.amount],
           byCategory[c := (if c in byCategory then byCategory[c] else []) + [e]],
           if c in totals then keys else keys + [c])
  {
    var c := e.category;
    assert totals[c := (if c in totals then totals[c] else 0.0) + e.amount] == Buckets(es + [e], CategoryKey) by {
      BucketsSnoc(es, CategoryKey, e);
    }
    assert byCategory[c := (if c in byCategory then byCategory[c] else []) + [e]] == ByCategory(es + [e]) by {
      ByCategorySnoc(es, e);
    }
    assert (if c in totals then keys else keys + [c]) == FirstSeen(es + [e], CategoryKey) by {
      FirstSeenSnoc(es, CategoryKey, e);
      FirstSeenMembership(es, CategoryKey, c);
    }
  }

  /**
   * The same step, for the loop over `es` at position `i`, from the state
   * before it (`totals`, `byCategory`, `keys`) to the state after it.
   */
  lemma CategoryStepAt(es: seq<Expense>, i: int,
                       totals: map<Category, real>, byCategory: map<Category, seq<Expense>>, keys: seq<Category>,
                       totals': map<Category, real>, byCategory': map<Category, seq<Expense>>, keys': seq<Category>)
    requires 0 <= i < |es| && Bucketed(es[..i], totals, byCategory, keys)
    requires var c := es[i].category;
      && totals' == totals[c := (if c in totals then totals[c] else 0.0) + es[i].amount]
      && byCategory' == byCategory[c := (if c in byCategory then byCategory[c] else []) + [es[i]]]
      && keys' == if c in totals then keys else keys + [c]
    ensures Bucketed(es[..i + 1], totals', byCategory', keys')
  {
    assert es[..i + 1] == es[..i] + [es[i]];
    CategoryStep(es[..i], es[i], totals, byCategory, keys);
  }

  // ----- Sorting the entries -----

  /** The entries in the order of the keys `ks` (`Object.entries`). */
  function Entries(ks: seq<Category>, m: map<Category, real>): (r: seq<CategoryAmount>)
    requires forall i :: 0 <= i < |ks| ==> ks[i] in m
    ensures |r| == |ks| && forall i :: 0 <= i < |ks| ==> r[i] == CategoryAmount(ks[i], m[ks[i]])
  {
    if ks == [] then [] else [CategoryAmount(ks[0], m[ks[0]])] + Entries(ks[1..], m)
  }

  predicate Descending(s: seq<CategoryAmount>) {
    forall i, j :: 0 <= i < j < |s| ==> s[i].amount >= s[j].amount
  }

  /**
   * Inserts `x` in front of the first entry with a smaller amount, so that
   * it stays ahead of the entries it ties with.
   */
  function InsertDescending(x: CategoryAmount, s: seq<CategoryAmount>): (r: seq<CategoryAmount>)
    requires Descending(s)
    ensures Descending(r) && multiset(r) == multiset(s) + multiset{x} && |r| == |s| + 1
    ensures r[0] == x || (s != [] && r[0] == s[0])
  {
    if s == [] || x.amount >= s[0].amount then [x] + s
    else
      var t := InsertDescending(x, s[1..]);
      assert s == [s[0]] + s[1..];
      [s[0]] + t
  }

  /**
   * The stable sort by amount, highest first
   * (`sort((a, b) => b[1] - a[1])`; a stable sort has only one possible
   * result, and this is it).
   */
  function SortDescending(s: seq<CategoryAmount>): (r: seq<CategoryAmount>)
    ensures Descending(r) && multiset(r) == multiset(s) && |r| == |s|
  {
    if s == [] then []
    else
      var t := SortDescending(s[1..]);
      assert s == [s[0]] + s[1..];
      InsertDescending(s[0], t)
  }

  /** The entries of `s` whose amount is `a`, in their order in `s`. */
  function WithAmount(s: seq<CategoryAmount>, a: real): (r: seq<CategoryAmount>)
    ensures |r| <= |s|
    ensures forall i :: 0 <= i < |r| ==> r[i].amount == a
  {
    if s == [] then []
    else (if s[0].amount == a then [s[0]] else []) + WithAmount(s[1..], a)
  }

  /** Inserting puts `x` ahead of every entry it ties with. */
  lemma {:induction false} InsertStable(x: CategoryAmount, s: seq<CategoryAmount>, a: real)
    requires Descending(s)
    ensures WithAmount(InsertDescending(x, s), a) == (if x.amount == a then [x] else []) + WithAmount(s, a)
  {
    if s == [] || x.amount >= s[0].amount {
      assert ([x] + s)[1..] == s;
    } else {
      var t := InsertDescending(x, s[1..]);
      InsertStable(x, s[1..], a);
      assert ([s[0]] + t)[1..] == t;
    }
  }

  /**
   * The sort is stable: the entries with any one amount come out in the
   * order they went in.
   */
  lemma {:induction false} SortStable(s: seq<CategoryAmount>, a: real)
    ensures WithAmount(SortDescending(s), a) == WithAmount(s, a)
  {
    if s != [] {
      SortStable(s[1..], a);
      InsertStable(s[0], SortDescending(s[1..]), a);
    }
  }

  /** Dropping the first entry drops it from its amount's entries and no others. */
  lemma WithAmountTail(s: seq<CategoryAmount>, a: real)
    requires s != []
    ensures s[0].amount == a ==> WithAmount(s, a) == [s[0]] + WithAmount(s[1..], a)
    ensures s[0].amount != a ==> WithAmount(s, a) == WithAmount(s[1..], a)
  {
  }

  /** An amount with entries is the amount of some entry. */
  lemma {:induction false} WithAmountFound(s: seq<CategoryAmount>, a: real)
    requires WithAmount(s, a) != []
    ensures exists i :: 0 <= i < |s| && s[i].amount == a
  {
    if s[0].amount != a {
      WithAmountFound(s[1..], a);
      var i :| 0 <= i < |s[1..]| && s[1..][i].amount == a;
      assert s[i + 1].amount == a;
    }
  }

  /**
   * A stable sort has one possible result: two descending lists that agree
   * on the entries of every amount are equal.
   */
  lemma {:induction false} StableSortUnique(r1: seq<CategoryAmount>, r2: seq<CategoryAmount>)
    requires Descending(r1) && Descending(r2)
    requires forall a :: WithAmount(r1, a) == WithAmount(r2, a)
    ensures r1 == r2
    decreases |r1| + |r2|
  {
    if (r1 == []) != (r2 == []) {
      // the first entry of the other list has an amount with entries on one side only
      assert false;
    } else if r1 != [] {
      var a, b := r1[0].amount, r2[0].amount;
      WithAmountTail(r1, a);
      WithAmountTail(r2, b);
      WithAmountFound(r1, b);
      WithAmountFound(r2, a);
      var i :| 0 <= i < |r1| && r1[i].amount == b;
      var j :| 0 <= j < |r2| && r2[j].amount == a;
      assert a >= b && b >= a by {
        if i > 0 { assert r1[0].amount >= r1[i].amount; }
        if j > 0 { assert r2[0].amount >= r2[j].amount; }
      }
      assert r1[0] == WithAmount(r1, a)[0] == WithAmount(r2, a)[0] == r2[0];
      var t1, t2 := r1[1..], r2[1..];
      forall c ensures WithAmount(t1, c) == WithAmount(t2, c) {
        WithAmountTail(r1, c);
        WithAmountTail(r2, c);
        assert WithAmount(r1, c) == WithAmount(r2, c);
        if c == a {
          assert WithAmount(t1, c) == WithAmount(r1, c)[1..];
          assert WithAmount(t2, c) == WithAmount(r2, c)[1..];
        }
      }
      StableSortUnique(t1, t2);
      assert r1 == [r1[0]] + t1 && r2 == [r2[0]] + t2;
    }
  }

  /**
   * `SortDescending` is the stable descending sort: it is the one
   * descending list that keeps, for every amount, the input's order of the
   * entries with that amount.
   */
  lemma StableSortIsSortDescending(s: seq<CategoryAmount>, r: seq<CategoryAmount>)
    requires Descending(r) && forall a :: WithAmount(r, a) == WithAmount(s, a)
    ensures r == SortDescending(s)
  {
    forall a ensures WithAmount(r, a) == WithAmount(SortDescending(s), a) {
      SortStable(s, a);
    }
    StableSortUnique(r, SortDescending(s));
  }

  /**
   * Ties keep the key order: with a smaller total recorded first and then
   * three equal totals (Food at 10, then Utilities, Other and Healthcare at
   * 20 each, say), the three equal ones come first, in the order they were
   * recorded, so they are the top three in that order.
   */
  lemma TiedTotalsExample(f: CategoryAmount, u: CategoryAmount, o: CategoryAmount, h: CategoryAmount)
    requires f.amount < u.amount && u.amount == o.amount == h.amount
    ensures SortDescending([f, u, o, h]) == [u, o, h, f]
  {
    var s, r := [f, u, o, h], [u, o, h, f];
    assert forall a :: WithAmount(r, a) == WithAmount(s, a) by {
      forall a ensures WithAmount(r, a) == WithAmount(s, a) {
        TiedAmounts(f, u, o, h, a);
      }
    }
    assert Descending(r) by {
      forall i, j | 0 <= i < j < 4 ensures r[i].amount >= r[j].amount {
      }
    }
    StableSortIsSortDescending(s, r);
  }

  /** One amount's entries of the example, before and after sorting. */
  lemma TiedAmounts(f: CategoryAmount, u: CategoryAmount, o: CategoryAmount, h: CategoryAmount, a: real)
    requires f.amount < u.amount && u.amount == o.amount == h.amount
    ensures WithAmount([u, o, h, f], a) == WithAmount([f, u, o, h], a)
  {
    var fs := if a == f.amount then [f] else [];
    var us, os, hs := if a == u.amount then [u] else [], if a == u.amount then [o] else [], if a == u.amount then [h] else [];
    WithAmountTail([f], a);
    WithAmountTail([h, f], a);
    assert [h, f][1..] == [f];
    WithAmountTail([o, h, f], a);
    assert [o, h, f][1..] == [h, f];
    WithAmountTail([u, o, h, f], a);
    assert [u, o, h, f][1..] == [o, h, f];
    assert WithAmount([u, o, h, f], a) == us + os + hs + fs;
    WithAmountTail([h], a);
    WithAmountTail([o, h], a);
    assert [o, h][1..] == [h];
    WithAmountTail([u, o, h], a);
    assert [u, o, h][1..] == [o, h];
    WithAmountTail([f, u, o, h], a);
    assert [f, u, o, h][1..] == [u, o, h];
    assert WithAmount([f, u, o, h], a) == fs + us + os + hs;
    if a == f.amount {
      assert us + os + hs + fs == fs;
    } else {
      assert fs == [];
    }
  }

  /** The first three entries of the sorted list (`slice(0, 3)`). */
  function TopThree(s: seq<CategoryAmount>): (r: seq<CategoryAmount>)
    ensures |r| == Min(3, |s|) && r == s[..|r|]
  {
    if |s| <= 3 then s else s[..3]
  }

  // ----- The reference definition -----

  /** What the suggestion generator selects from the records. */
  function SelectionOf(es: seq<Expense>): Selection {
    FirstSeenKeys(es, CategoryKey);
    var totals := Buckets(es, CategoryKey);
    var ks := FirstSeen(es, CategoryKey);
    Selection(totals, ByCategory(es), ValuesSum(ks, totals), TopThree(SortDescending(Entries(ks, totals))))
  }

  /**
   * The `forEach` of `generateSuggestions`: adds each amount to its
   * category's total and appends the record to its category's list, and
   * keeps the categories in the order the objects first received them.
   */
  method BucketByCategory(es: seq<Expense>)
    returns (categoryTotals: map<Category, real>, expensesByCategory: map<Category, seq<Expense>>, keys: seq<Category>)
    ensures categoryTotals == Buckets(es, CategoryKey)
    ensures expensesByCategory == ByCategory(es)
    ensures keys == FirstSeen(es, CategoryKey)
  {
    categoryTotals, expensesByCategory, keys := map[], map[], [];
    for i := 0 to |es|
      invariant Bucketed(es[..i], categoryTotals, expensesByCategory, keys)
    {
      var expense := es[i];
      var cat := expense.category;
      var before := (categoryTotals, expensesByCategory, keys);
      if cat !in categoryTotals {
        keys := keys + [cat];
      }
      categoryTotals := categoryTotals[cat := (if cat in categoryTotals then categoryTotals[cat] else 0.0) + expense.amount];
      var list := if cat in expensesByCategory then expensesByCategory[cat] else [];
      expensesByCategory := expensesByCategory[cat := list + [expense]];
      CategoryStepAt(es, i, before.0, before.1, before.2, categoryTotals, expensesByCategory, keys);
    }
    assert es[..|es|] == es;
  }

  /**
   * `generateSuggestions` up to the requests for tips: the category
   * buckets, the total spent, and the top three categories.
   */
  method SelectCategories(expensesData: seq<Expense>) returns (s: Selection)
    ensures s == SelectionOf(expensesData)
  {
    var categoryTotals, expensesByCategory, keys := BucketByCategory(expensesData);
    FirstSeenKeys(expensesData, CategoryKey);
    var totalSpent := ValuesSum(keys, categoryTotals);
    var sortedCategories := TopThree(SortDescending(Entries(keys, categoryTotals)));
    return Selection(categoryTotals, expensesByCategory, totalSpent, sortedCategories);
  }

  // ----- Properties -----

  /** The total spent is the sum of all amounts. */
  lemma TotalSpentIsTotal(es: seq<Expense>)
    ensures SelectionOf(es).totalSpent == Total(es)
  {
    FirstSeenKeys(es, CategoryKey);
    ValuesSumIsTotal(FirstSeen(es, CategoryKey), es, CategoryKey);
  }

  lemma EntriesDistinct(ks: seq<Category>, m: map<Category, real>)
    requires Distinct(ks) && forall i :: 0 <= i < |ks| ==> ks[i] in m
    ensures forall i, j :: 0 <= i < j < |Entries(ks, m)| ==> Entries(ks, m)[i].category != Entries(ks, m)[j].category
  {
  }

  /** Two lists with the same elements, one without repeats, are both without repeats of category. */
  lemma SameMultisetDistinct(a: seq<CategoryAmount>, b: seq<CategoryAmount>)
    requires multiset(a) == multiset(b)
    requires forall i, j :: 0 <= i < j < |a| ==> a[i].category != a[j].category
    ensures forall i, j :: 0 <= i < j < |b| ==> b[i].category != b[j].category
  {
    forall i, j | 0 <= i < j < |b| ensures b[i].category != b[j].category {
      assert b[i] in multiset(a) && b[j] in multiset(a);
      var p :| 0 <= p < |a| && a[p] == b[i];
      var q :| 0 <= q < |a| && a[q] == b[j];
      if p == q {
        RepeatCount(b, i, j);
        CategoryDistinctCount(a, p);
      }
    }
  }

  lemma CategoryDistinctCount(a: seq<CategoryAmount>, p: int)
    requires 0 <= p < |a|
    requires forall i, j :: 0 <= i < j < |a| ==> a[i].category != a[j].category
    ensures multiset(a)[a[p]] <= 1
  {
    var x, front, back := a[p], a[..p], a[p + 1..];
    assert a == front + [x] + back;
    forall i | 0 <= i < |front| ensures front[i] != x { assert front[i] == a[i]; }
    forall i | 0 <= i < |back| ensures back[i] != x { assert back[i] == a[p + 1 + i]; }
    NotIn(front, x);
    NotIn(back, x);
  }

  lemma NotIn(s: seq<CategoryAmount>, x: CategoryAmount)
    requires forall i :: 0 <= i < |s| ==> s[i] != x
    ensures multiset(s)[x] == 0
  {
  }

  /**
   * Sorting the entries of distinct keys keeps one entry per key: no
   * category twice, and each entry carries the key's value.
   */
  lemma SortedEntries(ks: seq<Category>, m: map<Category, real>)
    requires Distinct(ks) && forall i :: 0 <= i < |ks| ==> ks[i] in m
    ensures var r := SortDescending(Entries(ks, m));
      (forall i, j :: 0 <= i < j < |r| ==> r[i].category != r[j].category)
      && (forall i :: 0 <= i < |r| ==> r[i].category in ks && r[i].category in m && r[i].amount == m[r[i].category])
  {
    var entries := Entries(ks, m);
    var r := SortDescending(entries);
    EntriesDistinct(ks, m);
    SameMultisetDistinct(entries, r);
    forall i | 0 <= i < |r|
      ensures r[i].category in ks && r[i].category in m && r[i].amount == m[r[i].category]
    {
      assert r[i] in multiset(entries);
      var p :| 0 <= p < |entries| && entries[p] == r[i];
    }
  }

  /** The selected list is the top of the sorted entries of the category totals, in first-seen key order. */
  lemma SelectionTop(es: seq<Expense>)
    ensures var ks, totals := FirstSeen(es, CategoryKey), Buckets(es, CategoryKey);
      && Distinct(ks)
      && (forall i :: 0 <= i < |ks| ==> ks[i] in totals)
      && SelectionOf(es).sortedCategories == TopThree(SortDescending(Entries(ks, totals)))
  {
    FirstSeenKeys(es, CategoryKey);
  }

  /** The top three of the sorted entries of distinct keys, on the keys and the map alone. */
  lemma TopThreeOfEntries(ks: seq<Category>, m: map<Category, real>)
    requires Distinct(ks) && forall i :: 0 <= i < |ks| ==> ks[i] in m
    ensures var top := TopThree(SortDescending(Entries(ks, m)));
      |top| == Min(3, |ks|)
      && Descending(top)
      && (forall i, j :: 0 <= i < j < |top| ==> top[i].category != top[j].category)
      && (forall i :: 0 <= i < |top| ==> top[i].category in ks && top[i].category in m && top[i].amount == m[top[i].category])
  {
    var sorted := SortDescending(Entries(ks, m));
    var top := TopThree(sorted);
    SortedEntries(ks, m);
    assert |sorted| == |ks|;
    assert forall i :: 0 <= i < |top| ==> top[i] == sorted[i];
    assert Descending(top) by {
      forall i, j | 0 <= i < j < |top| ensures top[i].amount >= top[j].amount {
        assert top[i] == sorted[i] && top[j] == sorted[j];
      }
    }
  }

  /**
   * The selected list has at most three entries, one per present category
   * up to three, highest amount first, with no category twice; each entry
   * carries its category's total.
   */
  lemma TopCategoriesShape(es: seq<Expense>)
    ensures var top := SelectionOf(es).sortedCategories;
      |top| == Min(3, |Keys(es, CategoryKey)|)
      && Descending(top)
      && (forall i, j :: 0 <= i < j < |top| ==> top[i].category != top[j].category)
      && (forall i :: 0 <= i < |top| ==>
            (top[i].category in Keys(es, CategoryKey) && top[i].amount == KeyTotal(es, CategoryKey, top[i].category)))
  {
    var ks, totals := FirstSeen(es, CategoryKey), Buckets(es, CategoryKey);
    SelectionTop(es);
    TopThreeOfEntries(ks, totals);
    FirstSeenCount(es);
  }

  /** The first-appearance order lists as many categories as there are present. */
  lemma FirstSeenCount(es: seq<Expense>)
    ensures |FirstSeen(es, CategoryKey)| == |Keys(es, CategoryKey)|
  {
    var ks := FirstSeen(es, CategoryKey);
    FirstSeenKeys(es, CategoryKey);
    forall c ensures c in ks <==> c in Keys(es, CategoryKey) {
      FirstSeenMembership(es, CategoryKey, c);
    }
    DistinctSetSize(ks, Keys(es, CategoryKey));
  }

  lemma {:induction false} DistinctSetSize(ks: seq<Category>, s: set<Category>)
    requires Distinct(ks) && forall c :: c in ks <==> c in s
    ensures |ks| == |s|
    decreases |ks|
  {
    if ks != [] {
      var rest := ks[1..];
      assert Distinct(rest) by {
        forall i, j | 0 <= i < j < |rest| ensures rest[i] != rest[j] {
          assert rest[i] == ks[i + 1] && rest[j] == ks[j + 1];
        }
      }
      forall c ensures c in rest <==> c in s - {ks[0]} {
        if c in rest {
          var i :| 0 <= i < |rest| && rest[i] == c;
          assert ks[i + 1] == c;
        }
        if c in s - {ks[0]} {
          var i :| 0 <= i < |ks| && ks[i] == c;
          assert i != 0;
          assert rest[i - 1] == c;
        }
      }
      DistinctSetSize(rest, s - {ks[0]});
    }
  }

  /** An entry left out of the top three of the sorted entries is no larger than the third. */
  lemma LeftOutOfEntries(ks: seq<Category>, m: map<Category, real>, p: int, top: seq<CategoryAmount>)
    requires Distinct(ks) && forall i :: 0 <= i < |ks| ==> ks[i] in m
    requires 0 <= p < |ks|
    requires top == TopThree(SortDescending(Entries(ks, m)))
    requires forall i :: 0 <= i < |top| ==> top[i].category != ks[p]
    ensures |top| == 3 && m[ks[p]] <= top[2].amount
  {
    var entries := Entries(ks, m);
    var sorted := SortDescending(entries);
    var x := entries[p];
    assert x in multiset(sorted);
    assert x.category == ks[p];
    forall i | 0 <= i < |top| ensures top[i] != x {
      assert top[i].category != ks[p];
    }
    assert x !in top;
    var q :| 0 <= q < |sorted| && sorted[q] == x;
    assert top == sorted[..|top|];
    assert q >= |top|;
    assert sorted[2].amount >= sorted[q].amount;
  }

  /**
   * The three really are the largest: a present category left out of the
   * list has a total no larger than the list's last entry.
   */
  lemma LeftOutAreSmaller(es: seq<Expense>, c: Category)
    requires c in Keys(es, CategoryKey)
    requires forall i :: 0 <= i < |SelectionOf(es).sortedCategories| ==> SelectionOf(es).sortedCategories[i].category != c
    ensures var top := SelectionOf(es).sortedCategories;
      |top| == 3 && KeyTotal(es, CategoryKey, c) <= top[2].amount
  {
    var ks, totals := FirstSeen(es, CategoryKey), Buckets(es, CategoryKey);
    SelectionTop(es);
    FirstSeenMembership(es, CategoryKey, c);
    var p :| 0 <= p < |ks| && ks[p] == c;
    LeftOutOfEntries(ks, totals, p, SelectionOf(es).sortedCategories);
  }

  /** No records: nothing is selected and nothing was spent. */
  lemma SelectionEmpty()
    ensures SelectionOf([]) == Selection(map[], map[], 0.0, [])
  {
    assert Keys([], CategoryKey) == {};
  }
}
