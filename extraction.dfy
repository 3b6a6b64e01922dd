/**
 * Turning the model's reply to a receipt photo into expense records
 * (`handleFileUpload`): the reply must be a JSON array; items with a numeric
 * amount strictly between 0 and 10000 are kept, in order; each kept item
 * gets a known category or `Other`, a description of at most 50 characters
 * (default `Item`) and the upload instant as its date; at most 20 are
 * offered. The JSON text itself is already parsed: an element is given by
 * the three properties the pipeline reads.
 */
module Extraction {
  import opened Wrappers
  import opened Ledger

  /** The value of one property of a parsed object, as far as the pipeline can tell them apart. */
  datatype Field =
    | Absent                 // the property is missing (`undefined`)
    | FNull
    | FBool(b: bool)
    | FNum(n: real)
    | FStr(s: string)
    | FComposite             // an object or an array

  /** One element of the parsed array. */
  datatype Item =
    | NullItem               // `null`: reading `.amount` of it throws
    | NonObject              // a number, string, boolean or array: every property reads as `undefined`
    | Record(amount: Field, category: Field, description: Field)

  /** A parsed reply: not JSON at all, JSON that is not an array, or an array. */
  datatype Reply = Unparsable | NotArray | ArrayReply(items: seq<Item>)

  /** Why processing the reply stopped with an error message. */
  datatype Failure =
    | InvalidJson            // `JSON.parse` threw
    | NotAnArray             // the parsed value is not an array
    | ReadOfNull             // the amount filter read a property of `null`
    | NotAString             // a truthy description that is not a string has no `substring`

  /** What the upload handler ends with: records for the preview, the no-expenses message, or an error. */
  datatype Outcome = Extracted(expenses: seq<Expense>) | NoValidExpenses | Failed(reason: Failure)

  // ----- The amount filter -----

  /** The filter's test: the amount is a number, truthy, above 0 and below 10000. */
  predicate Priced(it: Item) {
    it.Record? && it.amount.FNum? && it.amount.n != 0.0 && 0.0 < it.amount.n < 10000.0
  }

  predicate HasNull(items: seq<Item>) {
    exists i :: 0 <= i < |items| && items[i].NullItem?
  }

  /** The items that pass the filter, in their order. */
  function Kept(items: seq<Item>): (r: seq<Item>)
    ensures |r| <= |items|
    ensures forall i :: 0 <= i < |r| ==> Priced(r[i])
  {
    if items == [] then []
    else (if Priced(items[0]) then [items[0]] else []) + Kept(items[1..])
  }

  // ----- The map -----

  /** `validCategories.includes(exp.category) ? exp.category : 'Other'`. */
  function CategoryOf(f: Field): Category {
    match f
    case FStr(s) =>
      if s == CategoryName(Food) then Food
      else if s == CategoryName(Transportation) then Transportation
      else if s == CategoryName(Utilities) then Utilities
      else if s == CategoryName(Entertainment) then Entertainment
      else if s == CategoryName(Healthcare) then Healthcare
      else Other
    case _ => Other
  }

  /** The JavaScript falsy values a property can hold. */
  predicate Falsy(f: Field) {
    f.Absent? || f.FNull? || f == FBool(false) || f == FNum(0.0) || f == FStr("")
  }

  /** `(exp.description || 'Item').substring(0, 50)`. */
  function DescriptionOf(f: Field): (r: Result<string, Failure>)
    ensures Falsy(f) ==> r == Ok("Item")
    ensures f.FStr? && f.s != "" ==> r.Ok? && r.value <= f.s && |r.value| == Min(50, |f.s|)
    ensures r.Err? <==> !Falsy(f) && !f.FStr?
    ensures r.Err? ==> r.error == NotAString
    ensures r.Ok? ==> |r.value| <= 50
  {
    if Falsy(f) then Ok("Item")
    else match f
      case FStr(s) => Ok(s[..Min(50, |s|)])
      case _ => Err(NotAString)
  }

  /** An item whose description makes the map throw. */
  predicate BadDescription(it: Item) {
    it.Record? && DescriptionOf(it.description).Err?
  }

  /** The record built from one kept item, dated `now` (`new Date().toISOString()`). */
  function ToExpense(it: Item, now: int): Result<Expense, Failure>
    requires Priced(it)
  {
    match DescriptionOf(it.description)
    case Err(e) => Err(e)
    case Ok(d) => Ok(Expense(it.amount.n, CategoryOf(it.category), d, now))
  }

  /** The map over all kept items; it stops at the first item that throws. */
  function MapItems(ks: seq<Item>, now: int): Result<seq<Expense>, Failure>
    requires forall i :: 0 <= i < |ks| ==> Priced(ks[i])
  {
    if ks == [] then Ok([])
    else match ToExpense(ks[0], now)
      case Err(e) => Err(e)
      case Ok(x) =>
        match MapItems(ks[1..], now)
        case Err(e) => Err(e)
        case Ok(rest) => Ok([x] + rest)
  }

  /** The whole `filter`/`map`/`slice(0, 20)` pipeline on a parsed array. */
  function ValidateItems(items: seq<Item>, now: int): Result<seq<Expense>, Failure> {
    if HasNull(items) then Err(ReadOfNull)
    else match MapItems(Kept(items), now)
      case Err(e) => Err(e)
      case Ok(es) => Ok(es[..Min(20, |es|)])
  }

  /** The reply from parsing to the preview (or the message shown instead). */
  function ProcessReply(reply: Reply, now: int): Outcome {
    match reply
    case Unparsable => Failed(InvalidJson)
    case NotArray => Failed(NotAnArray)
    case ArrayReply(items) =>
      match ValidateItems(items, now)
      case Err(f) => Failed(f)
      case Ok(es) => if es == [] then NoValidExpenses else Extracted(es)
  }

  // ----- Properties -----

  /** An item survives the filter exactly when it is in the input and passes the test. */
  lemma {:induction false} KeptMembership(items: seq<Item>, x: Item)
    ensures x in Kept(items) <==> x in items && Priced(x)
  {
    if items != [] {
      KeptMembership(items[1..], x);
      assert items == [items[0]] + items[1..];
    }
  }

  /** Filtering keeps the order: filtering a concatenation concatenates the filtered parts. */
  lemma {:induction false} KeptConcat(a: seq<Item>, b: seq<Item>)
    ensures Kept(a + b) == Kept(a) + Kept(b)
  {
    if a != [] {
      assert (a + b)[1..] == a[1..] + b;
      KeptConcat(a[1..], b);
    } else {
      assert a + b == b;
    }
  }

  /**
   * The map succeeds exactly when no kept item has a bad description, and
   * then builds one record per kept item, in order, from that item's fields.
   */
  lemma {:induction false} MapItemsCorrect(ks: seq<Item>, now: int)
    requires forall i :: 0 <= i < |ks| ==> Priced(ks[i])
    ensures MapItems(ks, now).Err? <==> exists i :: 0 <= i < |ks| && BadDescription(ks[i])
    ensures MapItems(ks, now).Err? ==> MapItems(ks, now).error == NotAString
    ensures MapItems(ks, now).Ok? ==>
      var es := MapItems(ks, now).value;
      |es| == |ks|
      && forall i :: 0 <= i < |ks| ==>
        && es[i].amount == ks[i].amount.n
        && es[i].category == CategoryOf(ks[i].category)
        && Ok(es[i].description) == DescriptionOf(ks[i].description)
        && es[i].date == now
  {
    if ks != [] {
      var rest := ks[1..];
      MapItemsCorrect(rest, now);
      if MapItems(ks, now).Ok? {
        var es := MapItems(ks, now).value;
        var tail := MapItems(rest, now).value;
        assert es == [es[0]] + tail;
        forall i | 0 <= i < |ks|
          ensures es[i].amount == ks[i].amount.n && es[i].category == CategoryOf(ks[i].category)
            && Ok(es[i].description) == DescriptionOf(ks[i].description) && es[i].date == now
        {
          if i > 0 {
            assert es[i] == tail[i - 1] && ks[i] == rest[i - 1];
          }
        }
      }
      if !BadDescription(ks[0]) && exists i :: 0 <= i < |ks| && BadDescription(ks[i]) {
        var i :| 0 <= i < |ks| && BadDescription(ks[i]);
        assert rest[i - 1] == ks[i];
      }
      if exists i :: 0 <= i < |rest| && BadDescription(rest[i]) {
        var i :| 0 <= i < |rest| && BadDescription(rest[i]);
        assert ks[i + 1] == rest[i];
      }
    }
  }

  /**
   * A successful validation offers the first `min(20, kept)` kept items as
   * records, in order: each has an amount strictly between 0 and 10000
   * taken from its item, its item's category or `Other`, a description of
   * at most 50 characters and the upload instant as its date.
   */
  lemma ValidatedItems(items: seq<Item>, now: int)
    requires ValidateItems(items, now).Ok?
    ensures var es, ks := ValidateItems(items, now).value, Kept(items);
      |es| == Min(20, |ks|) && |es| <= 20
      && forall i :: 0 <= i < |es| ==>
        && 0.0 < es[i].amount < 10000.0
        && es[i].amount == ks[i].amount.n
        && es[i].category == CategoryOf(ks[i].category)
        && |es[i].description| <= 50
        && Ok(es[i].description) == DescriptionOf(ks[i].description)
        && es[i].date == now
  {
    MapItemsCorrect(Kept(items), now);
  }

  /**
   * Validation fails exactly when the array holds a `null` (reported first)
   * or a kept item has a bad description, even one beyond the first twenty.
   */
  lemma ValidationFails(items: seq<Item>, now: int)
    ensures ValidateItems(items, now).Err? <==>
      HasNull(items) || exists i :: 0 <= i < |Kept(items)| && BadDescription(Kept(items)[i])
    ensures HasNull(items) ==> ValidateItems(items, now) == Err(ReadOfNull)
    ensures !HasNull(items) && ValidateItems(items, now).Err? ==> ValidateItems(items, now) == Err(NotAString)
  {
    var ks := Kept(items);
    MapItemsCorrect(ks, now);
    if HasNull(items) {
      assert ValidateItems(items, now) == Err(ReadOfNull);
    } else {
      var r := MapItems(ks, now);
      assert r.Err? <==> exists i :: 0 <= i < |ks| && BadDescription(ks[i]);
      if r.Err? {
        assert ValidateItems(items, now) == Err(r.error);
        var i :| 0 <= i < |ks| && BadDescription(ks[i]);
        assert 0 <= i < |Kept(items)| && BadDescription(Kept(items)[i]);
      } else {
        assert ValidateItems(items, now).Ok?;
      }
    }
  }

  /** A category name the app knows is kept as that category. */
  lemma CategoryRoundTrip(c: Category)
    ensures CategoryOf(FStr(CategoryName(c))) == c
  {
  }

  /** Anything that is not one of the six names becomes `Other`. */
  lemma UnknownCategoryIsOther(f: Field)
    requires forall c: Category :: f != FStr(CategoryName(c))
    ensures CategoryOf(f) == Other
  {
    assert f != FStr(CategoryName(Food)) && f != FStr(CategoryName(Transportation))
      && f != FStr(CategoryName(Utilities)) && f != FStr(CategoryName(Entertainment))
      && f != FStr(CategoryName(Healthcare));
  }

  /**
   * What the handler ends with: the errors for an unparsable or non-array
   * reply, the no-expenses message exactly when the array has no `null`
   * and no item passes the filter, and otherwise between 1 and 20 records.
   */
  lemma ReplyOutcomes(reply: Reply, now: int)
    ensures reply.Unparsable? ==> ProcessReply(reply, now) == Failed(InvalidJson)
    ensures reply.NotArray? ==> ProcessReply(reply, now) == Failed(NotAnArray)
    ensures reply.ArrayReply? ==>
      (ProcessReply(reply, now) == NoValidExpenses <==> !HasNull(reply.items) && Kept(reply.items) == [])
    ensures ProcessReply(reply, now).Extracted? ==> 1 <= |ProcessReply(reply, now).expenses| <= 20
  {
    if reply.ArrayReply? {
      MapItemsCorrect(Kept(reply.items), now);
    }
  }
}
