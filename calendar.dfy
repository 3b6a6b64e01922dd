/**
 * Local calendar arithmetic. An instant is an integer count of milliseconds of
 * local wall-clock time since 1970-01-01 00:00 (time zones and daylight saving
 * are not modelled, so every day has exactly MsPerDay milliseconds).
 * Days are counted from 1970-01-01 (day 0) in the proleptic Gregorian calendar.
 */
module Calendar {

  /** Milliseconds in a day: `1000 * 60 * 60 * 24`. */
  const MsPerDay: int := 86_400_000

  /** The local calendar day an instant falls on (what `toDateString` keeps). */
  function DayOf(t: int): (d: int)
    ensures d * MsPerDay <= t < d * MsPerDay + MsPerDay
  {
    t / MsPerDay
  }

  /** Local midnight of day `d` (what `new Date(date.toDateString())` gives back). */
  function Midnight(d: int): int { d * MsPerDay }

  /** Going from a day to its midnight and back gives the same day. */
  lemma MidnightRoundTrip(d: int)
    ensures DayOf(Midnight(d)) == d
  {
  }

  /** The whole days between two midnights are the difference of their day numbers. */
  lemma MidnightSpan(a: int, b: int)
    ensures (Midnight(b) - Midnight(a)) / MsPerDay == b - a
  {
    assert Midnight(b) - Midnight(a) == (b - a) * MsPerDay;
  }

  predicate IsLeapYear(y: int) {
    (y % 4 == 0 && y % 100 != 0) || y % 400 == 0
  }

  function DaysInYear(y: int): (n: int)
    ensures n == 365 || n == 366
  {
    if IsLeapYear(y) then 366 else 365
  }

  function DaysInMonth(y: int, m: int): (n: int)
    requires 1 <= m <= 12
    ensures 28 <= n <= 31
  {
    if m == 2 then (if IsLeapYear(y) then 29 else 28)
    else if m == 4 || m == 6 || m == 9 || m == 11 then 30
    else 31
  }

  /**
   * The year holding the day that lies `d` days after 1 January of year `y`,
   * paired with that day's offset within its year.
   */
  function YearAndOffset(d: int, y: int): (r: (int, int))
    ensures 0 <= r.1 < DaysInYear(r.0)
    decreases if d < 0 then 1 else 0, if d < 0 then -d else d
  {
    if d < 0 then YearAndOffset(d + DaysInYear(y - 1), y - 1)
    else if d >= DaysInYear(y) then YearAndOffset(d - DaysInYear(y), y + 1)
    else (y, d)
  }

  /** The month (from `m` on) holding day `doy` of year `y`, counting `doy` from month `m`'s first day. */
  function MonthFrom(y: int, doy: int, m: int): (r: int)
    requires 1 <= m <= 12
    ensures m <= r <= 12
    decreases 12 - m
  {
    if m == 12 || doy < DaysInMonth(y, m) then m
    else MonthFrom(y, doy - DaysInMonth(y, m), m + 1)
  }

  /** A calendar month: `getFullYear()` and `getMonth() + 1`. */
  datatype YearMonth = YearMonth(year: int, month: int)

  /** The year and month of a day number. */
  function CivilMonth(day: int): (ym: YearMonth)
    ensures 1 <= ym.month <= 12
  {
    var (y, doy) := YearAndOffset(day, 1970);
    YearMonth(y, MonthFrom(y, doy, 1))
  }

  /**
   * The `YYYY-MM` grouping key, written as the number of months since
   * January of year 0.
   */
  function MonthIndex(ym: YearMonth): int {
    ym.year * 12 + ym.month - 1
  }

  /** The month index of the local calendar month an instant falls in. */
  function MonthOfInstant(t: int): int {
    MonthIndex(CivilMonth(DayOf(t)))
  }

  /** Year and month can be read back from the month index. */
  lemma MonthIndexRoundTrip(ym: YearMonth)
    requires 1 <= ym.month <= 12
    ensures MonthIndex(ym) / 12 == ym.year && MonthIndex(ym) % 12 + 1 == ym.month
  {
  }

  /**
   * Two instants have the same month index exactly when both their year and
   * their month agree (the `getMonth() ===` and `getFullYear() ===` test).
   */
  lemma SameMonthIndex(s: int, t: int)
    ensures MonthOfInstant(s) == MonthOfInstant(t)
        <==> CivilMonth(DayOf(s)).year == CivilMonth(DayOf(t)).year
             && CivilMonth(DayOf(s)).month == CivilMonth(DayOf(t)).month
  {
    var a, b := CivilMonth(DayOf(s)), CivilMonth(DayOf(t));
    MonthIndexRoundTrip(a);
    MonthIndexRoundTrip(b);
  }

  // ----- The inverse: counting days up to a month -----

  /** The day number of 1 January of year `y`. */
  function YearStart(y: int): int
    decreases if y >= 1970 then y - 1970 else 1970 - y
  {
    if y == 1970 then 0
    else if y > 1970 then YearStart(y - 1) + DaysInYear(y - 1)
    else YearStart(y + 1) - DaysInYear(y)
  }

  /** The days of year `y` before the first of month `m`. */
  function MonthStart(y: int, m: int): int
    requires 1 <= m <= 12
  {
    if m == 1 then 0 else MonthStart(y, m - 1) + DaysInMonth(y, m - 1)
  }

  /** The day number of the first day of month `m` of year `y`. */
  function DaysBefore(y: int, m: int): int
    requires 1 <= m <= 12
  {
    YearStart(y) + MonthStart(y, m)
  }

  /** Every year starts where the one before it ends. */
  lemma YearStartStep(y: int)
    ensures YearStart(y + 1) == YearStart(y) + DaysInYear(y)
  {
  }

  /** December ends the year. */
  lemma YearEnd(y: int)
    ensures MonthStart(y, 12) + DaysInMonth(y, 12) == DaysInYear(y)
  {
    var f := if IsLeapYear(y) then 1 else 0;
    assert MonthStart(y, 2) == 31;
    assert MonthStart(y, 3) == 59 + f;
    assert MonthStart(y, 4) == 90 + f;
    assert MonthStart(y, 5) == 120 + f;
    assert MonthStart(y, 6) == 151 + f;
    assert MonthStart(y, 7) == 181 + f;
    assert MonthStart(y, 8) == 212 + f;
    assert MonthStart(y, 9) == 243 + f;
    assert MonthStart(y, 10) == 273 + f;
    assert MonthStart(y, 11) == 304 + f;
    assert MonthStart(y, 12) == 334 + f;
  }

  /** Peeling whole years off a day count keeps the day it denotes. */
  lemma {:induction false} YearAndOffsetCorrect(d: int, y: int)
    ensures YearStart(YearAndOffset(d, y).0) + YearAndOffset(d, y).1 == YearStart(y) + d
    decreases if d < 0 then 1 else 0, if d < 0 then -d else d
  {
    if d < 0 {
      YearStartStep(y - 1);
      YearAndOffsetCorrect(d + DaysInYear(y - 1), y - 1);
    } else if d >= DaysInYear(y) {
      YearStartStep(y);
      YearAndOffsetCorrect(d - DaysInYear(y), y + 1);
    }
  }

  /** Peeling whole months off a day of the year stops at the month holding it. */
  lemma {:induction false} MonthFromCorrect(y: int, doy: int, m: int)
    requires 1 <= m <= 12 && 0 <= doy && MonthStart(y, m) + doy < DaysInYear(y)
    ensures var r := MonthFrom(y, doy, m);
      MonthStart(y, r) <= MonthStart(y, m) + doy < MonthStart(y, r) + DaysInMonth(y, r)
    decreases 12 - m
  {
    if m == 12 {
      YearEnd(y);
    } else if doy >= DaysInMonth(y, m) {
      MonthFromCorrect(y, doy - DaysInMonth(y, m), m + 1);
    }
  }

  /**
   * `CivilMonth` is the Gregorian calendar: the day lies in the month it
   * names, between that month's first day and the next month's.
   */
  lemma CivilMonthCorrect(day: int)
    ensures var ym := CivilMonth(day);
      DaysBefore(ym.year, ym.month) <= day < DaysBefore(ym.year, ym.month) + DaysInMonth(ym.year, ym.month)
  {
    var (y, doy) := YearAndOffset(day, 1970);
    YearAndOffsetCorrect(day, 1970);
    MonthFromCorrect(y, doy, 1);
  }

  /** A month's last day is followed by the first day of the next month. */
  lemma NextMonthStart(y: int, m: int)
    requires 1 <= m <= 12
    ensures DaysBefore(y, m) + DaysInMonth(y, m)
         == if m == 12 then DaysBefore(y + 1, 1) else DaysBefore(y, m + 1)
  {
    if m == 12 {
      YearEnd(y);
      YearStartStep(y);
    }
  }

  /** Months of higher index start after earlier months have ended. */
  lemma {:induction false} LaterMonthStartsLater(a: YearMonth, b: YearMonth)
    requires 1 <= a.month <= 12 && 1 <= b.month <= 12 && MonthIndex(a) < MonthIndex(b)
    ensures DaysBefore(a.year, a.month) + DaysInMonth(a.year, a.month) <= DaysBefore(b.year, b.month)
    decreases MonthIndex(b) - MonthIndex(a)
  {
    var n := if a.month == 12 then YearMonth(a.year + 1, 1) else YearMonth(a.year, a.month + 1);
    NextMonthStart(a.year, a.month);
    assert MonthIndex(n) == MonthIndex(a) + 1;
    if MonthIndex(n) == MonthIndex(b) {
      MonthIndexRoundTrip(n);
      MonthIndexRoundTrip(b);
    } else {
      LaterMonthStartsLater(n, b);
    }
  }

  /** Conversely, the month whose days hold `day` is the one `CivilMonth` names. */
  lemma CivilMonthUnique(day: int, ym: YearMonth)
    requires 1 <= ym.month <= 12
    requires DaysBefore(ym.year, ym.month) <= day < DaysBefore(ym.year, ym.month) + DaysInMonth(ym.year, ym.month)
    ensures CivilMonth(day) == ym
  {
    var c := CivilMonth(day);
    CivilMonthCorrect(day);
    if MonthIndex(c) < MonthIndex(ym) {
      LaterMonthStartsLater(c, ym);
    } else if MonthIndex(ym) < MonthIndex(c) {
      LaterMonthStartsLater(ym, c);
    } else {
      MonthIndexRoundTrip(c);
      MonthIndexRoundTrip(ym);
    }
  }

  /** Day 59 is 1 March 1970, and day -1 is 31 December 1969. */
  lemma CivilMonthExamples()
    ensures CivilMonth(58) == YearMonth(1970, 2)
    ensures CivilMonth(59) == YearMonth(1970, 3)
    ensures CivilMonth(-1) == YearMonth(1969, 12)
  {
    assert MonthStart(1970, 3) == 59;
    CivilMonthUnique(58, YearMonth(1970, 2));
    CivilMonthUnique(59, YearMonth(1970, 3));
    YearEnd(1969);
    assert YearStart(1969) == -365;
    CivilMonthUnique(-1, YearMonth(1969, 12));
  }

  /** Ascending month index is ascending (year, month) order. */
  lemma MonthIndexOrder(a: YearMonth, b: YearMonth)
    requires 1 <= a.month <= 12 && 1 <= b.month <= 12
    ensures MonthIndex(a) < MonthIndex(b)
        <==> a.year < b.year || (a.year == b.year && a.month < b.month)
  {
  }
}
