/**
 * Proleptic Gregorian dates and instants as Python's `datetime` has them
 * (years 1 to 9999, microsecond resolution), the calendar-month addition
 * that `dateutil.relativedelta(months=+n)` performs, and the integer
 * timestamp (`Ticks`) under which the rest of the model compares times.
 */
module Calendar {
  import opened Wrappers

  const MinYear := 1
  const MaxYear := 9999
  const MicrosPerDay := 86_400_000_000

  datatype Date = Date(year: int, month: int, day: int)

  /** A point in time: a civil date and the microsecond within that day. */
  datatype Instant = Instant(date: Date, micros: int)

  predicate IsLeapYear(y: int)
  {
    y % 4 == 0 && (y % 100 != 0 || y % 400 == 0)
  }

  function DaysInMonth(y: int, m: int): (n: int)
    requires 1 <= m <= 12
    ensures 28 <= n <= 31
    ensures n == 29 <==> m == 2 && IsLeapYear(y)
  {
    if m == 2 then (if IsLeapYear(y) then 29 else 28)
    else if m == 4 || m == 6 || m == 9 || m == 11 then 30
    else 31
  }

  /** The dates `datetime.date` accepts. */
  predicate ValidDate(d: Date)
  {
    MinYear <= d.year <= MaxYear && 1 <= d.month <= 12 && 1 <= d.day <= DaysInMonth(d.year, d.month)
  }

  predicate ValidInstant(i: Instant)
  {
    ValidDate(i.date) && 0 <= i.micros < MicrosPerDay
  }

  /** The date order, lexicographic on (year, month, day). */
  predicate DateBefore(a: Date, b: Date)
  {
    a.year < b.year || (a.year == b.year && (a.month < b.month || (a.month == b.month && a.day < b.day)))
  }

  predicate InstantBefore(a: Instant, b: Instant)
  {
    DateBefore(a.date, b.date) || (a.date == b.date && a.micros < b.micros)
  }

  /** The number of whole months from January of year 0 to the date's month. */
  function MonthIndex(d: Date): int
  {
    d.year * 12 + (d.month - 1)
  }

  function Min(a: int, b: int): int
  {
    if a <= b then a else b
  }

  /**
   * `date + relativedelta(months=+n)`: move n calendar months (backwards when
   * n < 0) and clamp the day to the length of the target month. A target year
   * outside 1..9999 makes `datetime.replace` raise, modelled as `None`.
   */
  function AddMonths(d: Date, n: int): (r: Option<Date>)
    requires ValidDate(d)
    ensures r.None? <==> MonthIndex(d) + n < MinYear * 12 || MonthIndex(d) + n >= (MaxYear + 1) * 12
    ensures r.Some? ==> ValidDate(r.value) && MonthIndex(r.value) == MonthIndex(d) + n
    ensures r.Some? ==> r.value.day <= d.day
    ensures r.Some? && d.day <= DaysInMonth(r.value.year, r.value.month) ==> r.value.day == d.day
    ensures r.Some? && d.day > DaysInMonth(r.value.year, r.value.month) ==>
              r.value.day == DaysInMonth(r.value.year, r.value.month)
  {
    var k := MonthIndex(d) + n;
    var y := k / 12;
    var m := k % 12 + 1;
    if k < MinYear * 12 || y > MaxYear then None
    else Some(Date(y, m, Min(d.day, DaysInMonth(y, m))))
  }

  /** The same addition on an instant: the time of day is kept. */
  function AddMonthsInstant(i: Instant, n: int): (r: Option<Instant>)
    requires ValidInstant(i)
    ensures r.Some? ==> ValidInstant(r.value) && r.value.micros == i.micros
    ensures r.Some? <==> AddMonths(i.date, n).Some?
    ensures r.Some? ==> r.value.date == AddMonths(i.date, n).value
  {
    match AddMonths(i.date, n)
    case None => None
    case Some(d) => Some(Instant(d, i.micros))
  }

  /** Adding a positive number of months always lands on a later date. */
  lemma AddMonthsIsLater(d: Date, n: int)
    requires ValidDate(d) && n > 0 && AddMonths(d, n).Some?
    ensures DateBefore(d, AddMonths(d, n).value)
  {
    var r := AddMonths(d, n).value;
    assert MonthIndex(r) > MonthIndex(d);
    if r.year == d.year {
      assert r.month > d.month;
    } else {
      assert r.year > d.year;
    }
  }

  /** Month clamping makes the addition non-associative: Jan 31 + 1 + 1 is Mar 28, Jan 31 + 2 is Mar 31. */
  lemma AddMonthsDoesNotCompose()
    ensures AddMonths(Date(2025, 1, 31), 1) == Some(Date(2025, 2, 28))
    ensures AddMonths(Date(2025, 2, 28), 1) == Some(Date(2025, 3, 28))
    ensures AddMonths(Date(2025, 1, 31), 2) == Some(Date(2025, 3, 31))
  {
  }

  function YearLength(y: int): int
  {
    if IsLeapYear(y) then 366 else 365
  }

  /** Days from 0001-01-01 to January 1st of year y. */
  function DaysBeforeYear(y: int): nat
    decreases y
  {
    if y <= MinYear then 0 else DaysBeforeYear(y - 1) + YearLength(y - 1)
  }

  /** Days from January 1st to the first day of month m of year y. */
  function DaysBeforeMonth(y: int, m: int): nat
    requires 1 <= m <= 12
  {
    [0, 31, 59, 90, 120, 151, 181, 212, 243, 273, 304, 334][m - 1]
    + (if m > 2 && IsLeapYear(y) then 1 else 0)
  }

  /** The proleptic Gregorian ordinal, counted from 0 (`date.toordinal() - 1`). */
  function Ordinal(d: Date): int
    requires ValidDate(d)
  {
    DaysBeforeYear(d.year) + DaysBeforeMonth(d.year, d.month) + d.day - 1
  }

  /** The integer timestamp of an instant, in microseconds. */
  function Ticks(i: Instant): int
    requires ValidInstant(i)
  {
    Ordinal(i.date) * MicrosPerDay + i.micros
  }

  lemma MonthFitsInYear(y: int, m: int)
    requires 1 <= m <= 12
    ensures DaysBeforeMonth(y, m) + DaysInMonth(y, m) <= YearLength(y)
    ensures m < 12 ==> DaysBeforeMonth(y, m) + DaysInMonth(y, m) <= DaysBeforeMonth(y, m + 1)
  {
  }

  lemma {:induction false} DaysBeforeMonthMonotone(y: int, m1: int, m2: int)
    requires 1 <= m1 < m2 <= 12
    ensures DaysBeforeMonth(y, m1) + DaysInMonth(y, m1) <= DaysBeforeMonth(y, m2)
    decreases m2
  {
    MonthFitsInYear(y, m2 - 1);
    if m1 < m2 - 1 {
      DaysBeforeMonthMonotone(y, m1, m2 - 1);
    }
  }

  lemma {:induction false} DaysBeforeYearMonotone(y1: int, y2: int)
    requires MinYear <= y1 < y2
    ensures DaysBeforeYear(y1) + YearLength(y1) <= DaysBeforeYear(y2)
    decreases y2
  {
    if y1 < y2 - 1 {
      DaysBeforeYearMonotone(y1, y2 - 1);
    }
  }

  /** The ordinal is strictly increasing in the date order. */
  lemma OrdinalMonotone(a: Date, b: Date)
    requires ValidDate(a) && ValidDate(b) && DateBefore(a, b)
    ensures Ordinal(a) < Ordinal(b)
  {
    MonthFitsInYear(a.year, a.month);
    if a.year < b.year {
      DaysBeforeYearMonotone(a.year, b.year);
    } else if a.month < b.month {
      DaysBeforeMonthMonotone(a.year, a.month, b.month);
    }
  }

  /** Timestamps order instants exactly as the calendar does, in both directions. */
  lemma TicksOrder(a: Instant, b: Instant)
    requires ValidInstant(a) && ValidInstant(b)
    ensures InstantBefore(a, b) <==> Ticks(a) < Ticks(b)
  {
    if DateBefore(a.date, b.date) {
      OrdinalMonotone(a.date, b.date);
    } else if DateBefore(b.date, a.date) {
      OrdinalMonotone(b.date, a.date);
    } else {
      assert a.date == b.date;
    }
  }

  /** An instant n > 0 calendar months on has a strictly larger timestamp. */
  lemma AddMonthsAdvancesTicks(i: Instant, n: int)
    requires ValidInstant(i) && n > 0 && AddMonthsInstant(i, n).Some?
    ensures Ticks(i) < Ticks(AddMonthsInstant(i, n).value)
  {
    AddMonthsIsLater(i.date, n);
    TicksOrder(i, AddMonthsInstant(i, n).value);
  }
}
