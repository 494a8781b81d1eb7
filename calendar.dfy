/**
 * Calendar days and the two JavaScript `Date` constructions the pages use to
 * bound a month: `new Date(y, m - 1, 1)` for its first day and `new Date(y, m, 0)`
 * for its last day. Days-per-month follow the Gregorian rule of section 5.7 and
 * Appendix C of RFC 3339. Time of day and time zones are not modelled: a date is
 * just a (year, month, day) triple.
 */
module Calendar {

  datatype CalendarDate = CalendarDate(year: int, month: int, day: int)

  /** The Gregorian leap-year rule (RFC 3339, Appendix C). */
  predicate IsLeapYear(year: int)
  {
    year % 4 == 0 && (year % 100 != 0 || year % 400 == 0)
  }

  /** Number of days of a month (RFC 3339, section 5.7). */
  function DaysInMonth(year: int, month: int): (n: int)
    requires 1 <= month <= 12
    ensures 28 <= n <= 31
    ensures month == 2 ==> (n == 29 <==> IsLeapYear(year))
  {
    if month == 2 then (if IsLeapYear(year) then 29 else 28)
    else if month == 4 || month == 6 || month == 9 || month == 11 then 30
    else 31
  }

  /** The twelve month lengths add up to the length of the Gregorian year. */
  lemma YearLength(year: int)
    ensures DaysInMonth(year, 1) + DaysInMonth(year, 2) + DaysInMonth(year, 3)
          + DaysInMonth(year, 4) + DaysInMonth(year, 5) + DaysInMonth(year, 6)
          + DaysInMonth(year, 7) + DaysInMonth(year, 8) + DaysInMonth(year, 9)
          + DaysInMonth(year, 10) + DaysInMonth(year, 11) + DaysInMonth(year, 12)
          == if IsLeapYear(year) then 366 else 365
  {
  }

  predicate IsValid(d: CalendarDate)
  {
    1 <= d.month <= 12 && 1 <= d.day <= DaysInMonth(d.year, d.month)
  }

  /** A day that exists in the proleptic Gregorian calendar. */
  type Date = d: CalendarDate | IsValid(d) witness CalendarDate(2000, 1, 1)

  /** Strict chronological order of days. */
  predicate Before(a: CalendarDate, b: CalendarDate)
  {
    a.year < b.year ||
    (a.year == b.year && (a.month < b.month || (a.month == b.month && a.day < b.day)))
  }

  /** `a <= b` chronologically, for the inclusive bounds of a date range. */
  predicate NotAfter(a: CalendarDate, b: CalendarDate)
  {
    !Before(b, a)
  }

  /** The year the `Date` constructor actually uses: 0 to 99 are read as 1900 to 1999. */
  function JsYear(year: int): int
  {
    if 0 <= year <= 99 then 1900 + year else year
  }

  /**
   * `new Date(year, monthIndex, 1)` for an already converted year: a month index
   * outside 0..11 rolls over into neighbouring years.
   */
  function FirstOfMonth(year: int, monthIndex: int): (d: Date)
    ensures d.day == 1
    ensures d.year * 12 + (d.month - 1) == year * 12 + monthIndex
  {
    CalendarDate(year + monthIndex / 12, monthIndex % 12 + 1, 1)
  }

  /** Day 0 of a month in the `Date` constructor: the day immediately before `d`. */
  function DayBefore(d: Date): (r: Date)
    ensures Before(r, d)
    ensures forall e: Date :: Before(r, e) ==> NotAfter(d, e)
  {
    if d.day > 1 then CalendarDate(d.year, d.month, d.day - 1)
    else if d.month > 1 then CalendarDate(d.year, d.month - 1, DaysInMonth(d.year, d.month - 1))
    else CalendarDate(d.year - 1, 12, 31)
  }

  /** Start of the range for month `month` of `year` (1-based): `new Date(year, month - 1, 1)`. */
  function MonthStart(year: int, month: int): Date
  {
    FirstOfMonth(JsYear(year), month - 1)
  }

  /** End of the range for month `month` of `year`: `new Date(year, month, 0)`. */
  function MonthEnd(year: int, month: int): Date
  {
    DayBefore(FirstOfMonth(JsYear(year), month))
  }

  /**
   * The day-0 construction lands on the last day of the month that starts the
   * range, in the same year: no month is cut short and December does not spill
   * into the next year.
   */
  lemma MonthEndIsLastDay(year: int, month: int)
    ensures var s := MonthStart(year, month);
            MonthEnd(year, month) == CalendarDate(s.year, s.month, DaysInMonth(s.year, s.month))
  {
    var q, r := (month - 1) / 12, (month - 1) % 12;
    assert month == 12 * q + r + 1;
    if r < 11 {
      assert month / 12 == q && month % 12 == r + 1;
    } else {
      assert month / 12 == q + 1 && month % 12 == 0;
    }
  }

  /** A row's date lies in the inclusive range exactly when it is a day of that month. */
  lemma InMonthRange(year: int, month: int, d: Date)
    ensures var s := MonthStart(year, month);
            (NotAfter(s, d) && NotAfter(d, MonthEnd(year, month))) <==> (d.year == s.year && d.month == s.month)
  {
    MonthEndIsLastDay(year, month);
  }

  /** A leap February ends on the 29th (2024-02 gives 2024-02-29). */
  lemma LeapFebruaryEnd()
    ensures MonthEnd(2024, 2) == CalendarDate(2024, 2, 29)
  {
    assert FirstOfMonth(2024, 2) == CalendarDate(2024, 3, 1);
    assert IsLeapYear(2024) && DaysInMonth(2024, 2) == 29;
  }

  /**
   * December ends on December 31 of the same year (the year as the constructor
   * reads it), not in the next year.
   */
  lemma DecemberEnd(year: int)
    ensures MonthEnd(year, 12) == CalendarDate(JsYear(year), 12, 31)
  {
    assert FirstOfMonth(JsYear(year), 12) == CalendarDate(JsYear(year) + 1, 1, 1);
  }
}
