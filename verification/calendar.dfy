/**
 * The part of `java.time.LocalDate` the exercise queries rely on:
 * `LocalDate.of`, `plusMonths`, `plusYears`, `minusDays(1)`, the
 * chronological order, and the ISO (proleptic Gregorian) month lengths.
 * A failure of any of these is Java's `DateTimeException`, here `None`.
 */
module Calendar {
  import opened Wrappers

  /** The year range `LocalDate` supports (`Year.MIN_VALUE`, `Year.MAX_VALUE`). */
  const MIN_YEAR: int := -999_999_999
  const MAX_YEAR: int := 999_999_999

  datatype Date = Date(year: int, month: int, day: int)

  /** The Gregorian rule: every fourth year, except centuries not divisible by 400. */
  predicate IsLeapYear(year: int) {
    year % 4 == 0 && (year % 100 != 0 || year % 400 == 0)
  }

  /** `Month.length(leapYear)`: the number of days in a month of a given year. */
  function LengthOfMonth(year: int, month: int): (n: int)
    requires 1 <= month <= 12
    ensures 28 <= n <= 31
  {
    if month == 2 then (if IsLeapYear(year) then 29 else 28)
    else if month == 4 || month == 6 || month == 9 || month == 11 then 30
    else 31
  }

  /** The days of February, April, June, September and November, and of the 31-day months. */
  lemma LengthOfMonthCases(year: int, month: int)
    requires 1 <= month <= 12
    ensures month == 2 && IsLeapYear(year) <==> LengthOfMonth(year, month) == 29
    ensures month == 2 && !IsLeapYear(year) <==> LengthOfMonth(year, month) == 28
    ensures month in {4, 6, 9, 11} <==> LengthOfMonth(year, month) == 30
    ensures month in {1, 3, 5, 7, 8, 10, 12} <==> LengthOfMonth(year, month) == 31
  {
  }

  /** A date `LocalDate` can represent. */
  predicate IsValid(d: Date) {
    && MIN_YEAR <= d.year <= MAX_YEAR
    && 1 <= d.month <= 12
    && 1 <= d.day <= LengthOfMonth(d.year, d.month)
  }

  /** The dates a `LocalDate` can hold: a Java `LocalDate` is always a real calendar day. */
  type LocalDate = d: Date | IsValid(d) witness Date(2000, 1, 1)

  /** `LocalDate.of(year, month, day)`: the date, or `None` where Java throws. */
  function DateOf(year: int, month: int, day: int): (r: Option<LocalDate>)
    ensures r.Some? <==> IsValid(Date(year, month, day))
    ensures r.Some? ==> r.value == Date(year, month, day)
  {
    if !(MIN_YEAR <= year <= MAX_YEAR) then None
    else if !(1 <= month <= 12) then None
    else if !(1 <= day <= 31) then None
    else if day > 28 && day > LengthOfMonth(year, month) then None
    else Some(Date(year, month, day))
  }

  /** `isBefore`: chronological order, year first, then month, then day. */
  predicate IsBefore(a: Date, b: Date) {
    || a.year < b.year
    || (a.year == b.year && a.month < b.month)
    || (a.year == b.year && a.month == b.month && a.day < b.day)
  }

  /** `!a.isAfter(b)`, the order SQL `BETWEEN` applies to both of its bounds. */
  predicate NotAfter(a: Date, b: Date) {
    IsBefore(a, b) || a == b
  }

  /**
   * `resolvePreviousValid`: the day of the month clamped to the month's
   * length, as `plusMonths` and `plusYears` do.
   */
  function ResolvePreviousValid(year: int, month: int, day: int): (d: Date)
    requires 1 <= month <= 12 && 1 <= day
  {
    Date(year, month, if day <= LengthOfMonth(year, month) then day else LengthOfMonth(year, month))
  }

  /**
   * `plusMonths(n)`: months counted from year 0, shifted, and split back with
   * `Math.floorDiv`/`Math.floorMod` by 12 (for a positive divisor these are
   * Dafny's `/` and `%`); fails when the new year leaves the supported range.
   */
  function PlusMonths(d: LocalDate, n: int): (r: Option<LocalDate>)
  {
    if n == 0 then Some(d)
    else
      var monthCount := d.year * 12 + (d.month - 1);
      var calcMonths := monthCount + n;
      var newYear := calcMonths / 12;
      if !(MIN_YEAR <= newYear <= MAX_YEAR) then None
      else Some(ResolvePreviousValid(newYear, calcMonths % 12 + 1, d.day))
  }

  /** `plusYears(n)`: the same month and day n years on, 29 February clamped to the 28th. */
  function PlusYears(d: LocalDate, n: int): (r: Option<LocalDate>)
  {
    if n == 0 then Some(d)
    else if !(MIN_YEAR <= d.year + n <= MAX_YEAR) then None
    else Some(ResolvePreviousValid(d.year + n, d.month, d.day))
  }

  /** `minusDays(1)`: the calendar day before, failing only before 1 January of `MIN_YEAR`. */
  function MinusOneDay(d: LocalDate): (r: Option<LocalDate>)
    ensures r.None? <==> d == Date(MIN_YEAR, 1, 1)
    ensures r.Some? ==> IsBefore(r.value, d)
  {
    if d.day > 1 then Some(Date(d.year, d.month, d.day - 1))
    else if d.month > 1 then Some(Date(d.year, d.month - 1, LengthOfMonth(d.year, d.month - 1)))
    else if d.year > MIN_YEAR then Some(Date(d.year - 1, 12, 31))
    else None
  }

  /**
   * `minusDays(1)` yields the immediate predecessor: no valid date lies
   * strictly between the result and `d`.
   */
  lemma MinusOneDayIsPredecessor(d: LocalDate)
    ensures MinusOneDay(d).Some? ==>
      forall x :: IsValid(x) && IsBefore(MinusOneDay(d).value, x) ==> !IsBefore(x, d)
  {
  }

  /** `plusMonths(1)` moves to the next month, clamping the day; only December of `MAX_YEAR` fails. */
  lemma PlusOneMonth(d: LocalDate)
    ensures PlusMonths(d, 1).None? <==> d.year == MAX_YEAR && d.month == 12
    ensures d.month < 12 ==> PlusMonths(d, 1) == Some(ResolvePreviousValid(d.year, d.month + 1, d.day))
    ensures d.month == 12 && d.year < MAX_YEAR ==> PlusMonths(d, 1) == Some(Date(d.year + 1, 1, d.day))
  {
  }

  /** The last day of a month. */
  function EndOfMonth(year: int, month: int): Date
    requires 1 <= month <= 12
  {
    Date(year, month, LengthOfMonth(year, month))
  }

  /**
   * `of(y, m, 1).plusMonths(1).minusDays(1)` is the last day of month m:
   * day 28, 29, 30 or 31 as the month and the leap-year rule say. It fails
   * only for December of `MAX_YEAR`, where `plusMonths` leaves the range.
   */
  lemma MonthBounds(year: int, month: int)
    requires DateOf(year, month, 1).Some?
    ensures var next := PlusMonths(DateOf(year, month, 1).value, 1);
      && (next.None? <==> year == MAX_YEAR && month == 12)
      && (next.Some? ==> MinusOneDay(next.value) == Some(EndOfMonth(year, month)))
    ensures IsValid(EndOfMonth(year, month)) && NotAfter(Date(year, month, 1), EndOfMonth(year, month))
  {
  }

  /**
   * `of(y, 1, 1).plusYears(1).minusDays(1)` is 31 December of y; it fails
   * only for `MAX_YEAR`.
   */
  lemma YearBounds(year: int)
    requires DateOf(year, 1, 1).Some?
    ensures var next := PlusYears(DateOf(year, 1, 1).value, 1);
      && (next.None? <==> year == MAX_YEAR)
      && (next.Some? ==> MinusOneDay(next.value) == Some(Date(year, 12, 31)))
  {
  }
}
