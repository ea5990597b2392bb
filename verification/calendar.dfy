/**
 * The one calendar shared by weekday bucketing, week filtering, month
 * filtering and sorting by date. A JavaScript `Date` is only ever read at
 * day granularity here, so it is modelled by its day number: the count of
 * days since 0001-01-01 of the proleptic Gregorian calendar, which was a
 * Monday.
 */
module Calendar {

  /** A calendar date with a 0-based month, as `getFullYear`/`getMonth`/`getDate` report it. */
  datatype Date = Date(year: int, month0: int, day: int)

  predicate IsLeapYear(y: int) {
    (y % 4 == 0 && y % 100 != 0) || y % 400 == 0
  }

  function DaysInMonth(y: int, m0: int): int
    requires 0 <= m0 < 12
  {
    if m0 == 1 then (if IsLeapYear(y) then 29 else 28)
    else if m0 == 3 || m0 == 5 || m0 == 8 || m0 == 10 then 30
    else 31
  }

  predicate ValidDate(d: Date) {
    0 <= d.month0 < 12 && 1 <= d.day <= DaysInMonth(d.year, d.month0)
  }

  /** A date that exists in the calendar, such as every stored shift date. */
  type CalendarDate = d: Date | ValidDate(d) witness Date(2024, 0, 1)

  /** Days in the years before `y` (from year 1 on). */
  function DaysBeforeYear(y: int): int {
    var p := y - 1;
    365 * p + p / 4 - p / 100 + p / 400
  }

  /** Days in the months of year `y` before month `m0`. */
  function DaysBeforeMonth(y: int, m0: int): int
    requires 0 <= m0 <= 12
  {
    if m0 == 0 then 0 else DaysBeforeMonth(y, m0 - 1) + DaysInMonth(y, m0 - 1)
  }

  /**
   * The day number of a date. Like the `Date(year, month, day)` constructor,
   * a month outside 0..11 rolls over into the year and a day outside the
   * month rolls over into the neighbouring months.
   */
  function DayNumber(d: Date): int {
    var y := d.year + d.month0 / 12;
    DaysBeforeYear(y) + DaysBeforeMonth(y, d.month0 % 12) + d.day - 1
  }

  /** The weekday of a day number, 0 = Monday .. 6 = Sunday. */
  function Weekday(day: int): (w: int)
    ensures 0 <= w < 7
  {
    day % 7
  }

  /** `Date.prototype.getDay`: the weekday counted from Sunday, 0 = Sunday .. 6 = Saturday. */
  function JsDay(day: int): (r: int)
    ensures 0 <= r < 7
    ensures r == 0 <==> Weekday(day) == 6
    ensures Weekday(day) < 6 ==> r == Weekday(day) + 1
  {
    (day + 1) % 7
  }

  /** The next calendar date. */
  function NextDate(d: Date): Date
    requires ValidDate(d)
  {
    if d.day < DaysInMonth(d.year, d.month0) then Date(d.year, d.month0, d.day + 1)
    else if d.month0 < 11 then Date(d.year, d.month0 + 1, 1)
    else Date(d.year + 1, 0, 1)
  }

  /** A whole year has 365 days, 366 in a leap year. */
  lemma DaysInYear(y: int)
    ensures DaysBeforeMonth(y, 12) == if IsLeapYear(y) then 366 else 365
    ensures DaysBeforeYear(y + 1) - DaysBeforeYear(y) == DaysBeforeMonth(y, 12)
  {
    MonthsOfYear(y);
    YearLength(y);
  }

  /** The twelve months add up to 337 days plus February. */
  lemma MonthsOfYear(y: int)
    ensures DaysBeforeMonth(y, 12) == 337 + DaysInMonth(y, 1)
  {
    var feb := DaysInMonth(y, 1);
    assert DaysBeforeMonth(y, 1) == 31;
    assert DaysBeforeMonth(y, 2) == 31 + feb;
    assert DaysBeforeMonth(y, 3) == 62 + feb;
    assert DaysBeforeMonth(y, 4) == 92 + feb;
    assert DaysBeforeMonth(y, 5) == 123 + feb;
    assert DaysBeforeMonth(y, 6) == 153 + feb;
    assert DaysBeforeMonth(y, 7) == 184 + feb;
    assert DaysBeforeMonth(y, 8) == 215 + feb;
    assert DaysBeforeMonth(y, 9) == 245 + feb;
    assert DaysBeforeMonth(y, 10) == 276 + feb;
    assert DaysBeforeMonth(y, 11) == 306 + feb;
    assert DaysBeforeMonth(y, 12) == 337 + feb;
  }

  /** Consecutive year starts are 365 days apart, 366 when the earlier year is a leap year. */
  lemma YearLength(y: int)
    ensures DaysBeforeYear(y + 1) - DaysBeforeYear(y) == if IsLeapYear(y) then 366 else 365
  {
    var p := y - 1;
    MultiplesStep(y);
    assert DaysBeforeYear(y + 1) - DaysBeforeYear(y)
        == 365 + (y / 4 - p / 4) - (y / 100 - p / 100) + (y / 400 - p / 400);
  }

  /** Going from `y - 1` to `y` adds one multiple of 4, 100 or 400 exactly when `y` is one. */
  lemma MultiplesStep(y: int)
    ensures y / 4 == (y - 1) / 4 + (if y % 4 == 0 then 1 else 0)
    ensures y / 100 == (y - 1) / 100 + (if y % 100 == 0 then 1 else 0)
    ensures y / 400 == (y - 1) / 400 + (if y % 400 == 0 then 1 else 0)
  {
  }

  /**
   * Consecutive calendar dates have consecutive day numbers, so day numbers
   * count days and their weekdays cycle Monday to Sunday.
   */
  lemma NextDateIsNextDay(d: Date)
    requires ValidDate(d)
    ensures ValidDate(NextDate(d))
    ensures DayNumber(NextDate(d)) == DayNumber(d) + 1
    ensures Weekday(DayNumber(NextDate(d))) == (Weekday(DayNumber(d)) + 1) % 7
  {
    if d.day < DaysInMonth(d.year, d.month0) {
      NextInMonth(d);
    } else if d.month0 < 11 {
      NextMonthStart(d);
    } else {
      NextYearStart(d);
    }
    WeekdayStep(DayNumber(d));
  }

  /** Within a month, the next date is one day later. */
  lemma NextInMonth(d: Date)
    requires ValidDate(d) && d.day < DaysInMonth(d.year, d.month0)
    ensures NextDate(d) == Date(d.year, d.month0, d.day + 1)
    ensures DayNumber(NextDate(d)) == DayNumber(d) + 1
  {
    DayNumberInYear(d);
    DayNumberInYear(NextDate(d));
  }

  /** After the last day of a month other than December comes the first of the next month. */
  lemma NextMonthStart(d: Date)
    requires ValidDate(d) && d.day == DaysInMonth(d.year, d.month0) && d.month0 < 11
    ensures NextDate(d) == Date(d.year, d.month0 + 1, 1)
    ensures DayNumber(NextDate(d)) == DayNumber(d) + 1
  {
    DayNumberInYear(d);
    DayNumberInYear(NextDate(d));
    assert DaysBeforeMonth(d.year, d.month0 + 1) == DaysBeforeMonth(d.year, d.month0) + DaysInMonth(d.year, d.month0);
  }

  /** After 31 December comes 1 January of the next year. */
  lemma NextYearStart(d: Date)
    requires ValidDate(d) && d.day == DaysInMonth(d.year, d.month0) && d.month0 == 11
    ensures NextDate(d) == Date(d.year + 1, 0, 1)
    ensures DayNumber(NextDate(d)) == DayNumber(d) + 1
  {
    DayNumberInYear(d);
    DayNumberInYear(NextDate(d));
    DaysInYear(d.year);
    assert DaysBeforeMonth(d.year, 12) == DaysBeforeMonth(d.year, 11) + 31;
  }

  /** For a month within the year, the day number needs no roll-over. */
  lemma DayNumberInYear(d: Date)
    requires 0 <= d.month0 < 12
    ensures DayNumber(d) == DaysBeforeYear(d.year) + DaysBeforeMonth(d.year, d.month0) + d.day - 1
  {
    assert d.month0 / 12 == 0 && d.month0 % 12 == d.month0;
  }

  /** The day after a day falls on the next weekday. */
  lemma WeekdayStep(n: int)
    ensures Weekday(n + 1) == (Weekday(n) + 1) % 7
  {
  }

  /**
   * The first day of the week `filterByWeek` computes for a reference day:
   * `getDate() - getDay() + (getDay() === 0 ? -6 : 1)`.
   */
  function WeekStart(ref: int): int {
    var day := JsDay(ref);
    ref - day + (if day == 0 then -6 else 1)
  }

  /** The week start is the Monday on or before the reference day, at most six days earlier. */
  lemma WeekStartIsMonday(ref: int)
    ensures Weekday(WeekStart(ref)) == 0
    ensures WeekStart(ref) <= ref <= WeekStart(ref) + 6
    ensures WeekStart(ref) == ref - Weekday(ref)
  {
  }

  /** A Sunday belongs to the week that began the Monday six days before it. */
  lemma SundayBelongsToPrecedingMonday(ref: int)
    requires Weekday(ref) == 6
    ensures WeekStart(ref) == ref - 6
  {
    WeekStartIsMonday(ref);
  }

  /** A day lies in the seven days from the week start exactly when it is in the same Monday-to-Sunday week. */
  lemma InWeekIffSameWeek(ref: int, x: int)
    ensures WeekStart(ref) <= x <= WeekStart(ref) + 6 <==> x / 7 == ref / 7
  {
    WeekStartIsMonday(ref);
  }

  /** The week of the day seven days earlier is the week right before. */
  lemma WeekBefore(ref: int)
    ensures WeekStart(ref - 7) == WeekStart(ref) - 7
  {
    WeekStartIsMonday(ref);
    WeekStartIsMonday(ref - 7);
  }
}
