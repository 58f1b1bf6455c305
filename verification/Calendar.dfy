/** The proleptic Gregorian calendar the settlement and the contract ledger count in.

    A date is a year-month-day triple. `DayNumber` places it on a line of days (day 1 is
    Monday 1 January of year 1), so "how many days between" is a subtraction and the weekday
    is a remainder. Years are unbounded. */
module Calendar {

  datatype Date = Date(year: int, month: int, day: int)

  predicate IsLeap(year: int) {
    year % 4 == 0 && (year % 100 != 0 || year % 400 == 0)
  }

  function DaysInMonth(year: int, month: int): int {
    if month == 2 then (if IsLeap(year) then 29 else 28)
    else if month == 4 || month == 6 || month == 9 || month == 11 then 30
    else 31
  }

  predicate Valid(d: Date) {
    1 <= d.month <= 12 && 1 <= d.day <= DaysInMonth(d.year, d.month)
  }

  type NaiveDate = d: Date | Valid(d) witness Date(1970, 1, 1)

  /** Chronological order, read off the triple. */
  predicate Before(a: NaiveDate, b: NaiveDate) {
    || a.year < b.year
    || (a.year == b.year && a.month < b.month)
    || (a.year == b.year && a.month == b.month && a.day < b.day)
  }

  predicate AtOrBefore(a: NaiveDate, b: NaiveDate) {
    a == b || Before(a, b)
  }

  function Later(a: NaiveDate, b: NaiveDate): NaiveDate {
    if AtOrBefore(a, b) then b else a
  }

  // ---- The line of days --------------------------------------------------

  function DaysBeforeYear(year: int): int {
    365 * (year - 1) + (year - 1) / 4 - (year - 1) / 100 + (year - 1) / 400
  }

  /** Days of a common year that precede the month. */
  function CommonDaysBeforeMonth(month: int): int {
    if month <= 1 then 0
    else if month == 2 then 31
    else if month == 3 then 59
    else if month == 4 then 90
    else if month == 5 then 120
    else if month == 6 then 151
    else if month == 7 then 181
    else if month == 8 then 212
    else if month == 9 then 243
    else if month == 10 then 273
    else if month == 11 then 304
    else 334
  }

  function LeapDay(year: int): int {
    if IsLeap(year) then 1 else 0
  }

  function DayOfYear(d: NaiveDate): int {
    CommonDaysBeforeMonth(d.month) + (if d.month > 2 then LeapDay(d.year) else 0) + d.day
  }

  function DayNumber(d: NaiveDate): int {
    DaysBeforeYear(d.year) + DayOfYear(d)
  }

  lemma YearLength(year: int)
    ensures DaysBeforeYear(year + 1) == DaysBeforeYear(year) + 365 + LeapDay(year)
  {
    assert year / 4 - (year - 1) / 4 == if year % 4 == 0 then 1 else 0;
    assert year / 100 - (year - 1) / 100 == if year % 100 == 0 then 1 else 0;
    assert year / 400 - (year - 1) / 400 == if year % 400 == 0 then 1 else 0;
  }

  lemma {:induction false} YearsAdvance(y: int, z: int)
    requires y <= z
    ensures DaysBeforeYear(z) >= DaysBeforeYear(y) + 365 * (z - y)
    decreases z - y
  {
    if y < z {
      YearsAdvance(y, z - 1);
      YearLength(z - 1);
    }
  }

  lemma DayOfYearFits(d: NaiveDate)
    ensures 1 <= DayOfYear(d) <= 365 + LeapDay(d.year)
  {
  }

  lemma BeforeIsSmaller(a: NaiveDate, b: NaiveDate)
    requires Before(a, b)
    ensures DayNumber(a) < DayNumber(b)
  {
    if a.year < b.year {
      YearLength(a.year);
      YearsAdvance(a.year + 1, b.year);
      DayOfYearFits(a);
      DayOfYearFits(b);
    }
  }

  /** The order on triples is the order on the line of days, and a date is determined by its
      day number. */
  lemma OrderIsDayNumberOrder(a: NaiveDate, b: NaiveDate)
    ensures Before(a, b) <==> DayNumber(a) < DayNumber(b)
    ensures AtOrBefore(a, b) <==> DayNumber(a) <= DayNumber(b)
    ensures a == b <==> DayNumber(a) == DayNumber(b)
  {
    if Before(a, b) {
      BeforeIsSmaller(a, b);
    } else if a != b {
      BeforeIsSmaller(b, a);
    }
  }

  // ---- Neighbouring days -------------------------------------------------

  function Succ(d: NaiveDate): NaiveDate {
    if d.day < DaysInMonth(d.year, d.month) then Date(d.year, d.month, d.day + 1)
    else if d.month < 12 then Date(d.year, d.month + 1, 1)
    else Date(d.year + 1, 1, 1)
  }

  function Pred(d: NaiveDate): NaiveDate {
    if d.day > 1 then Date(d.year, d.month, d.day - 1)
    else if d.month > 1 then Date(d.year, d.month - 1, DaysInMonth(d.year, d.month - 1))
    else Date(d.year - 1, 12, 31)
  }

  lemma SuccIsNextDay(d: NaiveDate)
    ensures DayNumber(Succ(d)) == DayNumber(d) + 1
  {
    YearLength(d.year);
  }

  lemma PredIsPreviousDay(d: NaiveDate)
    ensures DayNumber(Pred(d)) == DayNumber(d) - 1
    ensures Succ(Pred(d)) == d
  {
    hide DaysBeforeYear;
    YearLength(d.year - 1);
  }

  // ---- Anniversaries -----------------------------------------------------

  /** The day `years` anniversaries after `start`; a 29 February start falls on 1 March in a
      year without one. */
  function Anniversary(start: NaiveDate, years: int): NaiveDate {
    var d := Date(start.year + years, start.month, start.day);
    if Valid(d) then d else Date(start.year + years, 3, 1)
  }

  /** An anniversary is the start's own month and day, that many years on, or the first of March when
      the start is a 29 February and the year has none. */
  lemma AnniversaryFallsOn(start: NaiveDate, years: int)
    ensures var a := Anniversary(start, years);
            && a.year == start.year + years
            && ((start.month, start.day) != (2, 29) ==> (a.month, a.day) == (start.month, start.day))
            && ((start.month, start.day) == (2, 29) ==>
                  (a.month, a.day) == if IsLeap(a.year) then (2, 29) else (3, 1))
  {
  }

  /** Consecutive anniversaries are one year apart: 365 or 366 days. */
  lemma AnniversaryGap(start: NaiveDate, years: int)
    ensures 365 <= DayNumber(Anniversary(start, years + 1)) - DayNumber(Anniversary(start, years)) <= 366
  {
    hide DaysBeforeYear;
    YearLength(start.year + years);
    YearLength(start.year + years + 1);
  }

  lemma {:induction false} AnniversariesAdvance(start: NaiveDate, m: int, n: int)
    requires m <= n
    ensures DayNumber(Anniversary(start, n)) >= DayNumber(Anniversary(start, m)) + 365 * (n - m)
    decreases n - m
  {
    if m < n {
      AnniversariesAdvance(start, m, n - 1);
      AnniversaryGap(start, n - 1);
    }
  }

  /** A later start has later (or equal) anniversaries: the 29 February rule breaks no tie the
      wrong way. */
  lemma AnniversaryKeepsOrder(a: NaiveDate, b: NaiveDate, years: int)
    requires AtOrBefore(a, b)
    ensures AtOrBefore(Anniversary(a, years), Anniversary(b, years))
  {
  }

  // ---- Months ------------------------------------------------------------

  function MonthStart(d: NaiveDate): NaiveDate {
    Date(d.year, d.month, 1)
  }

  /** The first day of the month after a month start, then back one day. */
  function MonthEnd(d: NaiveDate): NaiveDate {
    Pred(if d.month < 12 then Date(d.year, d.month + 1, 1) else Date(d.year + 1, 1, 1))
  }

  lemma MonthEndIsLastDay(d: NaiveDate)
    ensures MonthEnd(d) == Date(d.year, d.month, DaysInMonth(d.year, d.month))
    ensures AtOrBefore(MonthStart(d), d) && AtOrBefore(d, MonthEnd(d))
  {
  }

  // ---- Weekdays ----------------------------------------------------------

  /** 0 is Sunday, 1 Monday, ..., 6 Saturday. */
  function Weekday(d: NaiveDate): int {
    DayNumber(d) % 7
  }

  /** Anchors the weekday count to known dates on both sides of a century without a leap day and of
      one with it: a Monday, a Saturday and a Thursday. */
  lemma WeekdayAnchor()
    ensures Weekday(Date(1900, 1, 1)) == 1
    ensures Weekday(Date(2000, 1, 1)) == 6
    ensures Weekday(Date(2026, 10, 1)) == 4
  {
  }
}
