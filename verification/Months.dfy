/** Whole calendar months: the grain of the fixed-term cap's ledger. */
module Months {
  import opened Calendar
  import opened Wrappers

  /** Whole months between two dates, never negative. */
  function MonthsBetween(from: NaiveDate, to: NaiveDate): int {
    var months := (to.year - from.year) * 12 + (to.month - from.month);
    var floored := if to.day < from.day then months - 1 else months;
    if floored < 0 then 0 else floored
  }

  /** The first day of a renewed contract: the day after the running one ends; a contract that has
      already ended renews from the decision date. */
  function RenewalStart(currentEnd: Option<NaiveDate>, today: NaiveDate): NaiveDate {
    if currentEnd.Some? && AtOrBefore(today, currentEnd.value) then Succ(currentEnd.value) else today
  }

  /** A renewed term starts after the running one and not before the decision, and leaves no gap
      exactly when the running one has not ended by the decision or ended the day before. */
  lemma RenewalNeverOverlaps(end: NaiveDate, today: NaiveDate)
    ensures Before(end, RenewalStart(Some(end), today))
    ensures AtOrBefore(today, RenewalStart(Some(end), today))
    ensures RenewalStart(Some(end), today) == Succ(end) <==> AtOrBefore(today, Succ(end))
  {
  }

  function MonthIndex(d: NaiveDate): int {
    12 * d.year + d.month
  }

  /** `to` is at least `n` months after `from`: the same day of the month, `n` months on, whether or
      not that month has such a day, is not past `to`. */
  predicate MonthsReached(from: NaiveDate, n: int, to: NaiveDate) {
    MonthIndex(from) + n < MonthIndex(to) || (MonthIndex(from) + n == MonthIndex(to) && from.day <= to.day)
  }

  /** The count is the greatest number of months reached. */
  lemma MonthsBetweenIsGreatest(from: NaiveDate, to: NaiveDate, n: nat)
    requires AtOrBefore(from, to)
    ensures n <= MonthsBetween(from, to) <==> MonthsReached(from, n, to)
  {
  }

  /** Floored months are superadditive: splitting a stretch of time into two terms, with or without a
      gap between them, never counts more months than the whole stretch holds. */
  lemma MonthsAreSuperadditive(a: NaiveDate, b: NaiveDate, c: NaiveDate, d: NaiveDate)
    requires AtOrBefore(a, b) && AtOrBefore(b, c) && AtOrBefore(c, d)
    ensures MonthsBetween(a, b) + MonthsBetween(c, d) <= MonthsBetween(a, d)
  {
  }

  // ---- What the count loses --------------------------------------------------

  /** The months a term lasts, its last day included. */
  function MonthsThrough(first: NaiveDate, last: NaiveDate): int {
    MonthsBetween(first, Succ(last))
  }

  /** The day after the end is the day of the month the term started on, or the first of a month
      that follows one too short for that day. */
  predicate EndsOnAWholeMonth(start: NaiveDate, end: NaiveDate) {
    var next := Succ(end);
    next.day == start.day || (next.day == 1 && end.day < start.day)
  }

  /** Counted up to its last day and not through it, a term loses a month exactly when it ends on a
      whole month. */
  lemma TermLosesAMonthIff(start: NaiveDate, end: NaiveDate)
    requires AtOrBefore(start, end)
    ensures MonthsThrough(start, end) == MonthsBetween(start, end) + One(EndsOnAWholeMonth(start, end))
  {
  }

  /** The month running at `to` is not a whole one yet. */
  predicate MidMonth(from: NaiveDate, to: NaiveDate) {
    to.day < from.day
  }

  /** What a renewal on the next day loses of the count, exactly: by the days of the month alone. */
  function SplitLoss(a: NaiveDate, b: NaiveDate, d: NaiveDate): int {
    One(Succ(b).day == 1) + One(MidMonth(a, b)) + One(MidMonth(Succ(b), d)) - One(MidMonth(a, d))
  }

  lemma ContiguousSplitLosesExactly(a: NaiveDate, b: NaiveDate, d: NaiveDate)
    requires AtOrBefore(a, b) && AtOrBefore(Succ(b), d)
    ensures MonthsBetween(a, d) == MonthsBetween(a, b) + MonthsBetween(Succ(b), d) + SplitLoss(a, b, d)
    ensures 0 <= SplitLoss(a, b, d) <= 2
  {
  }

  /** Cutting a stretch at a day loses a month when part of it lies before the cut and part after:
      both pieces stop mid-month, or one does while the whole stretch does not. */
  predicate CutLosesAMonth(a: NaiveDate, cut: NaiveDate, end: NaiveDate) {
    if MidMonth(a, end) then MidMonth(a, cut) && MidMonth(cut, end)
    else MidMonth(a, cut) || MidMonth(cut, end)
  }

  lemma CutLosesAMonthIff(a: NaiveDate, cut: NaiveDate, end: NaiveDate)
    requires AtOrBefore(a, cut) && AtOrBefore(cut, end)
    ensures MonthsBetween(a, end) == MonthsBetween(a, cut) + MonthsBetween(cut, end) + One(CutLosesAMonth(a, cut, end))
  {
  }

  /** Two months can be lost at one renewal: the last day of January to the last of February, then
      March. And one term alone can lose one: 61 whole months count as 60. */
  lemma MonthsAreLost()
    ensures var (a, b, d) := (Date(2025, 1, 31), Date(2025, 2, 28), Date(2025, 3, 31));
            MonthsBetween(a, d) == 2 && MonthsBetween(a, b) == 0 && MonthsBetween(Succ(b), d) == 0
    ensures var (a, b) := (Date(2027, 1, 1), Date(2027, 12, 31));
            MonthsThrough(a, b) == 12 && MonthsBetween(a, b) == 11
    ensures var (a, b) := (Date(2021, 1, 1), Date(2026, 1, 31));
            MonthsThrough(a, b) == 61 && MonthsBetween(a, b) == 60
  {
  }
}
