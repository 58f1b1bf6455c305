/** Years of service, counted by anniversary. */
module Tenure {
  import opened Calendar
  import opened Money

  /** Four decimal places, towards zero. */
  function Truncate4(d: real): real {
    if d >= 0.0 then (d * 10000.0).Floor as real / 10000.0
    else -((-d * 10000.0).Floor as real / 10000.0)
  }

  /** Anniversaries passed by the close of the last working day. */
  function WholeYears(join: NaiveDate, end: NaiveDate): int {
    var years := end.year - join.year;
    if Before(end, Anniversary(join, years)) then years - 1 else years
  }

  /** Whole years plus the share of the current service year, before truncation. */
  function ExactService(join: NaiveDate, end: NaiveDate): real {
    var years := WholeYears(join, end);
    var from := DayNumber(Anniversary(join, years));
    var to := DayNumber(Anniversary(join, years + 1));
    AnniversaryGap(join, years);
    years as real + (DayNumber(end) - from) as real / (to - from) as real
  }

  /** Years of service from the join date through the last working day inclusive; zero when
      the employee never started. */
  function TenureYears(join: NaiveDate, last: NaiveDate): real {
    if Before(last, join) then 0.0
    else Truncate4(ExactService(join, Succ(last)))
  }

  /** The whole part of a tenure figure: the key of the statutory scales. */
  function CompletedYears(tenure: real): nat {
    if tenure < 0.0 then 0 else tenure.Floor
  }

  lemma WholeYearsBrackets(join: NaiveDate, end: NaiveDate)
    ensures AtOrBefore(Anniversary(join, WholeYears(join, end)), end)
    ensures Before(end, Anniversary(join, WholeYears(join, end) + 1))
    ensures AtOrBefore(join, end) ==> WholeYears(join, end) >= 0
  {
  }

  lemma FractionOfYear(join: NaiveDate, end: NaiveDate)
    ensures WholeYears(join, end) as real <= ExactService(join, end) < WholeYears(join, end) as real + 1.0
  {
    hide DayNumber, Anniversary, WholeYears, Before, AtOrBefore;
    var years := WholeYears(join, end);
    WholeYearsBrackets(join, end);
    OrderIsDayNumberOrder(Anniversary(join, years), end);
    OrderIsDayNumberOrder(end, Anniversary(join, years + 1));
    AnniversaryGap(join, years);
    FractionBelowOne(DayNumber(end) - DayNumber(Anniversary(join, years)),
                     DayNumber(Anniversary(join, years + 1)) - DayNumber(Anniversary(join, years)));
  }

  lemma FractionBelowOne(p: int, q: int)
    requires 0 <= p < q
    ensures 0.0 <= p as real / q as real < 1.0
  {
  }

  lemma TruncateKeepsWholePart(n: nat, x: real)
    requires n as real <= x < n as real + 1.0
    ensures n as real <= Truncate4(x) <= x
    ensures Truncate4(x).Floor == n
  {
    assert (x * 10000.0).Floor >= n * 10000;
  }

  lemma TruncateKeepsOrder(x: real, y: real)
    requires 0.0 <= x <= y
    ensures 0.0 <= Truncate4(x) <= Truncate4(y)
  {
    FloorKeepsOrder(x * 10000.0, y * 10000.0);
  }

  lemma FloorKeepsOrder(x: real, y: real)
    requires x <= y
    ensures x.Floor <= y.Floor
  {
  }

  /** The scale key of a started employee is the number of whole years, whatever the
      truncated fraction. */
  lemma CompletedIsWholeYears(join: NaiveDate, last: NaiveDate)
    requires AtOrBefore(join, last)
    ensures TenureYears(join, last) >= 0.0
    ensures CompletedYears(TenureYears(join, last)) == WholeYears(join, Succ(last))
  {
    var end := Succ(last);
    SuccIsNextDay(last);
    OrderIsDayNumberOrder(join, last);
    OrderIsDayNumberOrder(join, end);
    WholeYearsBrackets(join, end);
    FractionOfYear(join, end);
    TruncateKeepsWholePart(WholeYears(join, end), ExactService(join, end));
  }

  /** The completed years are the anniversaries reached by the day after the last working day:
      an n-th anniversary counts exactly when it falls on or before that day. The truncated
      fraction never adds a year. */
  lemma CompletedYearsCountsAnniversaries(join: NaiveDate, last: NaiveDate, n: int)
    requires AtOrBefore(join, last)
    ensures n <= CompletedYears(TenureYears(join, last)) <==> AtOrBefore(Anniversary(join, n), Succ(last))
  {
    var end := Succ(last);
    var years := WholeYears(join, end);
    CompletedIsWholeYears(join, last);
    WholeYearsBrackets(join, end);
    OrderIsDayNumberOrder(Anniversary(join, years), end);
    OrderIsDayNumberOrder(Anniversary(join, n), end);
    OrderIsDayNumberOrder(end, Anniversary(join, years + 1));
    if n <= years {
      AnniversariesAdvance(join, n, years);
    } else {
      AnniversariesAdvance(join, years + 1, n);
    }
  }

  // ---- Monotonicity ------------------------------------------------------

  /** Whole years are the greatest n whose anniversary has passed, so more anniversaries passed
      means at least as many whole years. */
  lemma WholeYearsGrow(a: NaiveDate, endA: NaiveDate, b: NaiveDate, endB: NaiveDate)
    requires AtOrBefore(b, a) && AtOrBefore(endA, endB)
    ensures WholeYears(a, endA) <= WholeYears(b, endB)
  {
  }

  /** Same whole years: more days served and fewer days left is a larger share of the year,
      although one service year may have 365 days and the other 366. */
  lemma ShareGrows(served: real, left: real, served': real, left': real)
    requires 0.0 <= served <= served' && 0.0 < left' <= left
    ensures served / (served + left) <= served' / (served' + left')
  {
    ProductKeepsOrder(served, served', left', left);
    var q := served + left;
    var q' := served' + left';
    assert served * q' == served * served' + served * left';
    assert served' * q == served' * served + served' * left;
    CrossMultiply(served, q, served', q');
  }

  lemma CrossMultiply(p: real, q: real, p': real, q': real)
    requires q > 0.0 && q' > 0.0 && p * q' <= p' * q
    ensures p / q <= p' / q'
  {
  }

  /** An earlier join or a later end never shortens the service. */
  lemma ServiceGrows(a: NaiveDate, endA: NaiveDate, b: NaiveDate, endB: NaiveDate)
    requires AtOrBefore(b, a) && AtOrBefore(endA, endB)
    ensures ExactService(a, endA) <= ExactService(b, endB)
  {
    var n := WholeYears(a, endA);
    FractionOfYear(a, endA);
    FractionOfYear(b, endB);
    WholeYearsGrow(a, endA, b, endB);
    if n == WholeYears(b, endB) {
      SameYearShareGrows(a, endA, b, endB, n);
    }
  }

  lemma SameYearShareGrows(a: NaiveDate, endA: NaiveDate, b: NaiveDate, endB: NaiveDate, n: int)
    requires AtOrBefore(b, a) && AtOrBefore(endA, endB)
    requires n == WholeYears(a, endA) == WholeYears(b, endB)
    ensures ExactService(a, endA) <= ExactService(b, endB)
  {
    hide DayNumber, Anniversary, AtOrBefore;
    WholeYearsOnLine(a, endA);
    WholeYearsOnLine(b, endB);
    AnniversaryOrderOnLine(b, a, n);
    AnniversaryOrderOnLine(b, a, n + 1);
    OrderIsDayNumberOrder(endA, endB);
    ServiceGrowsOnLine(n,
      DayNumber(Anniversary(a, n)), DayNumber(endA), DayNumber(Anniversary(a, n + 1)),
      DayNumber(Anniversary(b, n)), DayNumber(endB), DayNumber(Anniversary(b, n + 1)));
  }

  lemma WholeYearsOnLine(join: NaiveDate, end: NaiveDate)
    ensures DayNumber(Anniversary(join, WholeYears(join, end))) <= DayNumber(end)
    ensures DayNumber(end) < DayNumber(Anniversary(join, WholeYears(join, end) + 1))
  {
    WholeYearsBrackets(join, end);
    OrderIsDayNumberOrder(Anniversary(join, WholeYears(join, end)), end);
    OrderIsDayNumberOrder(end, Anniversary(join, WholeYears(join, end) + 1));
  }

  lemma AnniversaryOrderOnLine(a: NaiveDate, b: NaiveDate, years: int)
    requires AtOrBefore(a, b)
    ensures DayNumber(Anniversary(a, years)) <= DayNumber(Anniversary(b, years))
  {
    AnniversaryKeepsOrder(a, b, years);
    OrderIsDayNumberOrder(Anniversary(a, years), Anniversary(b, years));
  }

  lemma ServiceGrowsOnLine(n: int, fromA: int, endA: int, toA: int, fromB: int, endB: int, toB: int)
    requires fromB <= fromA <= endA < toA && fromB <= endA <= endB < toB <= toA
    ensures n as real + (endA - fromA) as real / (toA - fromA) as real
         <= n as real + (endB - fromB) as real / (toB - fromB) as real
  {
    ShareGrows((endA - fromA) as real, (toA - endA) as real, (endB - fromB) as real, (toB - endB) as real);
  }

  /** The tenure figure on the settlement row is non-decreasing in the last working day and
      non-increasing in the join date, and so is the scale key; "never started" counts as zero. */
  lemma TenureGrows(joinA: NaiveDate, lastA: NaiveDate, joinB: NaiveDate, lastB: NaiveDate)
    requires AtOrBefore(joinB, joinA) && AtOrBefore(lastA, lastB)
    ensures 0.0 <= TenureYears(joinA, lastA) <= TenureYears(joinB, lastB)
    ensures CompletedYears(TenureYears(joinA, lastA)) <= CompletedYears(TenureYears(joinB, lastB))
  {
    OrderIsDayNumberOrder(joinB, joinA);
    OrderIsDayNumberOrder(lastA, lastB);
    OrderIsDayNumberOrder(lastA, joinA);
    OrderIsDayNumberOrder(lastB, joinB);
    if AtOrBefore(joinA, lastA) {
      CompletedIsWholeYears(joinA, lastA);
      CompletedIsWholeYears(joinB, lastB);
      SuccIsNextDay(lastA);
      SuccIsNextDay(lastB);
      OrderIsDayNumberOrder(Succ(lastA), Succ(lastB));
      OrderIsDayNumberOrder(joinA, Succ(lastA));
      FractionOfYear(joinA, Succ(lastA));
      WholeYearsBrackets(joinA, Succ(lastA));
      WholeYearsGrow(joinA, Succ(lastA), joinB, Succ(lastB));
      ServiceGrows(joinA, Succ(lastA), joinB, Succ(lastB));
      TruncateKeepsOrder(ExactService(joinA, Succ(lastA)), ExactService(joinB, Succ(lastB)));
    } else if AtOrBefore(joinB, lastB) {
      CompletedIsWholeYears(joinB, lastB);
    }
  }

  // ---- What the figure is ------------------------------------------------------

  /** The anniversaries reached by the day after the last working day are n. */
  predicate ServesYears(join: NaiveDate, last: NaiveDate, n: nat) {
    AtOrBefore(Anniversary(join, n), Succ(last)) && Before(Succ(last), Anniversary(join, n + 1))
  }

  /** The share of the service year running after n anniversaries. */
  function ServedShare(join: NaiveDate, last: NaiveDate, n: nat): real {
    AnniversaryGap(join, n);
    (DayNumber(last) + 1 - DayNumber(Anniversary(join, n))) as real
    / (DayNumber(Anniversary(join, n + 1)) - DayNumber(Anniversary(join, n))) as real
  }

  /** A figure of four decimals that lies at most one unit of the last below the exact one. */
  predicate IsTruncation(figure: real, exact: real) {
    figure <= exact < figure + 0.0001 && (figure * 10000.0).Floor as real == figure * 10000.0
  }

  lemma TruncationIs(x: real)
    requires x >= 0.0
    ensures IsTruncation(Truncate4(x), x)
  {
  }

  lemma ServedIsWholeYears(join: NaiveDate, last: NaiveDate, n: nat)
    requires AtOrBefore(join, last) && ServesYears(join, last, n)
    ensures WholeYears(join, Succ(last)) == n
  {
    hide DayNumber, Succ;
    CompletedIsWholeYears(join, last);
    CompletedYearsCountsAnniversaries(join, last, n);
    CompletedYearsCountsAnniversaries(join, last, n + 1);
    OrderIsDayNumberOrder(Succ(last), Anniversary(join, n + 1));
    OrderIsDayNumberOrder(Anniversary(join, n + 1), Succ(last));
  }

  /** The stamped tenure is the anniversaries reached and the share of the running service year, cut
      after four decimals; its whole part is the anniversaries. */
  lemma TenureIsServedYears(join: NaiveDate, last: NaiveDate, n: nat)
    requires AtOrBefore(join, last) && ServesYears(join, last, n)
    ensures CompletedYears(TenureYears(join, last)) == n
    ensures IsTruncation(TenureYears(join, last), n as real + ServedShare(join, last, n))
  {
    hide DayNumber, Truncate4, Anniversary, Succ, IsTruncation, ServesYears;
    ServedIsWholeYears(join, last, n);
    CompletedIsWholeYears(join, last);
    SuccIsNextDay(last);
    OrderIsDayNumberOrder(last, join);
    OrderIsDayNumberOrder(join, last);
    FractionOfYear(join, Succ(last));
    assert ExactService(join, Succ(last)) == n as real + ServedShare(join, last, n);
    TruncationIs(ExactService(join, Succ(last)));
  }
}
