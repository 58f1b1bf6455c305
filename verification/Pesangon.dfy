/** The final settlement under PP 35/2021: the statutory scales, the termination cases, the
    final month's pay and the itemised settlement. */
module Pesangon {
  import opened Calendar
  import opened Money
  import opened Wrappers

  // ---- Statutory parameters ----------------------------------------------

  datatype TenureBand = TenureBand(minServiceYears: nat, months: real)

  datatype ReasonParams = ReasonParams(
    pesangonMultiplier: real, upmkMultiplier: real, uangPisahEligible: bool, article: string)

  /** The PP 35/2021 cases this build computes; a statutory set must carry all of them. */
  datatype StatutoryCase =
    | MergerConsolidationSplit | Takeover | TakeoverChangedTerms | EfficiencyLosses
    | EfficiencyPreventLosses | ClosureLosses | ClosureNotLosses | ClosureForceMajeure
    | ForceMajeureNoClosure | PkpuLosses | PkpuNotLosses | Bankruptcy | EmployerViolationRequest
    | WorkerRequestRejected | Resignation | AbsenceWithoutNotice | ViolationAfterWarnings
    | UrgentViolation | DetainedCompanyLoss | DetainedNoCompanyLoss | ConvictedCompanyLoss
    | ConvictedNoCompanyLoss | ProlongedIllness | Retirement | Death

  /** The key of a case row: a case this build knows, or one a newer set added. */
  datatype CaseCode = Known(c: StatutoryCase) | Newer(name: string)

  /** An offboarding reason: a statutory case, or one of the earlier labels. */
  datatype OffboardingReason =
    | Specific(c: StatutoryCase)
    | EndOfContract | Termination | MergerAcquisition | Efficiency | ForceMajeure | Misconduct

  datatype PesangonError =
    | UnspecificReason
    | NoStatutoryParams
    | IncompleteStatutoryParams
    | InvalidSetting

  datatype SeveranceParams = SeveranceParams(
    pesangonScale: seq<TenureBand>, pesangonEffectiveFrom: NaiveDate,
    upmkScale: seq<TenureBand>, upmkEffectiveFrom: NaiveDate,
    reasons: map<CaseCode, ReasonParams>, reasonsEffectiveFrom: NaiveDate)
  {
    /** The day the combined set took the shape it has: the latest of the three. */
    function EffectiveFrom(): NaiveDate {
      Later(Later(pesangonEffectiveFrom, upmkEffectiveFrom), reasonsEffectiveFrom)
    }

    predicate Complete() {
      && ScaleComplete(pesangonScale)
      && ScaleComplete(upmkScale)
      && forall c: StatutoryCase :: Known(c) in reasons
    }

    /** Refuse a set that cannot be computed from. */
    function Check(): Result<SeveranceParams, PesangonError> {
      if Complete() then Success(this) else Failure(IncompleteStatutoryParams)
    }
  }

  /** Opens at zero years and neighbouring bounds ascend strictly. */
  predicate ScaleComplete(scale: seq<TenureBand>) {
    && |scale| > 0
    && scale[0].minServiceYears == 0
    && forall i :: 0 <= i < |scale| - 1 ==> scale[i].minServiceYears < scale[i + 1].minServiceYears
  }

  /** The leading bands whose bound is reached. */
  function TakeReached(scale: seq<TenureBand>, serviceYears: nat): seq<TenureBand> {
    if |scale| == 0 || scale[0].minServiceYears > serviceYears then []
    else [scale[0]] + TakeReached(scale[1..], serviceYears)
  }

  /** Months of the last leading band reached; zero when there is none. */
  function ScaleMonths(scale: seq<TenureBand>, serviceYears: nat): real {
    var reached := TakeReached(scale, serviceYears);
    if |reached| == 0 then 0.0 else reached[|reached| - 1].months
  }

  /** Band i is the one in force at `serviceYears`. */
  ghost predicate InBand(scale: seq<TenureBand>, serviceYears: nat, i: int) {
    && 0 <= i < |scale|
    && scale[i].minServiceYears <= serviceYears
    && (i + 1 < |scale| ==> serviceYears < scale[i + 1].minServiceYears)
  }

  lemma {:induction false} BoundsAscend(scale: seq<TenureBand>, i: int, j: int)
    requires ScaleComplete(scale) && 0 <= i < j < |scale|
    ensures scale[i].minServiceYears < scale[j].minServiceYears
    decreases j - i
  {
    if i + 1 < j { BoundsAscend(scale, i, j - 1); }
  }

  /** What the prefix holds: everything before the first band not reached. */
  lemma {:induction false} ReachedIsPrefix(scale: seq<TenureBand>, serviceYears: nat)
    ensures TakeReached(scale, serviceYears) <= scale
    ensures forall i :: 0 <= i < |TakeReached(scale, serviceYears)| ==> scale[i].minServiceYears <= serviceYears
    ensures |TakeReached(scale, serviceYears)| < |scale| ==>
              scale[|TakeReached(scale, serviceYears)|].minServiceYears > serviceYears
  {
    if |scale| > 0 && scale[0].minServiceYears <= serviceYears {
      ReachedIsPrefix(scale[1..], serviceYears);
      assert scale == [scale[0]] + scale[1..];
    }
  }

  /** On a checked scale the lookup is the one band in force: it is reached, it has the greatest
      reached bound, no other band qualifies, and the zero default is never used. */
  lemma LookupIsTheBandInForce(scale: seq<TenureBand>, serviceYears: nat) returns (i: int)
    requires ScaleComplete(scale)
    ensures InBand(scale, serviceYears, i)
    ensures ScaleMonths(scale, serviceYears) == scale[i].months
    ensures forall j :: 0 <= j < |scale| && scale[j].minServiceYears <= serviceYears ==>
              scale[j].minServiceYears <= scale[i].minServiceYears
    ensures forall j :: InBand(scale, serviceYears, j) ==> j == i
  {
    ReachedIsPrefix(scale, serviceYears);
    i := |TakeReached(scale, serviceYears)| - 1;
    forall j, k | 0 <= j < k < |scale|
      ensures scale[j].minServiceYears < scale[k].minServiceYears
    {
      BoundsAscend(scale, j, k);
    }
  }

  ghost predicate NonDecreasingMonths(scale: seq<TenureBand>) {
    forall i, j :: 0 <= i < j < |scale| ==> scale[i].months <= scale[j].months
  }

  lemma ScaleMonthsGrow(scale: seq<TenureBand>, a: nat, b: nat)
    requires ScaleComplete(scale) && NonDecreasingMonths(scale) && a <= b
    ensures scale[0].months <= ScaleMonths(scale, a) <= ScaleMonths(scale, b)
  {
    var i := LookupIsTheBandInForce(scale, a);
    var j := LookupIsTheBandInForce(scale, b);
    if j < i { BoundsAscend(scale, j, i); }
  }

  // ---- Termination case --------------------------------------------------

  datatype SeveranceBasis = Case(code: StatutoryCase) | FixedTermEnd

  /** A statutory value is its own case; each earlier label maps onto one case;
      `termination` names none and is refused. */
  function Basis(reason: OffboardingReason): Result<SeveranceBasis, PesangonError> {
    match reason
    case Specific(c) => Success(Case(c))
    case EndOfContract => Success(FixedTermEnd)
    case Termination => Failure(UnspecificReason)
    case MergerAcquisition => Success(Case(MergerConsolidationSplit))
    case Efficiency => Success(Case(EfficiencyPreventLosses))
    case ForceMajeure => Success(Case(ForceMajeureNoClosure))
    case Misconduct => Success(Case(UrgentViolation))
  }

  // ---- Company settings --------------------------------------------------

  datatype WorkWeek = FiveDay | SixDay {
    function Days(): nat { if FiveDay? then 5 else 6 }

    /** The PP 36/2021 Pasal 17 divisor from monthly to daily wage. */
    function DailyDivisor(): real { if FiveDay? then 21.0 else 25.0 }

    /** `weekday` counts from Sunday, 0. */
    predicate IsWorkingDay(weekday: int) {
      if weekday == 0 then false
      else if weekday == 6 then SixDay?
      else true
    }
  }

  datatype SeveranceSettings = SeveranceSettings(
    uangPisahMonths: real, workWeek: WorkWeek, leaveTypeCodes: seq<string>)

  const DEFAULT_SETTINGS := SeveranceSettings(0.0, FiveDay, ["ANNUAL"])

  // ---- Last pay ----------------------------------------------------------

  datatype LastPay = LastPay(amount: real, from: Option<NaiveDate>, workingDays: nat)

  /** The days from `from` on, one after another, while they do not pass `last`, counting the
      scheduled working days among them. */
  function WorkingDays(from: NaiveDate, last: NaiveDate, workWeek: WorkWeek): nat
    decreases DayNumber(last) + 1 - DayNumber(from)
  {
    if Before(last, from) then 0
    else
      OrderIsDayNumberOrder(last, from);
      SuccIsNextDay(from);
      (if workWeek.IsWorkingDay(Weekday(from)) then 1 else 0) + WorkingDays(Succ(from), last, workWeek)
  }

  function ExactDailyWage(monthlyWage: real, workWeek: WorkWeek): real {
    monthlyWage / workWeek.DailyDivisor()
  }

  /** Rounded to the sen before anything is multiplied from it. */
  function DailyWage(monthlyWage: real, workWeek: WorkWeek): real {
    Round(ExactDailyWage(monthlyWage, workWeek))
  }

  /** Days paid at a daily wage. */
  function DaysPaid(daily: real, days: real): real {
    Round(daily * days)
  }

  /** Prorate the final month: a full calendar month pays the monthly wage; a part month pays
      the daily wage for each working day, never more than the monthly wage. */
  function ComputeLastPay(join: NaiveDate, last: NaiveDate, monthlyWage: real, workWeek: WorkWeek): LastPay {
    if Before(last, join) then LastPay(0.0, None, 0)
    else
      var from := Later(join, MonthStart(last));
      var workingDays := WorkingDays(from, last, workWeek);
      var amount :=
        if from == MonthStart(last) && last == MonthEnd(last) then Round(monthlyWage)
        else Min(DaysPaid(DailyWage(monthlyWage, workWeek), workingDays as real), Round(monthlyWage));
      LastPay(amount, Some(from), workingDays)
  }

  /** Working days among day numbers 1 to n: whole weeks, then the days of the running week.
      Days are numbered so that a multiple of seven is a Sunday. */
  function WorkingDaysUpTo(n: int, workWeek: WorkWeek): int {
    workWeek.Days() * (n / 7) + (if n % 7 < workWeek.Days() then n % 7 else workWeek.Days())
  }

  lemma WorkingDaysUpToStep(n: int, workWeek: WorkWeek)
    ensures WorkingDaysUpTo(n, workWeek) - WorkingDaysUpTo(n - 1, workWeek) ==
              if workWeek.IsWorkingDay(n % 7) then 1 else 0
  {
  }

  /** The day-by-day count equals the closed form. */
  lemma {:induction false} WorkingDaysClosedForm(from: NaiveDate, last: NaiveDate, workWeek: WorkWeek)
    requires DayNumber(from) <= DayNumber(last) + 1
    ensures WorkingDays(from, last, workWeek)
         == WorkingDaysUpTo(DayNumber(last), workWeek) - WorkingDaysUpTo(DayNumber(from) - 1, workWeek)
    decreases DayNumber(last) + 1 - DayNumber(from)
  {
    hide DayNumber, WorkingDaysUpTo, Succ, IsLeap, WorkWeek.IsWorkingDay;
    OrderIsDayNumberOrder(last, from);
    if AtOrBefore(from, last) {
      SuccIsNextDay(from);
      WorkingDaysClosedForm(Succ(from), last, workWeek);
      WorkingDaysUpToStep(DayNumber(from), workWeek);
    }
  }

  /** The scheduled working days between two day numbers. */
  function ScheduledDays(first: int, last: int, workWeek: WorkWeek): set<int> {
    set n | first <= n <= last && workWeek.IsWorkingDay(n % 7)
  }

  lemma {:induction false} WorkingDaysAreScheduledDays(from: NaiveDate, last: NaiveDate, workWeek: WorkWeek)
    ensures WorkingDays(from, last, workWeek) == |ScheduledDays(DayNumber(from), DayNumber(last), workWeek)|
    decreases DayNumber(last) + 1 - DayNumber(from)
  {
    hide DayNumber, Succ, WorkWeek.IsWorkingDay;
    OrderIsDayNumberOrder(last, from);
    var first, end := DayNumber(from), DayNumber(last);
    if AtOrBefore(from, last) {
      SuccIsNextDay(from);
      WorkingDaysAreScheduledDays(Succ(from), last, workWeek);
      var rest := ScheduledDays(first + 1, end, workWeek);
      assert ScheduledDays(first, end, workWeek) == if workWeek.IsWorkingDay(first % 7) then {first} + rest else rest;
    } else {
      assert ScheduledDays(first, end, workWeek) == {};
    }
  }

  /** The last pay counts exactly the scheduled days of the last month on or after the join date,
      and pays each at the daily wage, up to the month's wage; it is nothing for one who never
      started. */
  lemma LastPayCountsItsDays(join: NaiveDate, last: NaiveDate, wage: real, workWeek: WorkWeek)
    ensures var pay := ComputeLastPay(join, last, wage, workWeek);
            var inMonth := ScheduledDays(DayNumber(MonthStart(last)), DayNumber(last), workWeek);
            var days := set n | n in inMonth && n >= DayNumber(join);
            && pay.workingDays == |days|
            && (pay.from.None? <==> DayNumber(last) < DayNumber(join))
            && (pay.from.None? ==> pay.amount == 0.0)
            && (pay.from.Some? ==> pay.amount <= Round(wage))
            && (pay.from.Some? && pay.from != Some(MonthStart(last)) ==>
                  pay.amount == Round(wage) || pay.amount == DaysPaid(DailyWage(wage, workWeek), |days| as real))
  {
    hide DayNumber, WorkingDays, Round, MonthEnd, DaysPaid, DailyWage;
    var inMonth := ScheduledDays(DayNumber(MonthStart(last)), DayNumber(last), workWeek);
    var days := set n | n in inMonth && n >= DayNumber(join);
    OrderIsDayNumberOrder(last, join);
    if Before(last, join) {
      assert days == {};
    } else {
      var from := Later(join, MonthStart(last));
      OrderIsDayNumberOrder(join, MonthStart(last));
      OrderIsDayNumberOrder(MonthStart(last), join);
      WorkingDaysAreScheduledDays(from, last, workWeek);
      assert days == ScheduledDays(DayNumber(from), DayNumber(last), workWeek);
    }
  }
}
