/** What a settlement is made of: the case it is settled under, and each item on its own. */
module SettlementItems {
  import opened Calendar
  import opened Money
  import opened Pesangon
  import opened Settlement
  import opened Tenure
  import opened Wrappers

  /** The amount is the nearest whole number of sen. */
  ghost predicate IsNearest(amount: real, exact: real) {
    exists sen :: IsNearestSen(exact, sen) && amount == Rupiah(sen)
  }

  lemma RoundIsTheNearest(exact: real)
    ensures IsNearest(Round(exact), exact)
  {
    RoundIsNearest(exact, Sen(exact));
  }

  /** The latest of three dates. */
  predicate IsLatest(d: NaiveDate, a: NaiveDate, b: NaiveDate, c: NaiveDate) {
    (d == a || d == b || d == c) && AtOrBefore(a, d) && AtOrBefore(b, d) && AtOrBefore(c, d)
  }

  // ---- The case ----------------------------------------------------------------

  /** A statutory reason is settled under its own case: its own row of the set, and nothing else's. */
  lemma SettlesUnderItsCase(
      inputs: SettlementInputs, params: SeveranceParams, settings: SeveranceSettings, c: StatutoryCase)
    requires inputs.reason == Specific(c) && params.Check().Success?
    ensures var r := ComputeSettlement(inputs, params, settings);
            var p := params.reasons[Known(c)];
            && r.Success? && r.value.severanceCase == Some(c) && r.value.legalBasis == p.article
            && r.value.pesangonMultiplier == p.pesangonMultiplier && r.value.upmkMultiplier == p.upmkMultiplier
            && IsLatest(r.value.statutoryEffectiveFrom,
                        params.pesangonEffectiveFrom, params.upmkEffectiveFrom, params.reasonsEffectiveFrom)
  {
    hide TenureYears, ScaleMonths, ComputeLastPay, Round;
    LaterIsLatest(params.pesangonEffectiveFrom, params.upmkEffectiveFrom, params.reasonsEffectiveFrom);
  }

  lemma LaterIsLatest(a: NaiveDate, b: NaiveDate, c: NaiveDate)
    ensures IsLatest(Later(Later(a, b), c), a, b, c)
  {
  }

  /** The case an earlier label stands for. */
  predicate StandsFor(earlier: OffboardingReason, c: StatutoryCase) {
    || (earlier.MergerAcquisition? && c.MergerConsolidationSplit?)
    || (earlier.Efficiency? && c.EfficiencyPreventLosses?)
    || (earlier.ForceMajeure? && c.ForceMajeureNoClosure?)
    || (earlier.Misconduct? && c.UrgentViolation?)
  }

  /** An earlier label settles exactly as the case it stands for. */
  lemma EarlierLabelSettlesAsItsCase(
      inputs: SettlementInputs, params: SeveranceParams, settings: SeveranceSettings, c: StatutoryCase)
    requires StandsFor(inputs.reason, c)
    ensures ComputeSettlement(inputs, params, settings)
         == ComputeSettlement(inputs.(reason := Specific(c)), params, settings)
  {
    hide TenureYears, ScaleMonths, ComputeLastPay, Round;
  }

  // ---- The items ---------------------------------------------------------------

  /** One statutory item: its own months times its own multiplier times the wage. */
  ghost predicate IsItem(amount: real, months: real, multiplier: real, wage: real) {
    IsNearest(amount, months * multiplier * wage)
  }

  /** So many months, or so many days, of a wage. */
  ghost predicate IsShare(amount: real, count: real, wage: real) {
    IsNearest(amount, count * wage)
  }

  function NotBelowZero(x: real): real {
    if x < 0.0 then 0.0 else x
  }

  /** The divisor of PP 36/2021 Pasal 17. */
  function Divisor(workWeek: WorkWeek): real {
    match workWeek
    case FiveDay => 21.0
    case SixDay => 25.0
  }

  /** The days of a work week between two dates, by day number: no Sundays, and no Saturdays of a
      five-day week. */
  function WeekDays(from: NaiveDate, last: NaiveDate, workWeek: WorkWeek): set<int> {
    set n | DayNumber(from) <= n <= DayNumber(last) && n % 7 != 0 && (n % 7 != 6 || workWeek == SixDay)
  }

  /** From the first of a month to a day whose morrow is the first of one. */
  predicate IsWholeMonth(from: NaiveDate, last: NaiveDate) {
    from == Date(last.year, last.month, 1) && Succ(last).day == 1
  }

  /** The whole month's wage, or the part for so many days when that is less. */
  ghost predicate IsPaidAs(
      pay: LastPay, from: NaiveDate, last: NaiveDate, whole: real, part: real, wage: real, daily: real)
  {
    && IsNearest(whole, wage) && IsShare(part, pay.workingDays as real, daily)
    && pay.amount == if IsWholeMonth(from, last) || whole <= part then whole else part
  }

  /** The first of the month of the last day, or a later join. */
  function PaidFrom(join: NaiveDate, last: NaiveDate): NaiveDate {
    var first: NaiveDate := Date(last.year, last.month, 1);
    if DayNumber(first) < DayNumber(join) then join else first
  }

  /** The last pay of a started employee runs from the first of the month, or from a later join. A whole
      calendar month pays the wage; anything less pays the daily wage for each day of the work week, and
      never more than the wage. */
  ghost predicate IsLastPay(
      pay: LastPay, join: NaiveDate, last: NaiveDate, wage: real, daily: real, workWeek: WorkWeek)
  {
    var from := PaidFrom(join, last);
    && pay.from == Some(from)
    && pay.workingDays == |WeekDays(from, last, workWeek)|
    && exists whole, part :: IsPaidAs(pay, from, last, whole, part, wage, daily)
  }

  lemma LastPayIs(join: NaiveDate, last: NaiveDate, wage: real, workWeek: WorkWeek)
    requires AtOrBefore(join, last)
    ensures IsLastPay(ComputeLastPay(join, last, wage, workWeek), join, last, wage, DailyWage(wage, workWeek), workWeek)
  {
    hide DayNumber, WorkingDays, Round, DailyWage, DaysPaid, IsNearest, ScheduledDays, WeekDays, PisahItem, IsShare;
    var pay := ComputeLastPay(join, last, wage, workWeek);
    OrderIsDayNumberOrder(join, MonthStart(last));
    OrderIsDayNumberOrder(MonthStart(last), join);
    OrderIsDayNumberOrder(last, join);
    OrderIsDayNumberOrder(join, last);
    var from := PaidFrom(join, last);
    assert pay.from == Some(from);
    WorkingDaysAreScheduledDays(from, last, workWeek);
    WeekDaysAreScheduled(from, last, workWeek);
    LastPayAmount(pay, from, last, wage, workWeek);
  }

  lemma LastPayAmount(pay: LastPay, from: NaiveDate, last: NaiveDate, wage: real, workWeek: WorkWeek)
    requires pay.amount ==
        if from == MonthStart(last) && last == MonthEnd(last) then Round(wage)
        else Min(DaysPaid(DailyWage(wage, workWeek), pay.workingDays as real), Round(wage))
    ensures exists whole, part :: IsPaidAs(pay, from, last, whole, part, wage, DailyWage(wage, workWeek))
  {
    var daily, days := DailyWage(wage, workWeek), pay.workingDays as real;
    MonthEndIsLastDay(last);
    RoundIsTheNearest(wage);
    ShareIs(days, daily);
    hide Round, DailyWage, DaysPaid, IsNearest, PisahItem, IsShare;
    assert (Succ(last).day == 1) == (last == MonthEnd(last));
    assert IsPaidAs(pay, from, last, Round(wage), DaysPaid(daily, days), wage, daily);
  }

  lemma WeekDaysAreScheduled(from: NaiveDate, last: NaiveDate, workWeek: WorkWeek)
    ensures ScheduledDays(DayNumber(from), DayNumber(last), workWeek) == WeekDays(from, last, workWeek)
  {
    hide DayNumber;
  }

  ghost predicate IsDailyWage(amount: real, wage: real, workWeek: WorkWeek) {
    IsNearest(amount, wage / Divisor(workWeek))
  }

  /** What the items of a started employee are computed from: the years and the tenure served, the wage,
      and the months of the bands i and j in force after n years. */
  ghost predicate IsBasedOn(
      b: Breakdown, inputs: SettlementInputs, params: SeveranceParams, settings: SeveranceSettings,
      n: nat, i: int, j: int)
    requires InBand(params.pesangonScale, n, i) && InBand(params.upmkScale, n, j)
  {
    && b.started && b.serviceYears == n
    && IsTruncation(b.tenureYears, n as real + ServedShare(inputs.joinDate, inputs.lastWorkingDay, n))
    && b.monthlyWage == NotBelowZero(inputs.monthlyWage)
    && IsDailyWage(b.dailyWage, b.monthlyWage, settings.workWeek)
    && b.workDaysPerWeek == (if settings.workWeek.FiveDay? then 5 else 6)
    && b.pesangonMonths == params.pesangonScale[i].months
    && b.upmkMonths == params.upmkScale[j].months
    && b.unusedLeaveDays == NotBelowZero(inputs.unusedLeaveDays)
  }

  /** Every item under a statutory case, on its own: each from its own months or days and its own
      multiplier. */
  ghost predicate IsItemised(
      b: Breakdown, inputs: SettlementInputs, params: SeveranceParams, settings: SeveranceSettings, c: StatutoryCase)
    requires params.Complete()
  {
    var p := params.reasons[Known(c)];
    && IsItem(b.uangPesangon, b.pesangonMonths, p.pesangonMultiplier, b.monthlyWage)
    && IsItem(b.upmk, b.upmkMonths, p.upmkMultiplier, b.monthlyWage)
    && (if p.uangPisahEligible then IsShare(b.uangPisah, NotBelowZero(settings.uangPisahMonths), b.monthlyWage)
        else b.uangPisah == 0.0)
    && IsLeaveAndLastPay(b, inputs, settings)
  }

  /** The two items no case decides: so many days of leave at the daily wage, and the last pay. */
  ghost predicate IsLeaveAndLastPay(b: Breakdown, inputs: SettlementInputs, settings: SeveranceSettings) {
    && IsShare(b.unusedLeavePayout, b.unusedLeaveDays, b.dailyWage)
    && IsLastPay(b.lastPay, inputs.joinDate, inputs.lastWorkingDay, b.monthlyWage, b.dailyWage, settings.workWeek)
  }

  lemma ItemIs(months: real, multiplier: real, wage: real)
    ensures IsItem(StatutoryItem(months, multiplier, wage), months, multiplier, wage)
  {
    RoundIsTheNearest(months * multiplier * wage);
  }

  lemma ShareIs(count: real, wage: real)
    ensures IsShare(PisahItem(count, wage), count, wage)
    ensures IsShare(DaysPaid(wage, count), count, wage)
  {
    RoundIsTheNearest(count * wage);
    assert wage * count == count * wage;
  }

  lemma DailyWageIs(wage: real, workWeek: WorkWeek)
    ensures IsDailyWage(DailyWage(wage, workWeek), wage, workWeek)
  {
    RoundIsTheNearest(wage / Divisor(workWeek));
  }

  lemma ScaleMonthsInBand(scale: seq<TenureBand>, n: nat, i: int)
    requires ScaleComplete(scale) && InBand(scale, n, i)
    ensures ScaleMonths(scale, n) == scale[i].months
  {
    hide ScaleMonths;
    var k := LookupIsTheBandInForce(scale, n);
  }

  lemma ItemsAreBasedOn(
      inputs: SettlementInputs, params: SeveranceParams, settings: SeveranceSettings,
      c: StatutoryCase, n: nat, i: int, j: int)
    requires inputs.reason == Specific(c) && params.Check().Success?
    requires AtOrBefore(inputs.joinDate, inputs.lastWorkingDay)
    requires ServesYears(inputs.joinDate, inputs.lastWorkingDay, n)
    requires InBand(params.pesangonScale, n, i) && InBand(params.upmkScale, n, j)
    ensures var r := ComputeSettlement(inputs, params, settings);
            r.Success? && IsBasedOn(r.value, inputs, params, settings, n, i, j)
  {
    hide ComputeSettlement, TenureYears, CompletedYears, ScaleMonths, IsTruncation, InBand, ServedShare, DailyWage,
      IsDailyWage, ServesYears, ScaleComplete, DayNumber, Before;
    SettlesUnderItsCase(inputs, params, settings, c);
    FiguresAreComputed(inputs, params, settings);
    TenureIsServedYears(inputs.joinDate, inputs.lastWorkingDay, n);
    ScaleMonthsInBand(params.pesangonScale, n, i);
    ScaleMonthsInBand(params.upmkScale, n, j);
    DailyWageIs(NotBelowZero(inputs.monthlyWage), settings.workWeek);
  }

  lemma FiguresAreComputed(inputs: SettlementInputs, params: SeveranceParams, settings: SeveranceSettings)
    requires AtOrBefore(inputs.joinDate, inputs.lastWorkingDay) && ComputeSettlement(inputs, params, settings).Success?
    ensures var b := ComputeSettlement(inputs, params, settings).value;
            && b.started && b.tenureYears == TenureYears(inputs.joinDate, inputs.lastWorkingDay)
            && b.serviceYears == CompletedYears(b.tenureYears)
            && b.monthlyWage == NotBelowZero(inputs.monthlyWage)
            && b.dailyWage == DailyWage(b.monthlyWage, settings.workWeek)
            && b.workDaysPerWeek == (if settings.workWeek.FiveDay? then 5 else 6)
            && b.pesangonMonths == ScaleMonths(params.pesangonScale, b.serviceYears)
            && b.upmkMonths == ScaleMonths(params.upmkScale, b.serviceYears)
            && b.unusedLeaveDays == NotBelowZero(inputs.unusedLeaveDays)
  {
    CompletedIsWholeYears(inputs.joinDate, inputs.lastWorkingDay);
    hide TenureYears, ScaleMonths, ComputeLastPay, Round, DailyWage, DayNumber, WholeYears;
  }

  lemma LeaveAndLastPayAreTheirOwn(inputs: SettlementInputs, params: SeveranceParams, settings: SeveranceSettings)
    requires AtOrBefore(inputs.joinDate, inputs.lastWorkingDay) && ComputeSettlement(inputs, params, settings).Success?
    ensures IsLeaveAndLastPay(ComputeSettlement(inputs, params, settings).value, inputs, settings)
  {
    hide TenureYears, ScaleMonths, ComputeLastPay, Round, StatutoryItem, PisahItem, DaysPaid, DailyWage, IsItem,
      IsShare, IsLastPay, DayNumber;
    var b := ComputeSettlement(inputs, params, settings).value;
    LastPayIs(inputs.joinDate, inputs.lastWorkingDay, b.monthlyWage, settings.workWeek);
    ShareIs(b.unusedLeaveDays, b.dailyWage);
  }

  lemma ItemsAreItemised(
      inputs: SettlementInputs, params: SeveranceParams, settings: SeveranceSettings, c: StatutoryCase)
    requires inputs.reason == Specific(c) && params.Check().Success?
    requires AtOrBefore(inputs.joinDate, inputs.lastWorkingDay)
    ensures var r := ComputeSettlement(inputs, params, settings);
            r.Success? && IsItemised(r.value, inputs, params, settings, c)
  {
    SettlesUnderItsCase(inputs, params, settings, c);
    LeaveAndLastPayAreTheirOwn(inputs, params, settings);
    hide TenureYears, ScaleMonths, ComputeLastPay, Round, StatutoryItem, PisahItem, DaysPaid, DailyWage, IsItem,
      IsShare, IsLeaveAndLastPay, DayNumber, SeveranceParams.Complete;
    var b := ComputeSettlement(inputs, params, settings).value;
    var p, wage := params.reasons[Known(c)], NotBelowZero(inputs.monthlyWage);
    ItemIs(b.pesangonMonths, p.pesangonMultiplier, wage);
    ItemIs(b.upmkMonths, p.upmkMultiplier, wage);
    ShareIs(NotBelowZero(settings.uangPisahMonths), wage);
  }

  /** The end of a fixed term is under no case and pays no severance item; a started employee's leave and
      last pay are the same as under any case. */
  lemma FixedTermEndItems(inputs: SettlementInputs, params: SeveranceParams, settings: SeveranceSettings)
    requires inputs.reason == EndOfContract
    ensures var r := ComputeSettlement(inputs, params, settings);
            && r.Success? && r.value.severanceCase == None
            && r.value.uangPesangon == 0.0 && r.value.upmk == 0.0 && r.value.uangPisah == 0.0
            && (AtOrBefore(inputs.joinDate, inputs.lastWorkingDay) ==>
                  && r.value.unusedLeaveDays == NotBelowZero(inputs.unusedLeaveDays)
                  && IsDailyWage(r.value.dailyWage, NotBelowZero(inputs.monthlyWage), settings.workWeek)
                  && IsLeaveAndLastPay(r.value, inputs, settings))
  {
    hide TenureYears, ScaleMonths, ComputeLastPay, Round, DaysPaid, DailyWage, IsLeaveAndLastPay, IsDailyWage;
    FixedTermEndPaysOnlyLeave(inputs, params, settings);
    DailyWageIs(NotBelowZero(inputs.monthlyWage), settings.workWeek);
    NoMonthsNoItem(ComputeSettlement(inputs, params, settings).value);
    if AtOrBefore(inputs.joinDate, inputs.lastWorkingDay) { LeaveAndLastPayAreTheirOwn(inputs, params, settings); }
  }

  lemma NoMonthsNoItem(b: Breakdown)
    ensures StatutoryItem(b.pesangonMonths, 0.0, b.monthlyWage) == 0.0
    ensures StatutoryItem(b.upmkMonths, 0.0, b.monthlyWage) == 0.0
  {
    assert b.pesangonMonths * 0.0 * b.monthlyWage == 0.0;
    assert b.upmkMonths * 0.0 * b.monthlyWage == 0.0;
  }

  /** Each item of a started employee under a statutory case is the nearest sen of its own months, its own
      multiplier and the wage, from the bands in force for the anniversaries reached; the last pay is that
      of the days of the last month; and every amount rests on the wage and daily wage of that employee. */
  lemma ItemsAreTheirOwn(
      inputs: SettlementInputs, params: SeveranceParams, settings: SeveranceSettings,
      c: StatutoryCase, n: nat, i: int, j: int)
    requires inputs.reason == Specific(c) && params.Check().Success?
    requires AtOrBefore(inputs.joinDate, inputs.lastWorkingDay)
    requires ServesYears(inputs.joinDate, inputs.lastWorkingDay, n)
    requires InBand(params.pesangonScale, n, i) && InBand(params.upmkScale, n, j)
    ensures var r := ComputeSettlement(inputs, params, settings);
            && r.Success?
            && IsBasedOn(r.value, inputs, params, settings, n, i, j)
            && IsItemised(r.value, inputs, params, settings, c)
  {
    hide ComputeSettlement, IsBasedOn, IsItemised;
    ItemsAreBasedOn(inputs, params, settings, c, n, i, j);
    ItemsAreItemised(inputs, params, settings, c);
  }

  /** One who never started is owed nothing, item by item. */
  lemma NeverStartedOwesNothing(inputs: SettlementInputs, params: SeveranceParams, settings: SeveranceSettings)
    requires Before(inputs.lastWorkingDay, inputs.joinDate) && ComputeSettlement(inputs, params, settings).Success?
    ensures var b := ComputeSettlement(inputs, params, settings).value;
            && !b.started && b.tenureYears == 0.0 && b.serviceYears == 0
            && b.uangPesangon == 0.0 && b.upmk == 0.0 && b.uangPisah == 0.0 && b.severanceTotal == 0.0
            && b.unusedLeaveDays == 0.0 && b.unusedLeavePayout == 0.0 && b.lastPay == LastPay(0.0, None, 0)
            && b.netPayable == 0.0
  {
    OrderIsDayNumberOrder(inputs.lastWorkingDay, inputs.joinDate);
    OrderIsDayNumberOrder(inputs.joinDate, inputs.lastWorkingDay);
    NetPayableIsTheSumOfItems(inputs, params, settings);
    hide DayNumber, ScaleMonths, Round, DaysPaid, DailyWage;
    var b := ComputeSettlement(inputs, params, settings).value;
    NoDaysPayNothing(b.dailyWage);
  }
}
