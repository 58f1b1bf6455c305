/** The itemised settlement and what holds of every settlement it computes. */
module Settlement {
  import opened Calendar
  import opened Money
  import opened Tenure
  import opened Pesangon
  import opened Wrappers

  datatype SettlementInputs = SettlementInputs(
    reason: OffboardingReason, joinDate: NaiveDate, lastWorkingDay: NaiveDate,
    monthlyWage: real, unusedLeaveDays: real)

  datatype Breakdown = Breakdown(
    severanceCase: Option<StatutoryCase>, legalBasis: string, statutoryEffectiveFrom: NaiveDate,
    started: bool, tenureYears: real, serviceYears: nat,
    monthlyWage: real, dailyWage: real, workDaysPerWeek: nat,
    pesangonMonths: real, pesangonMultiplier: real, upmkMonths: real, upmkMultiplier: real,
    uangPesangon: real, upmk: real, uangPisah: real, severanceTotal: real,
    unusedLeaveDays: real, unusedLeavePayout: real,
    lastPay: LastPay, netPayable: real)

  const FIXED_TERM_END_BASIS :=
    "PKWT ended — no pesangon or UPMK; PKWT compensation (PP 35/2021 Pasal 15-16) not included"

  /** The multipliers of a case; a fixed-term end has none and earns no uang pisah. */
  const FIXED_TERM_PARAMS := ReasonParams(0.0, 0.0, false, FIXED_TERM_END_BASIS)

  /** A statutory item: months for the tenure times the case's multiplier times the wage. */
  function StatutoryItem(months: real, multiplier: real, monthly: real): real {
    Round(months * multiplier * monthly)
  }

  /** Uang pisah: the company's months of wage. */
  function PisahItem(months: real, monthly: real): real {
    Round(months * monthly)
  }

  /** The case settled under and its parameters. */
  function CaseParams(reason: OffboardingReason, params: SeveranceParams)
    : Result<(Option<StatutoryCase>, ReasonParams), PesangonError>
  {
    var basis :- Basis(reason);
    match basis
    case FixedTermEnd => Success((None, FIXED_TERM_PARAMS))
    case Case(code) =>
      if Known(code) in params.reasons then Success((Some(code), params.reasons[Known(code)]))
      else Failure(IncompleteStatutoryParams)
  }

  function ComputeSettlement(inputs: SettlementInputs, params: SeveranceParams, settings: SeveranceSettings)
    : Result<Breakdown, PesangonError>
  {
    ComputeWithTenure(inputs, TenureYears(inputs.joinDate, inputs.lastWorkingDay), params, settings)
  }

  function ComputeWithTenure(
    inputs: SettlementInputs, tenure: real, params: SeveranceParams, settings: SeveranceSettings)
    : Result<Breakdown, PesangonError>
  {
    var (severanceCase, caseParams) :- CaseParams(inputs.reason, params);
    Success(Itemise(inputs, tenure, params, settings, severanceCase, caseParams))
  }

  function Itemise(
    inputs: SettlementInputs, givenTenure: real, params: SeveranceParams, settings: SeveranceSettings,
    severanceCase: Option<StatutoryCase>, p: ReasonParams)
    : Breakdown
  {
    var started := AtOrBefore(inputs.joinDate, inputs.lastWorkingDay);
    var monthly := Max(inputs.monthlyWage, 0.0);
    var daily := DailyWage(monthly, settings.workWeek);
    var tenure := if started then Max(givenTenure, 0.0) else 0.0;
    var serviceYears := CompletedYears(tenure);
    var pesangonMonths := ScaleMonths(params.pesangonScale, serviceYears);
    var upmkMonths := ScaleMonths(params.upmkScale, serviceYears);
    var uangPesangon := if started then StatutoryItem(pesangonMonths, p.pesangonMultiplier, monthly) else 0.0;
    var upmk := if started then StatutoryItem(upmkMonths, p.upmkMultiplier, monthly) else 0.0;
    var uangPisah :=
      if started && p.uangPisahEligible then PisahItem(Max(settings.uangPisahMonths, 0.0), monthly) else 0.0;
    var leaveDays := if started then Max(inputs.unusedLeaveDays, 0.0) else 0.0;
    var leavePayout := DaysPaid(daily, leaveDays);
    var severanceTotal := Round(uangPesangon + upmk + uangPisah);
    Breakdown(
      severanceCase, p.article, params.EffectiveFrom(),
      started, tenure, serviceYears,
      monthly, daily, settings.workWeek.Days(),
      pesangonMonths, p.pesangonMultiplier, upmkMonths, p.upmkMultiplier,
      uangPesangon, upmk, uangPisah, severanceTotal,
      leaveDays, leavePayout,
      ComputeLastPay(inputs.joinDate, inputs.lastWorkingDay, monthly, settings.workWeek),
      Round(severanceTotal + leavePayout))
  }

  // ---- When the calculation refuses --------------------------------------

  /** On a checked set the calculation refuses exactly one reason. */
  lemma RefusesOnlyTermination(inputs: SettlementInputs, params: SeveranceParams, settings: SeveranceSettings)
    requires params.Check().Success?
    ensures ComputeSettlement(inputs, params, settings).Failure? <==> inputs.reason.Termination?
  {
  }

  // ---- Conservation ------------------------------------------------------

  /** An amount on the ledger grid. */
  ghost predicate WholeSen(x: real) {
    Round(x) == x
  }

  /** The two outer roundings change nothing: the severance total is the exact sum of its three
      items, and what is booked and paid is the exact sum of the four. */
  lemma NetPayableIsTheSumOfItems(inputs: SettlementInputs, params: SeveranceParams, settings: SeveranceSettings)
    requires ComputeSettlement(inputs, params, settings).Success?
    ensures var b := ComputeSettlement(inputs, params, settings).value;
            && b.severanceTotal == b.uangPesangon + b.upmk + b.uangPisah
            && b.netPayable == b.uangPesangon + b.upmk + b.uangPisah + b.unusedLeavePayout
            && WholeSen(b.severanceTotal) && WholeSen(b.unusedLeavePayout) && WholeSen(b.netPayable)
  {
    hide ScaleMonths, ComputeLastPay, TenureYears, CompletedYears, DailyWage, StatutoryItem, PisahItem, DaysPaid,
        Round, WholeSen;
    var b := ComputeSettlement(inputs, params, settings).value;
    ItemsAreWholeSen(b.pesangonMonths, b.pesangonMultiplier, b.monthlyWage);
    ItemsAreWholeSen(b.upmkMonths, b.upmkMultiplier, b.monthlyWage);
    ItemsAreWholeSen(Max(settings.uangPisahMonths, 0.0), 0.0, b.monthlyWage);
    ItemsAreWholeSen(b.dailyWage, b.unusedLeaveDays, 0.0);
    SumOfWholeSen(b.uangPesangon, b.upmk, b.uangPisah);
    SumOfWholeSen(b.severanceTotal, b.unusedLeavePayout, 0.0);
  }

  /** Every rounded item is a whole number of sen, and so is nothing at all. */
  lemma ItemsAreWholeSen(x: real, y: real, z: real)
    ensures WholeSen(StatutoryItem(x, y, z)) && WholeSen(PisahItem(x, z)) && WholeSen(DaysPaid(x, y))
    ensures WholeSen(0.0)
  {
    RoundIsWholeSen(x * y * z);
    RoundIsWholeSen(x * z);
    RoundIsWholeSen(x * y);
    RoundOfSen(0);
  }

  lemma RoundIsWholeSen(d: real)
    ensures WholeSen(Round(d))
  {
    RoundOfSen(Sen(d));
  }

  lemma SumOfWholeSen(a: real, b: real, c: real)
    requires WholeSen(a) && WholeSen(b) && WholeSen(c)
    ensures WholeSen(a + b + c) && Round(a + b + c) == a + b + c
  {
    RoundOfSum(a, b, c);
  }

  // ---- Rounding error ----------------------------------------------------

  /** The formula with no rounding anywhere. */
  ghost function Unrounded(p: ReasonParams, pesangonMonths: real, upmkMonths: real, pisahMonths: real,
                           monthly: real, leaveDays: real, workWeek: WorkWeek): real {
    Product(Product(pesangonMonths, p.pesangonMultiplier), monthly)
    + Product(Product(upmkMonths, p.upmkMultiplier), monthly)
    + (if p.uangPisahEligible then Product(pisahMonths, monthly) else 0.0)
    + Product(ExactDailyWage(monthly, workWeek), leaveDays)
  }

  ghost function Product(x: real, y: real): real {
    x * y
  }

  /** Rounding each item once, and the daily wage once before it is multiplied by the leave
      days, moves the total by at most half a sen per item and half a sen per leave day. */
  lemma RoundingErrorIsBounded(inputs: SettlementInputs, params: SeveranceParams, settings: SeveranceSettings)
    requires ComputeSettlement(inputs, params, settings).Success?
    requires AtOrBefore(inputs.joinDate, inputs.lastWorkingDay)
    ensures var b := ComputeSettlement(inputs, params, settings).value;
            var p := CaseParams(inputs.reason, params).value.1;
            Abs(b.netPayable - Unrounded(p, b.pesangonMonths, b.upmkMonths, Max(settings.uangPisahMonths, 0.0),
                                         b.monthlyWage, b.unusedLeaveDays, settings.workWeek))
            <= (4.0 + b.unusedLeaveDays) * 0.005
  {
    hide ScaleMonths, ComputeLastPay, TenureYears, CompletedYears, ItemSum, Unrounded;
    var b := ComputeSettlement(inputs, params, settings).value;
    NetPayableIsItemSum(inputs, params, settings);
    ItemSumError(CaseParams(inputs.reason, params).value.1, b.pesangonMonths, b.upmkMonths,
                 Max(settings.uangPisahMonths, 0.0), b.monthlyWage, b.unusedLeaveDays, settings.workWeek);
  }

  lemma ItemSumError(p: ReasonParams, pm: real, um: real, pisahMonths: real,
                     monthly: real, leaveDays: real, workWeek: WorkWeek)
    requires leaveDays >= 0.0
    ensures Abs(ItemSum(p, pisahMonths, pm, um, monthly, leaveDays, workWeek)
                - Unrounded(p, pm, um, pisahMonths, monthly, leaveDays, workWeek))
            <= (4.0 + leaveDays) * 0.005
  {
    hide StatutoryItem, PisahItem, DaysPaid, Round, ExactDailyWage, Product;
    ItemErrors(pm, p.pesangonMultiplier, monthly);
    ItemErrors(um, p.upmkMultiplier, monthly);
    ItemErrors(pisahMonths, 0.0, monthly);
    var exactDaily := ExactDailyWage(monthly, workWeek);
    RoundWithinHalfSen(exactDaily);
    LeaveError(Round(exactDaily), exactDaily, leaveDays);
  }

  lemma ItemErrors(x: real, y: real, z: real)
    ensures Abs(StatutoryItem(x, y, z) - Product(Product(x, y), z)) <= 0.005
    ensures Abs(PisahItem(x, z) - Product(x, z)) <= 0.005
  {
  }

  /** The daily wage's own rounding error is carried once per leave day. */
  lemma LeaveError(rounded: real, exact: real, days: real)
    requires Abs(rounded - exact) <= 0.005 && days >= 0.0
    ensures Abs(DaysPaid(rounded, days) - Product(exact, days)) <= (1.0 + days) * 0.005
  {
    hide Round;
    RoundWithinHalfSen(rounded * days);
    Distributes(rounded, exact, days);
    CarriedAtMost(rounded - exact, days, (rounded - exact) * days);
    CarriedAtMost(exact - rounded, days, (exact - rounded) * days);
    Distributes(exact, rounded, days);
  }

  lemma Distributes(a: real, b: real, days: real)
    ensures (a - b) * days == a * days - b * days
  {
  }

  lemma CarriedAtMost(error: real, days: real, carried: real)
    requires error <= 0.005 && days >= 0.0 && carried == error * days
    ensures carried <= 0.005 * days
  {
    var slack := 0.005 - error;
    ProductKeepsOrder(0.0, slack, 0.0, days);
    Distributes(0.005, error, days);
  }

  // ---- Monotonicity of the settlement ------------------------------------

  /** Months rise with service and no multiplier is negative. */
  ghost predicate Regular(params: SeveranceParams) {
    && params.Complete()
    && NonDecreasingMonths(params.pesangonScale) && params.pesangonScale[0].months >= 0.0
    && NonDecreasingMonths(params.upmkScale) && params.upmkScale[0].months >= 0.0
    && forall c :: c in params.reasons ==>
         params.reasons[c].pesangonMultiplier >= 0.0 && params.reasons[c].upmkMultiplier >= 0.0
  }

  /** The item amounts as a function of what they depend on. */
  function ItemSum(p: ReasonParams, pisahMonths: real, pesangonMonths: real, upmkMonths: real,
                   monthly: real, leaveDays: real, workWeek: WorkWeek): real {
    StatutoryItem(pesangonMonths, p.pesangonMultiplier, monthly)
    + StatutoryItem(upmkMonths, p.upmkMultiplier, monthly)
    + (if p.uangPisahEligible then PisahItem(pisahMonths, monthly) else 0.0)
    + DaysPaid(DailyWage(monthly, workWeek), leaveDays)
  }

  lemma DailyWageGrows(a: real, b: real, workWeek: WorkWeek)
    requires 0.0 <= a <= b
    ensures 0.0 <= DailyWage(a, workWeek) <= DailyWage(b, workWeek)
  {
    hide Round;
    var d := workWeek.DailyDivisor();
    assert 0.0 <= a / d <= b / d;
    RoundKeepsOrder(a / d, b / d);
    RoundWithinHalfSen(a / d);
  }

  lemma ItemsGrow(x: real, x': real, y: real, y': real, z: real, z': real)
    requires 0.0 <= x <= x' && 0.0 <= y <= y' && 0.0 <= z <= z'
    ensures 0.0 <= StatutoryItem(x, y, z) <= StatutoryItem(x', y', z')
    ensures 0.0 <= PisahItem(x, z) <= PisahItem(x', z')
    ensures 0.0 <= DaysPaid(x, y) <= DaysPaid(x', y')
  {
    hide Round;
    ProductKeepsOrder(x, x', y, y');
    ProductKeepsOrder(x * y, x' * y', z, z');
    ProductKeepsOrder(x, x', z, z');
    RoundKeepsOrder(x * y * z, x' * y' * z');
    RoundKeepsOrder(x * z, x' * z');
    RoundKeepsOrder(x * y, x' * y');
    RoundWithinHalfSen(x * y * z);
    RoundWithinHalfSen(x * z);
    RoundWithinHalfSen(x * y);
  }

  lemma ItemSumGrows(p: ReasonParams, pisahMonths: real, pm: real, um: real, pm': real, um': real,
                     wage: real, wage': real, leave: real, leave': real, workWeek: WorkWeek)
    requires p.pesangonMultiplier >= 0.0 && p.upmkMultiplier >= 0.0 && pisahMonths >= 0.0
    requires 0.0 <= pm <= pm' && 0.0 <= um <= um' && 0.0 <= wage <= wage' && 0.0 <= leave <= leave'
    ensures 0.0 <= ItemSum(p, pisahMonths, pm, um, wage, leave, workWeek)
                <= ItemSum(p, pisahMonths, pm', um', wage', leave', workWeek)
  {
    hide StatutoryItem, PisahItem, DaysPaid, DailyWage;
    ItemsGrow(pm, pm', p.pesangonMultiplier, p.pesangonMultiplier, wage, wage');
    ItemsGrow(um, um', p.upmkMultiplier, p.upmkMultiplier, wage, wage');
    ItemsGrow(pisahMonths, pisahMonths, 0.0, 0.0, wage, wage');
    DailyWageGrows(wage, wage', workWeek);
    ItemsGrow(DailyWage(wage, workWeek), DailyWage(wage', workWeek), leave, leave', 0.0, 0.0);
  }

  lemma NoDaysPayNothing(daily: real)
    ensures DaysPaid(daily, 0.0) == 0.0
  {
  }

  /** The net payable is the item sum at the scale months of the service. */
  lemma NetPayableIsItemSum(inputs: SettlementInputs, params: SeveranceParams, settings: SeveranceSettings)
    requires ComputeSettlement(inputs, params, settings).Success?
    ensures var b := ComputeSettlement(inputs, params, settings).value;
            var (c, p) := CaseParams(inputs.reason, params).value;
            b.netPayable == if b.started
              then ItemSum(p, Max(settings.uangPisahMonths, 0.0),
                           ScaleMonths(params.pesangonScale, b.serviceYears),
                           ScaleMonths(params.upmkScale, b.serviceYears),
                           Max(inputs.monthlyWage, 0.0), Max(inputs.unusedLeaveDays, 0.0), settings.workWeek)
              else 0.0
  {
    hide ScaleMonths, ComputeLastPay, TenureYears, CompletedYears, StatutoryItem, PisahItem, DaysPaid, DailyWage, Round;
    NetPayableIsTheSumOfItems(inputs, params, settings);
    NoDaysPayNothing(ComputeSettlement(inputs, params, settings).value.dailyWage);
  }

  /** A later last working day, an earlier join date, a higher wage or more leave never lowers
      what the leaver is paid, through anniversaries, tenure, scale lookup and rounding. */
  lemma NetPayableGrows(a: SettlementInputs, b: SettlementInputs, params: SeveranceParams, settings: SeveranceSettings)
    requires a.reason == b.reason && Regular(params)
    requires AtOrBefore(b.joinDate, a.joinDate) && AtOrBefore(a.lastWorkingDay, b.lastWorkingDay)
    requires a.monthlyWage <= b.monthlyWage && a.unusedLeaveDays <= b.unusedLeaveDays
    requires ComputeSettlement(a, params, settings).Success?
    ensures ComputeSettlement(b, params, settings).Success?
    ensures 0.0 <= ComputeSettlement(a, params, settings).value.netPayable
                <= ComputeSettlement(b, params, settings).value.netPayable
  {
    hide ScaleMonths, ComputeLastPay, TenureYears, CompletedYears, Round, WorkWeek.DailyDivisor,
         ItemSum, DailyWage, DayNumber;
    NetPayableIsItemSum(a, params, settings);
    NetPayableIsItemSum(b, params, settings);
    var x := ComputeSettlement(a, params, settings).value;
    var y := ComputeSettlement(b, params, settings).value;
    var (c, p) := CaseParams(a.reason, params).value;
    TenureGrows(a.joinDate, a.lastWorkingDay, b.joinDate, b.lastWorkingDay);
    OrderIsDayNumberOrder(a.joinDate, a.lastWorkingDay);
    OrderIsDayNumberOrder(b.joinDate, a.joinDate);
    OrderIsDayNumberOrder(a.lastWorkingDay, b.lastWorkingDay);
    OrderIsDayNumberOrder(b.joinDate, b.lastWorkingDay);
    assert x.started ==> y.started;
    var pisah := Max(settings.uangPisahMonths, 0.0);
    if y.started {
      var from := if x.started then x.serviceYears else y.serviceYears;
      ScaleMonthsGrow(params.pesangonScale, from, y.serviceYears);
      ScaleMonthsGrow(params.upmkScale, from, y.serviceYears);
      ItemSumGrows(p, pisah,
        ScaleMonths(params.pesangonScale, from), ScaleMonths(params.upmkScale, from),
        ScaleMonths(params.pesangonScale, y.serviceYears), ScaleMonths(params.upmkScale, y.serviceYears),
        Max(a.monthlyWage, 0.0), Max(b.monthlyWage, 0.0),
        Max(a.unusedLeaveDays, 0.0), Max(b.unusedLeaveDays, 0.0), settings.workWeek);
    }
  }

  // ---- The final month ---------------------------------------------------

  lemma WorkingDaysUpToGrows(m: int, n: int, workWeek: WorkWeek)
    requires m <= n
    ensures WorkingDaysUpTo(m, workWeek) <= WorkingDaysUpTo(n, workWeek)
  {
  }

  /** Any seven consecutive days hold exactly a work week. */
  lemma SevenDaysHoldAWorkWeek(from: NaiveDate, last: NaiveDate, workWeek: WorkWeek)
    requires DayNumber(last) == DayNumber(from) + 6
    ensures WorkingDays(from, last, workWeek) == workWeek.Days()
  {
    WorkingDaysClosedForm(from, last, workWeek);
    WeekOnLine(DayNumber(from) - 1, workWeek);
  }

  lemma WeekOnLine(n: int, workWeek: WorkWeek)
    ensures WorkingDaysUpTo(n + 7, workWeek) == WorkingDaysUpTo(n, workWeek) + workWeek.Days()
  {
  }

  lemma WorkingDaysGrow(from: NaiveDate, a: NaiveDate, b: NaiveDate, workWeek: WorkWeek)
    requires AtOrBefore(from, a) && AtOrBefore(a, b)
    ensures WorkingDays(from, a, workWeek) <= WorkingDays(from, b, workWeek)
  {
    hide WorkingDaysUpTo, DayNumber;
    OrderIsDayNumberOrder(from, a);
    OrderIsDayNumberOrder(a, b);
    WorkingDaysClosedForm(from, a, workWeek);
    WorkingDaysClosedForm(from, b, workWeek);
    WorkingDaysUpToGrows(DayNumber(a), DayNumber(b), workWeek);
  }

  /** The last pay is between nothing and the month's wage, and a full calendar month pays the
      month's wage. */
  lemma LastPayBounds(join: NaiveDate, last: NaiveDate, wage: real, workWeek: WorkWeek)
    requires wage >= 0.0
    ensures 0.0 <= ComputeLastPay(join, last, wage, workWeek).amount <= Round(wage)
    ensures AtOrBefore(join, MonthStart(last)) && last == MonthEnd(last) ==>
              ComputeLastPay(join, last, wage, workWeek).amount == Round(wage)
  {
    hide Round, DailyWage, WorkingDays, DaysPaid;
    RoundWithinHalfSen(wage);
    DailyWageGrows(wage, wage, workWeek);
    var n := WorkingDays(Later(join, MonthStart(last)), last, workWeek);
    ItemsGrow(DailyWage(wage, workWeek), DailyWage(wage, workWeek), n as real, n as real, 0.0, 0.0);
  }

  /** Within one month a later last day never lowers the last pay, into the full month too. */
  lemma LastPayGrowsWithinMonth(join: NaiveDate, a: NaiveDate, b: NaiveDate, wage: real, workWeek: WorkWeek)
    requires wage >= 0.0 && AtOrBefore(a, b) && MonthStart(a) == MonthStart(b)
    ensures ComputeLastPay(join, a, wage, workWeek).amount <= ComputeLastPay(join, b, wage, workWeek).amount
  {
    hide Round, DailyWage, WorkingDays, DaysPaid;
    LastPayBounds(join, a, wage, workWeek);
    LastPayBounds(join, b, wage, workWeek);
    var from := Later(join, MonthStart(a));
    if AtOrBefore(join, a) && !(from == MonthStart(a) && b == MonthEnd(b)) {
      assert a != MonthEnd(a) || from != MonthStart(a);
      DailyWageGrows(wage, wage, workWeek);
      WorkingDaysGrow(from, a, b, workWeek);
      ItemsGrow(DailyWage(wage, workWeek), DailyWage(wage, workWeek),
        WorkingDays(from, a, workWeek) as real, WorkingDays(from, b, workWeek) as real, 0.0, 0.0);
    }
  }

  /** The end of a fixed term pays the leave and no severance, whatever the set and the settings. */
  lemma FixedTermEndPaysOnlyLeave(inputs: SettlementInputs, params: SeveranceParams, settings: SeveranceSettings)
    requires inputs.reason.EndOfContract?
    ensures var r := ComputeSettlement(inputs, params, settings);
            r.Success? && r.value.severanceTotal == 0.0 && r.value.netPayable == r.value.unusedLeavePayout
  {
    hide TenureYears, ScaleMonths, ComputeLastPay;
    NetPayableIsTheSumOfItems(inputs, params, settings);
  }

  // ---- What the stored figures reproduce --------------------------------------

  lemma RoundIsRupiah(d: real)
    ensures Round(d) == Rupiah(Sen(d))
  {
  }

  lemma DaysReproduceIff(daily: real, sen: int, days: real)
    requires daily == Rupiah(sen)
    ensures DaysPaid(daily, days) == daily * days <==> sen as real * days == (sen as real * days).Floor as real
  {
    hide Round;
    var product, inSen := daily * days, sen as real * days;
    HundredfoldProduct(daily, days, sen as real);
    assert product * 100.0 == inSen;
    RoundedIffWhole(product);
    DaysPaidRounds(daily, days, product);
  }

  lemma DaysPaidRounds(daily: real, days: real, product: real)
    requires product == daily * days
    ensures DaysPaid(daily, days) == Round(product)
  {
  }

  lemma HundredfoldProduct(a: real, b: real, c: real)
    requires a * 100.0 == c
    ensures a * b * 100.0 == c * b
  {
  }

  lemma RoundedIffWhole(d: real)
    ensures Round(d) == d <==> d * 100.0 == (d * 100.0).Floor as real
  {
  }

  lemma WholeProduct(a: int, b: int)
    ensures var product := a as real * b as real;
            product == (a * b) as real && product == product.Floor as real
  {
  }

  /** The daily wage is a whole number of sen, and so is any whole number of days of it. */
  lemma WholeDaysReproduce(wage: real, workWeek: WorkWeek, days: int)
    ensures DaysPaid(DailyWage(wage, workWeek), days as real) == DailyWage(wage, workWeek) * days as real
  {
    hide Round, Sen, Rupiah, DaysPaid;
    var sen := Sen(ExactDailyWage(wage, workWeek));
    RoundIsRupiah(ExactDailyWage(wage, workWeek));
    WholeProduct(sen, days);
    DaysReproduceIff(DailyWage(wage, workWeek), sen, days as real);
  }

  /** When daily wage times days reproduces the last pay of a started employee: in a part month, when
      it does not pass the month's wage; in a full month, when it is that wage. */
  lemma LastPayReproducesIff(join: NaiveDate, last: NaiveDate, wage: real, workWeek: WorkWeek)
    requires AtOrBefore(join, last)
    ensures var pay := ComputeLastPay(join, last, wage, workWeek);
            var product := DailyWage(wage, workWeek) * pay.workingDays as real;
            var fullMonth := AtOrBefore(join, MonthStart(last)) && last == MonthEnd(last);
            pay.amount == product <==> if fullMonth then product == Round(wage) else product <= Round(wage)
  {
    hide Round, DailyWage, WorkingDays, DaysPaid, DayNumber;
    WholeDaysReproduce(wage, workWeek, ComputeLastPay(join, last, wage, workWeek).workingDays);
  }

  /** When it reproduces the leave payout: exactly when the leave days come to a whole number of sen,
      as any whole number of days does. */
  lemma LeaveReproducesIff(wage: real, workWeek: WorkWeek, leaveDays: real)
    ensures var sen := Sen(ExactDailyWage(wage, workWeek)) as real * leaveDays;
            DaysPaid(DailyWage(wage, workWeek), leaveDays) == DailyWage(wage, workWeek) * leaveDays <==>
            sen == sen.Floor as real
  {
    hide Round, Sen, Rupiah, DaysPaid;
    RoundIsRupiah(ExactDailyWage(wage, workWeek));
    DaysReproduceIff(DailyWage(wage, workWeek), Sen(ExactDailyWage(wage, workWeek)), leaveDays);
  }

  /** Half a day's leave at an odd number of sen is not reproduced: 100.01 a day pays 50.01. */
  lemma HalfDayIsNotReproduced()
    ensures DailyWage(2100.21, FiveDay) == 100.01
    ensures DaysPaid(100.01, 0.5) == 50.01 && 100.01 * 0.5 == 50.005
  {
  }
}
