/** What a computed settlement was assembled from: which rows of which tables. */
module Assembly {
  import opened Calendar
  import opened Inputs
  import opened Pesangon
  import opened Settings
  import opened Settlement
  import opened SettlementItems
  import opened StatutoryTables
  import opened Wrappers

  // ---- The rows read -----------------------------------------------------------

  /** The date of a live employment of the employee, and of the earliest. */
  ghost predicate IsEarliestJoin(rows: seq<Employment>, employee: Id, join: NaiveDate) {
    && (exists e :: e in rows && e.employeeId == employee && !e.deleted && e.joinDate == join)
    && (forall e :: e in rows && e.employeeId == employee && !e.deleted ==> AtOrBefore(join, e.joinDate))
  }

  /** A live salary of the employee with an amount, and not an exit's total. */
  predicate IsPay(x: Compensation, employee: Id) {
    x.employeeId == employee && x.newAmount.Some? && x.changeType == SalaryChange && !x.deleted
  }

  /** Effective later, or at the same time and recorded later; what has no date is earliest. */
  predicate IsMoreRecent(x: Compensation, y: Compensation) {
    if x.effectiveDate != y.effectiveDate then
      x.effectiveDate.Some?
      && (y.effectiveDate.None? || DayNumber(y.effectiveDate.value) < DayNumber(x.effectiveDate.value))
    else
      x.createdAt.Some? && (y.createdAt.None? || y.createdAt.value < x.createdAt.value)
  }

  ghost predicate IsLatestPay(rows: seq<Compensation>, employee: Id, pay: Compensation) {
    pay in rows && IsPay(pay, employee) && forall x :: x in rows && IsPay(x, employee) ==> !IsMoreRecent(x, pay)
  }

  lemma AheadIsMoreRecent(x: Compensation, y: Compensation)
    ensures Ahead(x, y) <==> IsMoreRecent(x, y)
  {
    hide DayNumber;
    if x.effectiveDate.Some? && y.effectiveDate.Some? {
      OrderIsDayNumberOrder(y.effectiveDate.value, x.effectiveDate.value);
    }
  }

  lemma LatestPayIsRead(rows: seq<Compensation>, employee: Id)
    requires CurrentSalary(rows, employee).Some?
    ensures IsLatestPay(rows, employee, CurrentSalary(rows, employee).value)
    ensures CurrentSalary(rows, employee).value.newAmount.Some?
  {
    hide CurrentSalary, Ahead, IsMoreRecent;
    CurrentSalarySortsFirst(rows, employee);
    var pay := CurrentSalary(rows, employee).value;
    forall x | x in rows && IsPay(x, employee) ensures !IsMoreRecent(x, pay) {
      AheadIsMoreRecent(x, pay);
    }
  }

  /** The set is the statutory one of the day: each table's whole set of its greatest date in force,
      and a row of that date behind every case. */
  ghost predicate IsSetOfDay(db: StatutoryDb, country: string, day: NaiveDate, params: SeveranceParams) {
    && params.Complete()
    && IsGreatestInForce(db.pesangonScale, country, day, params.pesangonEffectiveFrom)
    && IsWholeScale(db.pesangonScale, country, params.pesangonEffectiveFrom, params.pesangonScale)
    && IsGreatestInForce(db.upmkScale, country, day, params.upmkEffectiveFrom)
    && IsWholeScale(db.upmkScale, country, params.upmkEffectiveFrom, params.upmkScale)
    && IsGreatestInForce(db.reasonParams, country, day, params.reasonsEffectiveFrom)
    && forall code :: code in params.reasons ==>
         Row(country, params.reasonsEffectiveFrom, CaseRow(code, params.reasons[code])) in db.reasonParams
  }

  lemma ResolvedIsSetOfDay(db: StatutoryDb, country: string, day: NaiveDate)
    requires SeveranceParamsAsOf(db, country, day).Success?
    ensures IsSetOfDay(db, country, day, SeveranceParamsAsOf(db, country, day).value)
  {
    ScalesAreWholeSets(db, country, day);
    CasesAreOneWholeSet(db, country, day);
    hide ScaleAsOf, IsGreatestInForce, IsWholeScale, SetOf, EffectiveAt, CaseTable, SeveranceParams.Complete;
  }

  // ---- The assembly ------------------------------------------------------------

  /** The settlement of these inputs, read for this employee, reason and last day. */
  ghost predicate IsAssembled(
      src: Sources, parse: string -> Option<real>, employee: Id, reason: OffboardingReason, last: NaiveDate,
      inputs: SettlementInputs, params: SeveranceParams, settings: SeveranceSettings, b: Breakdown)
  {
    && inputs.reason == reason && inputs.lastWorkingDay == last
    && IsEarliestJoin(src.employments, employee, inputs.joinDate)
    && (exists pay :: IsLatestPay(src.compensation, employee, pay) && pay.newAmount == Some(inputs.monthlyWage))
    && AllApplied(DEFAULT_SETTINGS, src.settings, parse) == Success(settings)
    && inputs.unusedLeaveDays == UnusedLeaveDays(src.balances, employee, settings.leaveTypeCodes, last)
    && IsSetOfDay(src.statutory, "ID", last, params)
    && ComputeSettlement(inputs, params, settings) == Success(b)
  }

  /** A computed settlement is assembled from the earliest live employment, the latest live salary, the
      settings stored, the leave that outlives the last day, and the statutory set of that day. */
  lemma AssembledFromItsRows(
      src: Sources, parse: string -> Option<real>, employee: Id, reason: OffboardingReason, last: NaiveDate)
    returns (inputs: SettlementInputs, params: SeveranceParams, settings: SeveranceSettings)
    requires ComputeForOffboarding(src, parse, employee, reason, last).Success?
    ensures IsAssembled(src, parse, employee, reason, last, inputs, params, settings,
                        ComputeForOffboarding(src, parse, employee, reason, last).value)
  {
    hide ComputeSettlement, SeveranceParamsAsOf, JoinDate, CurrentSalary, UnusedLeaveDays, AllApplied, IsSetOfDay,
      IsMoreRecent, Ahead, IsPay, Before, AtOrBefore, IsEarliestJoin, IsLatestPay;
    settings := AllApplied(DEFAULT_SETTINGS, src.settings, parse).value;
    params := SeveranceParamsAsOf(src.statutory, SEVERANCE_COUNTRY, last).value;
    var pay := CurrentSalary(src.compensation, employee).value;
    inputs := SettlementInputs(reason, JoinDate(src.employments, employee).value, last, pay.newAmount.GetOr(0.0),
      UnusedLeaveDays(src.balances, employee, settings.leaveTypeCodes, last));
    JoinIsEarliest(src.employments, employee);
    LatestPayIsRead(src.compensation, employee);
    ResolvedIsSetOfDay(src.statutory, SEVERANCE_COUNTRY, last);
  }

  /** The breakdown is the settlement of some inputs, set and settings read for this employee, reason and
      last day. */
  ghost predicate WasAssembled(
      src: Sources, parse: string -> Option<real>, employee: Id, reason: OffboardingReason, last: NaiveDate,
      b: Breakdown)
  {
    exists inputs, params, settings :: IsAssembled(src, parse, employee, reason, last, inputs, params, settings, b)
  }

  lemma ComputedWasAssembled(
      src: Sources, parse: string -> Option<real>, employee: Id, reason: OffboardingReason, last: NaiveDate)
    requires ComputeForOffboarding(src, parse, employee, reason, last).Success?
    ensures WasAssembled(src, parse, employee, reason, last,
                         ComputeForOffboarding(src, parse, employee, reason, last).value)
  {
    hide ComputeForOffboarding, IsAssembled;
    var inputs, params, settings := AssembledFromItsRows(src, parse, employee, reason, last);
  }

  lemma JoinIsEarliest(rows: seq<Employment>, employee: Id)
    requires JoinDate(rows, employee).Some?
    ensures IsEarliestJoin(rows, employee, JoinDate(rows, employee).value)
  {
    JoinDateIsEarliest(rows, employee);
  }

  ghost predicate HasJoined(rows: seq<Employment>, employee: Id) {
    exists e :: e in rows && e.employeeId == employee && !e.deleted
  }

  ghost predicate HasPay(rows: seq<Compensation>, employee: Id) {
    exists x :: x in rows && IsPay(x, employee)
  }

  /** When a settlement can be computed, and what is missing otherwise: a termination that says no more is
      refused first, then a missing employment, then a missing salary; past those, exactly unusable
      settings or an unresolved statutory set refuse. */
  lemma ComputesIff(
      src: Sources, parse: string -> Option<real>, employee: Id, reason: OffboardingReason, last: NaiveDate)
    ensures var r := ComputeForOffboarding(src, parse, employee, reason, last);
            var joined, paid := HasJoined(src.employments, employee), HasPay(src.compensation, employee);
            && (reason == Termination ==> r == Failure(Refused(UnspecificReason)))
            && (reason != Termination && !joined ==> r == Failure(MissingJoinDate))
            && (reason != Termination && joined && !paid ==> r == Failure(MissingSalary))
            && (r.Success? <==>
                && reason != Termination && joined && paid
                && AllApplied(DEFAULT_SETTINGS, src.settings, parse).Success?
                && SeveranceParamsAsOf(src.statutory, "ID", last).Success?)
  {
    JoinDateIsEarliest(src.employments, employee);
    CurrentSalarySortsFirst(src.compensation, employee);
    assert HasPay(src.compensation, employee) <==> exists x :: x in src.compensation && IsSalary(x, employee);
    hide ComputeSettlement, SeveranceParamsAsOf, JoinDate, CurrentSalary, UnusedLeaveDays, AllApplied, Ahead,
      SeveranceParams.Complete;
    var params := SeveranceParamsAsOf(src.statutory, "ID", last);
    var settings := AllApplied(DEFAULT_SETTINGS, src.settings, parse);
    if params.Success? && settings.Success? {
      ResolvedIsChecked(src.statutory, "ID", last);
      forall inputs: SettlementInputs
        ensures ComputeSettlement(inputs, params.value, settings.value).Failure? <==> inputs.reason.Termination?
      {
        RefusesOnlyTermination(inputs, params.value, settings.value);
      }
    }
  }

  lemma ResolvedIsChecked(db: StatutoryDb, country: string, day: NaiveDate)
    requires SeveranceParamsAsOf(db, country, day).Success?
    ensures SeveranceParamsAsOf(db, country, day).value.Check().Success?
  {
    ResolvedIsSetOfDay(db, country, day);
  }

  /** Where the figures of a settlement under a statutory case stand: the multipliers, the article and
      the eligibility in a row of the case's date, and the months of each scale in the row of its own
      table and date with the greatest bound reached; and the stamped date is the latest of the three. */
  ghost predicate StandsInTables(
      db: StatutoryDb, last: NaiveDate, c: StatutoryCase, b: Breakdown,
      p: NaiveDate, u: NaiveDate, r: NaiveDate, pesangon: BandRow, upmk: BandRow, own: ReasonParams)
  {
    && IsGreatestInForce(db.pesangonScale, "ID", last, p)
    && IsGreatestInForce(db.upmkScale, "ID", last, u)
    && IsGreatestInForce(db.reasonParams, "ID", last, r)
    && IsLatest(b.statutoryEffectiveFrom, p, u, r)
    && IsBandRow(db.pesangonScale, "ID", p, b.serviceYears, pesangon) && b.pesangonMonths == pesangon.months
    && IsBandRow(db.upmkScale, "ID", u, b.serviceYears, upmk) && b.upmkMonths == upmk.months
    && Row("ID", r, CaseRow(Known(c), own)) in db.reasonParams
    && b.severanceCase == Some(c) && b.legalBasis == own.article
    && b.pesangonMultiplier == own.pesangonMultiplier && b.upmkMultiplier == own.upmkMultiplier
    && (!own.uangPisahEligible ==> b.uangPisah == 0.0)
  }

  lemma SetGivesFigures(
      db: StatutoryDb, last: NaiveDate, inputs: SettlementInputs, params: SeveranceParams,
      settings: SeveranceSettings, c: StatutoryCase, b: Breakdown)
    returns (pesangon: BandRow, upmk: BandRow)
    requires IsSetOfDay(db, "ID", last, params) && inputs.reason == Specific(c)
    requires ComputeSettlement(inputs, params, settings) == Success(b)
    ensures StandsInTables(db, last, c, b, params.pesangonEffectiveFrom, params.upmkEffectiveFrom,
                           params.reasonsEffectiveFrom, pesangon, upmk, params.reasons[Known(c)])
  {
    hide ComputeSettlement, IsGreatestInForce, IsWholeScale, IsBandRow, IsLatest, ScaleComplete, ScaleMonths;
    SettlesUnderItsCase(inputs, params, settings, c);
    MonthsAreLookedUp(inputs, params, settings);
    pesangon := MonthsAreOfARow(
      db.pesangonScale, "ID", params.pesangonEffectiveFrom, params.pesangonScale, b.serviceYears);
    upmk := MonthsAreOfARow(db.upmkScale, "ID", params.upmkEffectiveFrom, params.upmkScale, b.serviceYears);
    if !params.reasons[Known(c)].uangPisahEligible {
      IneligibleGetsNoPisah(inputs, params, settings, c);
    }
  }

  lemma FiguresStandInTheTables(
      src: Sources, parse: string -> Option<real>, employee: Id, last: NaiveDate, c: StatutoryCase)
    returns (p: NaiveDate, u: NaiveDate, r: NaiveDate, pesangon: BandRow, upmk: BandRow, own: ReasonParams)
    requires ComputeForOffboarding(src, parse, employee, Specific(c), last).Success?
    ensures StandsInTables(src.statutory, last, c,
                           ComputeForOffboarding(src, parse, employee, Specific(c), last).value,
                           p, u, r, pesangon, upmk, own)
  {
    hide ComputeForOffboarding, ComputeSettlement, StandsInTables, IsEarliestJoin, IsLatestPay, UnusedLeaveDays,
      AllApplied;
    var inputs, params, settings := AssembledFromItsRows(src, parse, employee, Specific(c), last);
    p, u, r := params.pesangonEffectiveFrom, params.upmkEffectiveFrom, params.reasonsEffectiveFrom;
    own := params.reasons[Known(c)];
    pesangon, upmk := SetGivesFigures(src.statutory, last, inputs, params, settings, c,
      ComputeForOffboarding(src, parse, employee, Specific(c), last).value);
  }

  lemma MonthsAreLookedUp(inputs: SettlementInputs, params: SeveranceParams, settings: SeveranceSettings)
    requires ComputeSettlement(inputs, params, settings).Success?
    ensures var b := ComputeSettlement(inputs, params, settings).value;
            && b.pesangonMonths == ScaleMonths(params.pesangonScale, b.serviceYears)
            && b.upmkMonths == ScaleMonths(params.upmkScale, b.serviceYears)
  {
  }

  lemma IneligibleGetsNoPisah(
      inputs: SettlementInputs, params: SeveranceParams, settings: SeveranceSettings, c: StatutoryCase)
    requires inputs.reason == Specific(c) && params.Check().Success? && !params.reasons[Known(c)].uangPisahEligible
    ensures ComputeSettlement(inputs, params, settings).value.uangPisah == 0.0
  {
  }
}
