/** The cross-module reads behind a settlement, and the one assembly that the close verb and
    the draft verb share. */
module Inputs {
  import opened Calendar
  import opened Pesangon
  import opened Settlement
  import opened Settings
  import opened StatutoryTables
  import opened Wrappers

  type Id = nat

  const SEVERANCE_COUNTRY := "ID"

  datatype Employment = Employment(employeeId: Id, joinDate: NaiveDate, active: bool, deleted: bool)

  /** A compensation change; the settlement total of an exit is recorded here too, under its own
      change type. */
  datatype ChangeType = OffboardingTotal | SalaryChange

  datatype Compensation = Compensation(
    employeeId: Id, newAmount: Option<real>, changeType: ChangeType,
    effectiveDate: Option<NaiveDate>, createdAt: Option<int>, deleted: bool)

  datatype LeaveBalance = LeaveBalance(
    employeeId: Id, typeCode: string, granted: real, taken: real, expiredAt: Option<NaiveDate>, deleted: bool)

  datatype Sources = Sources(
    employments: seq<Employment>, compensation: seq<Compensation>, balances: seq<LeaveBalance>,
    settings: seq<Setting>, statutory: StatutoryDb)

  // ---- The three reads ---------------------------------------------------

  /** The earliest join date of the employee's live employments, whatever their status. */
  function JoinDate(rows: seq<Employment>, employee: Id): Option<NaiveDate> {
    if rows == [] then None
    else
      var rest := JoinDate(rows[1..], employee);
      if rows[0].employeeId == employee && !rows[0].deleted
         && (rest.None? || Before(rows[0].joinDate, rest.value))
      then Some(rows[0].joinDate)
      else rest
  }

  predicate IsSalary(c: Compensation, employee: Id) {
    c.employeeId == employee && c.newAmount.Some? && c.changeType != OffboardingTotal && !c.deleted
  }

  /** Descending, absent values last. */
  predicate LaterDate(a: Option<NaiveDate>, b: Option<NaiveDate>) {
    a.Some? && (b.None? || Before(b.value, a.value))
  }

  predicate LaterStamp(a: Option<int>, b: Option<int>) {
    a.Some? && (b.None? || b.value < a.value)
  }

  /** `a` sorts ahead of `b`: later effective date, then later creation. */
  predicate Ahead(a: Compensation, b: Compensation) {
    || LaterDate(a.effectiveDate, b.effectiveDate)
    || (a.effectiveDate == b.effectiveDate && LaterStamp(a.createdAt, b.createdAt))
  }

  /** The salary row that sorts first; of rows that tie, the one stored first. */
  function CurrentSalary(rows: seq<Compensation>, employee: Id): Option<Compensation> {
    if rows == [] then None
    else
      var rest := CurrentSalary(rows[1..], employee);
      if IsSalary(rows[0], employee) && (rest.None? || !Ahead(rest.value, rows[0])) then Some(rows[0]) else rest
  }

  predicate PaidOut(b: LeaveBalance, employee: Id, codes: seq<string>, asOf: NaiveDate) {
    && b.employeeId == employee && b.typeCode in codes && !b.deleted
    && (b.expiredAt.None? || Before(asOf, b.expiredAt.value))
  }

  function UnusedLeaveDays(rows: seq<LeaveBalance>, employee: Id, codes: seq<string>, asOf: NaiveDate): real {
    if rows == [] then 0.0
    else (if PaidOut(rows[0], employee, codes, asOf) then rows[0].granted - rows[0].taken else 0.0)
         + UnusedLeaveDays(rows[1..], employee, codes, asOf)
  }

  // ---- The assembly ------------------------------------------------------

  datatype ComputeError = MissingJoinDate | MissingSalary | Refused(error: PesangonError)

  function Lift<T>(r: Result<T, PesangonError>): Result<T, ComputeError> {
    match r
    case Success(v) => Success(v)
    case Failure(e) => Failure(Refused(e))
  }

  /** Reason first, then the inputs, the settings, the leave and the statutory set. */
  function ComputeForOffboarding(
    src: Sources, parse: string -> Option<real>, employee: Id, reason: OffboardingReason, last: NaiveDate)
    : Result<Breakdown, ComputeError>
  {
    var basis :- Lift(Basis(reason));
    var join := JoinDate(src.employments, employee);
    var salary := CurrentSalary(src.compensation, employee);
    if join.None? then Failure(MissingJoinDate)
    else if salary.None? then Failure(MissingSalary)
    else
      var settings :- Lift(AllApplied(DEFAULT_SETTINGS, src.settings, parse));
      var leave := UnusedLeaveDays(src.balances, employee, settings.leaveTypeCodes, last);
      var params :- Lift(SeveranceParamsAsOf(src.statutory, SEVERANCE_COUNTRY, last));
      Lift(ComputeSettlement(
        SettlementInputs(reason, join.value, last, salary.value.newAmount.GetOr(0.0), leave), params, settings))
  }

  // ---- Meaning of the reads ----------------------------------------------

  /** The join date read is the earliest of a live employment. */
  lemma {:induction false} JoinDateIsEarliest(rows: seq<Employment>, employee: Id)
    ensures var j := JoinDate(rows, employee);
            && (j.None? <==> forall e :: e in rows && e.employeeId == employee ==> e.deleted)
            && (j.Some? ==>
                 && (exists e :: e in rows && e.employeeId == employee && !e.deleted && e.joinDate == j.value)
                 && (forall e :: e in rows && e.employeeId == employee && !e.deleted ==>
                       AtOrBefore(j.value, e.joinDate)))
  {
    if rows != [] {
      JoinDateIsEarliest(rows[1..], employee);
      assert forall e :: e in rows <==> e == rows[0] || e in rows[1..];
    }
  }

  /** The salary read is a salary row that no other salary row sorts ahead of, and there is none
      exactly when the employee has no salary row. */
  lemma {:induction false} CurrentSalarySortsFirst(rows: seq<Compensation>, employee: Id)
    ensures var c := CurrentSalary(rows, employee);
            && (c.None? <==> forall x :: x in rows ==> !IsSalary(x, employee))
            && (c.Some? ==>
                 && c.value in rows && IsSalary(c.value, employee)
                 && forall x :: x in rows && IsSalary(x, employee) ==> !Ahead(x, c.value))
  {
    if rows != [] {
      CurrentSalarySortsFirst(rows[1..], employee);
      assert forall x :: x in rows <==> x == rows[0] || x in rows[1..];
    }
  }

  // ---- What the consumers of a closed exit may change ---------------------

  /** Employments that differ in status only. */
  ghost predicate SameService(a: seq<Employment>, b: seq<Employment>) {
    && |a| == |b|
    && forall i :: 0 <= i < |a| ==> a[i].(active := b[i].active) == b[i]
  }

  lemma {:induction false} JoinDateIgnoresStatus(a: seq<Employment>, b: seq<Employment>, employee: Id)
    requires SameService(a, b)
    ensures JoinDate(a, employee) == JoinDate(b, employee)
  {
    if a != [] {
      assert a[0].(active := b[0].active) == b[0];
      JoinDateIgnoresStatus(a[1..], b[1..], employee);
    }
  }

  /** A row that is no salary of the employee, recorded anywhere, leaves the salary read alone. */
  lemma {:induction false} SalaryIgnoresOtherRows(
      before: seq<Compensation>, row: Compensation, after: seq<Compensation>, employee: Id)
    requires !IsSalary(row, employee)
    ensures CurrentSalary(before + [row] + after, employee) == CurrentSalary(before + after, employee)
  {
    if before == [] {
      assert before + [row] + after == [row] + after && before + after == after;
    } else {
      SalaryIgnoresOtherRows(before[1..], row, after, employee);
      assert (before + [row] + after)[1..] == before[1..] + [row] + after;
      assert (before + after)[1..] == before[1..] + after;
    }
  }

  /** Recording the settlement total in payroll and flipping employment statuses changes no
      settlement: the same breakdown, or the same refusal, is computed before and after. */
  lemma ConsumersChangeNoSettlement(
    src: Sources, src': Sources, total: Compensation, parse: string -> Option<real>,
    employee: Id, reason: OffboardingReason, last: NaiveDate)
    requires total.changeType == OffboardingTotal
    requires SameService(src.employments, src'.employments)
    requires src'.compensation == src.compensation + [total] || src'.compensation == src.compensation
    requires src'.balances == src.balances && src'.settings == src.settings && src'.statutory == src.statutory
    ensures ComputeForOffboarding(src', parse, employee, reason, last)
         == ComputeForOffboarding(src, parse, employee, reason, last)
  {
    hide AllApplied, UnusedLeaveDays, SeveranceParamsAsOf, ComputeSettlement;
    JoinDateIgnoresStatus(src.employments, src'.employments, employee);
    SalaryIgnoresOtherRows(src.compensation, total, [], employee);
    assert src.compensation + [total] + [] == src.compensation + [total];
    assert src.compensation + [] == src.compensation;
  }

  /** A balance row, recorded anywhere, adds what is left of it exactly when it is a live balance of
      the employee, of a type paid out, that outlives the last working day; else it adds nothing. */
  lemma {:induction false} LeaveAddsUp(
      before: seq<LeaveBalance>, b: LeaveBalance, after: seq<LeaveBalance>, employee: Id, codes: seq<string>,
          last: NaiveDate)
    ensures UnusedLeaveDays([], employee, codes, last) == 0.0
    ensures UnusedLeaveDays(before + [b] + after, employee, codes, last)
         == UnusedLeaveDays(before + after, employee, codes, last)
            + (if b.employeeId == employee && b.typeCode in codes && !b.deleted
                  && (b.expiredAt.Some? ==> DayNumber(last) < DayNumber(b.expiredAt.value))
               then b.granted - b.taken else 0.0)
  {
    hide DayNumber;
    if b.expiredAt.Some? { OrderIsDayNumberOrder(last, b.expiredAt.value); }
    if before == [] {
      assert [] + [b] + after == [b] + after && [] + after == after;
    } else {
      LeaveAddsUp(before[1..], b, after, employee, codes, last);
      assert (before + [b] + after)[1..] == before[1..] + [b] + after;
      assert (before + after)[1..] == before[1..] + after;
    }
  }
}
