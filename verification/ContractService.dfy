/** The contract write service over its tables. The approvals engine's answer, today's date and the
    rows other transactions hold are parameters. */
module ContractService {
  import opened Calendar
  import opened ContractOrigins
  import opened Contracts
  import opened Months
  import opened Reminders
  import opened Wrappers

  lemma {:induction false} EarliestExists(contracts: seq<Contract>, ids: set<Id>) returns (id: Id)
    requires ids != {} && forall i :: i in ids ==> i < |contracts| && contracts[i].endDate.Some?
    ensures id in ids && forall other :: other in ids ==> EndsNoLater(contracts, id, other)
    decreases |ids|
  {
    hide DayNumber;
    id :| id in ids;
    var rest := ids - {id};
    if rest != {} {
      var earliest := EarliestExists(contracts, rest);
      assert ids == rest + {id};
      if !EndsNoLater(contracts, id, earliest) {
        id := earliest;
      }
    }
  }

  class ContractWriteService {
    var contracts: seq<Contract>
    var exits: seq<TermEndExit>
    var notices: seq<Id>

    constructor ()
      ensures Rows() == Store([], []) && notices == []
    {
      contracts, exits, notices := [], [], [];
    }

    ghost function Rows(): Store
      reads this
    {
      Store(contracts, exits)
    }

    /** The insert, under the index that allows one active contract for an employment. */
    method Insert(c: Contract) returns (inserted: bool)
      requires c.status.Active?
      modifies `contracts
      ensures inserted <==> !HasActive(old(contracts), c.employmentId)
      ensures contracts == if inserted then old(contracts) + [c] else old(contracts)
    {
      inserted := !HasActive(contracts, c.employmentId);
      if inserted {
        contracts := contracts + [c];
      }
    }

    method SetStatus(id: Id, status: ContractStatus)
      requires id < |contracts|
      modifies `contracts
      ensures Rows() == WithStatus(old(Rows()), id, status)
    {
      contracts := contracts[id := contracts[id].(status := status)];
    }

    method Create(n: NewContract) returns (r: Result<Id, ContractError>)
      modifies `contracts
      ensures (Rows(), r) == Contracts.Create(old(Rows()), n)
    {
      hide DayNumber, MonthsBetween;
      if n.contractType.Pkwt? && n.endDate.None? {
        return Failure(Invalid);
      }
      if n.endDate.Some? && AtOrBefore(n.endDate.value, n.startDate) {
        return Failure(Invalid);
      }
      var months := OwnMonths(n.contractType, n.startDate, n.endDate);
      var id := |contracts|;
      var inserted := Insert(Contract(
        n.employmentId, n.employeeId, n.contractType, n.startDate, n.endDate, Active, None, months, None));
      r := if inserted then Success(id) else Failure(InvalidState);
    }

    method FileDecision(id: Id, outcome: Decision, newEnd: Option<NaiveDate>, today: NaiveDate, accepted: bool)
      returns (r: Result<Filing, ContractError>)
      modifies `contracts
      ensures (Rows(), r) == Contracts.FileDecision(old(Rows()), id, outcome, newEnd, today, accepted)
    {
      hide DayNumber, RenewalStart;
      if id >= |contracts| || !contracts[id].status.Active? {
        return Failure(NotFound);
      }
      var c := contracts[id];
      match outcome {
        case Renew =>
          if !c.contractType.Pkwt? || newEnd.None? {
            return Failure(Invalid);
          }
          var start := RenewalStart(c.endDate, today);
          if !Before(start, newEnd.value) {
            return Failure(Invalid);
          }
        case Convert =>
          if !c.contractType.Pkwt? {
            return Failure(Invalid);
          }
        case End =>
          if c.endDate.None? {
            return Failure(Invalid);
          }
      }
      if !accepted {
        return Failure(Transport);
      }
      SetStatus(id, DecisionPending);
      r := Success(Filing(id, outcome, newEnd));
    }

    method ApplyDecision(id: Id, outcome: Decision, newEnd: Option<NaiveDate>, today: NaiveDate)
      returns (r: Result<Option<Id>, ContractError>)
      modifies `contracts, `exits
      ensures (Rows(), r) == Contracts.ApplyDecision(old(Rows()), id, outcome, newEnd, today)
      ensures id < |old(contracts)| && old(contracts)[id].status == DecisionPending && r.Success? ==>
                IsApplied(old(Rows()), Filing(id, outcome, newEnd), today, Rows(), r.value)
    {
      hide DayNumber, RenewalStart, OwnMonths, HasActive, IsApplied;
      if id < |contracts| && contracts[id].status == DecisionPending
         && Contracts.ApplyDecision(Rows(), id, outcome, newEnd, today).1.Success?
      {
        AppliedAsFiled(Rows(), id, outcome, newEnd, today);
      }
      if id >= |contracts| {
        return Failure(NotFound);
      }
      var c := contracts[id];
      if c.status.Superseded? || c.status.Ended? {
        return Success(None);
      }
      if !c.status.DecisionPending? {
        return Failure(InvalidState);
      }
      if outcome.End? {
        if c.endDate.None? {
          return Failure(Invalid);
        }
        SetStatus(id, Ended);
        var notice := if Before(c.endDate.value, today) then c.endDate.value else today;
        exits := exits + [TermEndExit(c.employeeId, notice, c.endDate.value, id)];
        return Success(Some(|exits| - 1));
      }
      if outcome.Renew? && newEnd.None? {
        return Failure(Invalid);
      }
      var start := if outcome.Renew? then RenewalStart(c.endDate, today) else today;
      if outcome.Renew? && AtOrBefore(newEnd.value, start) {
        return Failure(Invalid);
      }
      var next :=
        if outcome.Renew? then
          Contract(c.employmentId, c.employeeId, Pkwt, start, newEnd, Active, Some(id),
                   c.cumulativeMonths + OwnMonths(Pkwt, start, newEnd), None)
        else
          Contract(c.employmentId, c.employeeId, Pkwtt, start, None, Active, Some(id), 0, None);
      var inserted := Insert(next);
      if !inserted {
        return Failure(UniqueViolation);
      }
      SetStatus(id, Superseded);
      assert contracts == old(contracts)[id := old(contracts)[id].(status := Superseded)] + [next];
      r := Success(None);
    }

    method RefuseDecision(id: Id) returns (r: Result<(), ContractError>)
      modifies `contracts
      ensures (Rows(), r) == Contracts.RefuseDecision(old(Rows()), id)
    {
      if id >= |contracts| || !contracts[id].status.DecisionPending? {
        return Failure(InvalidState);
      }
      if HasActive(contracts, contracts[id].employmentId) {
        return Failure(UniqueViolation);
      }
      SetStatus(id, Active);
      r := Success(());
    }

    /** The tick's query: the earliest ends first, up to the limit, past the rows others hold. */
    method FetchDue(w: Window, locked: set<Id>) returns (batch: seq<Id>)
      ensures IsBatch(contracts, w, locked, batch)
    {
      hide DayNumber;
      batch := [];
      var due := DueRows(contracts, w, locked);
      var rest := due;
      while |batch| < BATCH_LIMIT && rest != {}
        invariant NoRepeats(batch) && |batch| <= BATCH_LIMIT
        invariant forall id :: id in due <==> id in batch || id in rest
        invariant forall id :: id in batch ==> id !in rest
        invariant forall i, j :: 0 <= i < j < |batch| ==> EndsNoLater(contracts, batch[i], batch[j])
        invariant forall id, other :: id in batch && other in rest ==> EndsNoLater(contracts, id, other)
        decreases |rest|
      {
        ghost var earliest := EarliestExists(contracts, rest);
        var id :| id in rest && forall other :: other in rest ==> EndsNoLater(contracts, id, other);
        batch := batch + [id];
        rest := rest - {id};
      }
    }

    /** The tick: each row is stamped and its notice sent, one after the other. */
    method RemindDueFrom(now: int, w: Window, locked: set<Id>) returns (batch: seq<Id>)
      modifies `contracts, `notices
      ensures IsBatch(old(contracts), w, locked, batch)
      ensures contracts == Stamped(old(contracts), batch, now)
      ensures notices == old(notices) + batch
    {
      hide IsBatch;
      batch := FetchDue(w, locked);
      BatchIsDue(contracts, w, locked, batch);
      for k := 0 to |batch|
        invariant |contracts| == |old(contracts)|
        invariant contracts == Stamped(old(contracts), batch[..k], now)
        invariant notices == old(notices) + batch[..k]
      {
        var id := batch[k];
        assert id in batch;
        contracts := contracts[id := contracts[id].(reminderSentAt := Some(now))];
        notices := notices + [id];
        assert batch[..k + 1] == batch[..k] + [id];
      }
      assert batch[..|batch|] == batch;
    }
  }
}
