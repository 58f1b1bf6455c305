/** The discipline write service over its table. The engine's answer and the clock are parameters. */
module DisciplineService {
  import opened Discipline
  import opened Text
  import opened Wrappers

  class DisciplineWriteService {
    var records: map<Id, Record>

    constructor ()
      ensures records == map[]
    {
      records := map[];
    }

    /** Never refuses on the ladder: the prior active counts are stamped as evidence. */
    method Issue(id: Id, n: NewRecord, now: int) returns (r: Result<Id, DisciplineError>)
      requires id !in records
      modifies this
      ensures var read := IssueRead(old(records), n, now);
              && (read.Failure? ==> r == Failure(read.error) && records == old(records))
              && (read.Success? ==> r == Success(id) && records == old(records)[id := read.value])
    {
      hide Trim;
      if Trim(n.offense) == "" || Trim(n.description) == "" || n.validUntil <= now {
        return Failure(Invalid);
      }
      var sp1 := |ActiveRecords(records, n.employeeId, Sp1, now)|;
      var sp2 := |ActiveRecords(records, n.employeeId, Sp2, now)|;
      records := records[id := Record(
        n.employeeId, n.level, n.offense, n.description, n.disposition, now, n.validUntil, Issued, None, None,
        sp1, sp2)];
      r := Success(id);
    }

    method Acknowledge(id: Id, employee: Id, now: int) returns (r: Result<(), DisciplineError>)
      modifies this
      ensures (records, r) == Discipline.Acknowledge(old(records), id, employee, now)
    {
      if !IsOpenToEmployee(records, id, employee) {
        return Failure(InvalidState);
      }
      records := records[id := records[id].(status := Acknowledged, acknowledgedAt := Some(now))];
      r := Success(());
    }

    method Contest(id: Id, employee: Id, reason: string, filed: Option<Id>) returns (r: Result<Id, DisciplineError>)
      modifies this
      ensures (records, r) == Discipline.Contest(old(records), id, employee, reason, filed)
    {
      hide Trim;
      if Trim(reason) == "" {
        return Failure(Invalid);
      }
      if !IsOpenToEmployee(records, id, employee) {
        return Failure(InvalidState);
      }
      if filed.None? {
        return Failure(ContestFailed);
      }
      records := records[id := records[id].(status := Contested)];
      r := Success(filed.value);
    }

    /** `from` is None where any status will do. */
    method MoveStatus(
        id: Id, from: Option<Status>, to: Status, reason: Option<string>)
      returns (r: Result<(), DisciplineError>)
      modifies this
      ensures r.Failure? ==> records == old(records)
      ensures r == if id !in old(records) then Failure(NotFound)
                   else if old(records[id].status).Cancelled? && !to.Cancelled? then Failure(InvalidState)
                   else if from.Some? && from.value != old(records[id].status) then Failure(InvalidState)
                   else Success(())
      ensures r.Success? ==>
                records == if old(records[id].status).Cancelled? then old(records)
                           else old(records)[id := old(records[id]).(status := to, cancelReason := reason)]
    {
      if id !in records {
        return Failure(NotFound);
      }
      var current := records[id].status;
      if current == Cancelled && to != Cancelled {
        return Failure(InvalidState);
      }
      if from.Some? && current != from.value {
        return Failure(InvalidState);
      }
      if records[id].status != Cancelled {
        records := records[id := records[id].(status := to, cancelReason := reason)];
      }
      r := Success(());
    }

    method ContestUpheld(id: Id) returns (r: Result<(), DisciplineError>)
      modifies this
      ensures (records, r) == Move(old(records), id, Upheld)
    {
      r := MoveStatus(id, Some(Contested), Cancelled, Some(UPHELD_REASON));
    }

    method ContestRefused(id: Id) returns (r: Result<(), DisciplineError>)
      modifies this
      ensures (records, r) == Move(old(records), id, Refused)
    {
      r := MoveStatus(id, Some(Contested), AcknowledgedPending, None);
    }

    method Cancel(id: Id, reason: string) returns (r: Result<(), DisciplineError>)
      modifies this
      ensures (records, r) == Move(old(records), id, HrCancels(reason))
    {
      hide Trim;
      if Trim(reason) == "" {
        return Failure(Invalid);
      }
      r := MoveStatus(id, None, Cancelled, Some(reason));
    }
  }
}
