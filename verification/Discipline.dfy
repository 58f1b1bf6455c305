/** Warning letters: the record table and its verbs. The verbs that read and then write without a
    lock are kept as two halves. Instants are integers. */
module Discipline {
  import opened Text
  import opened Wrappers

  type Id = nat

  datatype Level = Sp1 | Sp2 | Sp3
  datatype Status = Issued | Acknowledged | AcknowledgedPending | Contested | Cancelled
  datatype Disposition = Delivered | WitnessedRefusal

  datatype Record = Record(
    employeeId: Id, level: Level, offense: string, description: string, disposition: Disposition,
    issuedAt: int, validUntil: int, status: Status, acknowledgedAt: Option<int>,
    cancelReason: Option<string>, priorActiveSp1: nat, priorActiveSp2: nat)

  datatype NewRecord = NewRecord(
    employeeId: Id, level: Level, offense: string, description: string, disposition: Disposition, validUntil: int)

  datatype DisciplineError = NotFound | InvalidState | Invalid | ContestFailed

  /** The one shared activity predicate: served, neither contested nor cancelled, and unexpired. */
  predicate IsActive(r: Record, now: int) {
    r.status in {Issued, Acknowledged, AcknowledgedPending} && now <= r.validUntil
  }

  function ActiveRecords(records: map<Id, Record>, employee: Id, level: Level, now: int): set<Id> {
    set id | id in records
             && records[id].employeeId == employee && records[id].level == level && IsActive(records[id], now)
  }

  predicate IsBlank(s: string) {
    Trim(s) == ""
  }

  // ---- Issue ---------------------------------------------------------------

  /** The read half: checks, and the row to insert with the ladder as it stands now. */
  function IssueRead(records: map<Id, Record>, n: NewRecord, now: int): Result<Record, DisciplineError> {
    if IsBlank(n.offense) || IsBlank(n.description) || n.validUntil <= now then Failure(Invalid)
    else
      Success(Record(
        n.employeeId, n.level, n.offense, n.description, n.disposition, now, n.validUntil, Issued, None, None,
        |ActiveRecords(records, n.employeeId, Sp1, now)|, |ActiveRecords(records, n.employeeId, Sp2, now)|))
  }

  // ---- The employee's lane --------------------------------------------------

  predicate IsOpenToEmployee(records: map<Id, Record>, id: Id, employee: Id) {
    id in records && records[id].employeeId == employee && records[id].status in {Issued, AcknowledgedPending}
  }

  function Acknowledge(
      records: map<Id, Record>, id: Id, employee: Id, now: int)
    : (map<Id, Record>, Result<(), DisciplineError>)
  {
    if !IsOpenToEmployee(records, id, employee) then (records, Failure(InvalidState))
    else (records[id := records[id].(status := Acknowledged, acknowledgedAt := Some(now))], Success(()))
  }

  /** The row is locked while the contest is filed; a refused filing leaves it as it was. */
  function Contest(records: map<Id, Record>, id: Id, employee: Id, reason: string, filed: Option<Id>)
    : (map<Id, Record>, Result<Id, DisciplineError>)
  {
    if IsBlank(reason) then (records, Failure(Invalid))
    else if !IsOpenToEmployee(records, id, employee) then (records, Failure(InvalidState))
    else if filed.None? then (records, Failure(ContestFailed))
    else (records[id := records[id].(status := Contested)], Success(filed.value))
  }

  // ---- The moves -----------------------------------------------------------

  datatype Mover = Upheld | Refused | HrCancels(reason: string)

  const UPHELD_REASON := "contest upheld by review"

  function Target(m: Mover): Status {
    if m.Refused? then AcknowledgedPending else Cancelled
  }

  function Reason(m: Mover): Option<string> {
    match m
    case Upheld => Some(UPHELD_REASON)
    case Refused => None
    case HrCancels(reason) => Some(reason)
  }

  /** The read half: an unlocked look at the status. */
  function MoveRead(records: map<Id, Record>, id: Id, m: Mover): Result<(), DisciplineError> {
    if m.HrCancels? && IsBlank(m.reason) then Failure(Invalid)
    else if id !in records then Failure(NotFound)
    else if records[id].status.Cancelled? && !Target(m).Cancelled? then Failure(InvalidState)
    else if !m.HrCancels? && !records[id].status.Contested? then Failure(InvalidState)
    else Success(())
  }

  /** The write half: guarded only against a cancelled row, whatever the read half saw. */
  function MoveWrite(records: map<Id, Record>, id: Id, m: Mover): map<Id, Record> {
    if id in records && !records[id].status.Cancelled?
    then records[id := records[id].(status := Target(m), cancelReason := Reason(m))]
    else records
  }

  /** A move that nothing comes between. */
  function Move(records: map<Id, Record>, id: Id, m: Mover): (map<Id, Record>, Result<(), DisciplineError>) {
    var read := MoveRead(records, id, m);
    if read.Failure? then (records, Failure(read.error)) else (MoveWrite(records, id, m), Success(()))
  }

  /** The documented lifecycle: what each actor may do to a record's status. */
  predicate IsEdge(m: Option<Mover>, before: Status, after: Status) {
    || before == after
    || (m.None? && before in {Issued, AcknowledgedPending} && after in {Acknowledged, Contested})
    || (m == Some(Refused) && before.Contested? && after.AcknowledgedPending?)
    || (m == Some(Upheld) && before.Contested? && after.Cancelled?)
    || (m.Some? && m.value.HrCancels? && after.Cancelled?)
  }
}
