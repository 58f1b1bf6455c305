/** Every interleaving of the discipline verbs, with the read and write halves of issue and of the
    moves free to come apart. */
module DisciplineRuns {
  import opened Discipline
  import opened Wrappers

  datatype PendingMove = PendingMove(id: Id, mover: Mover)

  /** `filed` are the contests the engine took, by record. */
  datatype State = State(
    records: map<Id, Record>, issuing: map<Id, Record>, moving: map<nat, PendingMove>, filed: set<(Id, Id)>)

  datatype Event =
    | BeginIssue(id: Id, n: NewRecord, now: int)
    | EndIssue(id: Id)
    | DoAcknowledge(id: Id, employee: Id, now: int)
    /** `dies` is a crash after the engine's answer and before the commit. */
    | DoContest(id: Id, employee: Id, reason: string, request: Option<Id>, dies: bool)
    | BeginMove(call: nat, id: Id, mover: Mover)
    | EndMove(call: nat)
    | Die(call: nat, id: Id)

  function Next(s: State, e: Event): State {
    match e
    case BeginIssue(id, n, now) =>
      var row := IssueRead(s.records, n, now);
      if row.Failure? || id in s.records || id in s.issuing then s else s.(issuing := s.issuing[id := row.value])
    case EndIssue(id) =>
      if id !in s.issuing then s
      else s.(records := s.records[id := s.issuing[id]], issuing := s.issuing - {id})
    case DoAcknowledge(id, employee, now) => s.(records := Acknowledge(s.records, id, employee, now).0)
    case DoContest(id, employee, reason, request, dies) =>
      var (records, r) := Contest(s.records, id, employee, reason, request);
      s.(records := if dies then s.records else records,
         filed := if r.Success? then s.filed + {(id, r.value)} else s.filed)
    case BeginMove(call, id, mover) =>
      if MoveRead(s.records, id, mover).Failure? || call in s.moving then s
      else s.(moving := s.moving[call := PendingMove(id, mover)])
    case EndMove(call) =>
      if call !in s.moving then s
      else s.(records := MoveWrite(s.records, s.moving[call].id, s.moving[call].mover), moving := s.moving - {call})
    case Die(call, id) => s.(moving := s.moving - {call}, issuing := s.issuing - {id})
  }

  function Run(s: State, events: seq<Event>): State {
    if events == [] then s else Next(Run(s, events[..|events| - 1]), events[|events| - 1])
  }

  const EMPTY: State := State(map[], map[], map[], {})

  // ---- The invariant -------------------------------------------------------

  ghost predicate RecordSound(s: State, id: Id)
    requires id in s.records
  {
    var r := s.records[id];
    && (r.status.Cancelled? <==> r.cancelReason.Some?)
    && (r.cancelReason.Some? ==> !IsBlank(r.cancelReason.value))
    && (r.status.Contested? ==> exists request :: (id, request) in s.filed)
    && (r.status.Acknowledged? ==> r.acknowledgedAt.Some?)
  }

  ghost predicate Inv(s: State) {
    && (forall id :: id in s.records ==> RecordSound(s, id))
    && (forall id :: id in s.issuing ==>
          && id !in s.records && s.issuing[id].status.Issued?
          && s.issuing[id].cancelReason.None? && s.issuing[id].acknowledgedAt.None?)
    && (forall call :: call in s.moving ==>
          && s.moving[call].id in s.records
          && (s.moving[call].mover.HrCancels? ==> !IsBlank(s.moving[call].mover.reason)))
  }

  lemma UpheldReasonIsNotBlank()
    ensures !IsBlank(UPHELD_REASON)
  {
  }

  lemma IssueKeepsInv(s: State, e: Event)
    requires Inv(s) && (e.BeginIssue? || e.EndIssue? || e.Die?)
    ensures Inv(Next(s, e))
  {
    hide IsBlank, ActiveRecords;
    var s' := Next(s, e);
    forall id | id in s'.records ensures RecordSound(s', id) {
      if id in s.records { assert RecordSound(s, id); }
    }
  }

  lemma EmployeeKeepsInv(s: State, e: Event)
    requires Inv(s) && (e.DoAcknowledge? || e.DoContest?)
    ensures Inv(Next(s, e))
  {
  }

  lemma MoveKeepsInv(s: State, e: Event)
    requires Inv(s) && (e.BeginMove? || e.EndMove?)
    ensures Inv(Next(s, e))
  {
    UpheldReasonIsNotBlank();
    hide IsBlank;
    var s' := Next(s, e);
    forall id | id in s'.records ensures RecordSound(s', id) {
      assert RecordSound(s, id);
    }
  }

  lemma NextKeepsInv(s: State, e: Event)
    requires Inv(s)
    ensures Inv(Next(s, e))
  {
    hide Inv, Next;
    match e {
      case DoAcknowledge(_, _, _) => EmployeeKeepsInv(s, e);
      case DoContest(_, _, _, _, _) => EmployeeKeepsInv(s, e);
      case BeginMove(_, _, _) => MoveKeepsInv(s, e);
      case EndMove(_) => MoveKeepsInv(s, e);
      case _ => IssueKeepsInv(s, e);
    }
  }

  lemma {:induction false} RunKeepsInv(s: State, events: seq<Event>)
    requires Inv(s)
    ensures Inv(Run(s, events))
  {
    hide Inv, Next;
    if events != [] {
      RunKeepsInv(s, events[..|events| - 1]);
      NextKeepsInv(Run(s, events[..|events| - 1]), events[|events| - 1]);
    }
  }

  lemma EveryRunIsSound(events: seq<Event>)
    ensures Inv(Run(EMPTY, events))
  {
    RunKeepsInv(EMPTY, events);
  }

  // ---- Cancellation ---------------------------------------------------------

  /** In every run a record is cancelled exactly when it carries a reason, and the reason says
      something; a contested record has its contest on file. */
  lemma CancelledIffReason(events: seq<Event>, id: Id)
    requires id in Run(EMPTY, events).records
    ensures var s := Run(EMPTY, events);
            var r := s.records[id];
            && (r.status.Cancelled? <==> r.cancelReason.Some?)
            && (r.cancelReason.Some? ==> !IsBlank(r.cancelReason.value))
            && (r.status.Contested? ==> exists request :: (id, request) in s.filed)
  {
    hide Run, IsBlank;
    EveryRunIsSound(events);
    assert RecordSound(Run(EMPTY, events), id);
  }

  /** What no step changes once a record is stored: who, what, when served, and the snapshots. */
  predicate SameLetter(a: Record, b: Record) {
    b == a.(status := b.status, acknowledgedAt := b.acknowledgedAt, cancelReason := b.cancelReason)
  }

  lemma NextKeepsLetters(s: State, e: Event, id: Id)
    requires Inv(s) && id in s.records
    ensures id in Next(s, e).records && SameLetter(s.records[id], Next(s, e).records[id])
    ensures s.records[id].status.Cancelled? ==> Next(s, e).records[id] == s.records[id]
  {
    hide RecordSound, ActiveRecords, IsBlank;
  }

  lemma {:induction false} LettersNeverChange(s: State, later: seq<Event>, id: Id)
    requires Inv(s) && id in s.records
    ensures id in Run(s, later).records && SameLetter(s.records[id], Run(s, later).records[id])
    ensures s.records[id].status.Cancelled? ==> Run(s, later).records[id] == s.records[id]
  {
    hide Inv, Next;
    if later != [] {
      LettersNeverChange(s, later[..|later| - 1], id);
      RunKeepsInv(s, later[..|later| - 1]);
      NextKeepsLetters(Run(s, later[..|later| - 1]), later[|later| - 1], id);
    }
  }

  /** Cancelled is the end: whatever halves are still in flight, no later step changes the record,
      so the first reason stands. */
  lemma CancelledIsFinal(events: seq<Event>, later: seq<Event>, id: Id)
    requires id in Run(EMPTY, events).records && Run(EMPTY, events).records[id].status.Cancelled?
    ensures id in Run(Run(EMPTY, events), later).records
    ensures Run(Run(EMPTY, events), later).records[id] == Run(EMPTY, events).records[id]
  {
    hide Run;
    EveryRunIsSound(events);
    LettersNeverChange(Run(EMPTY, events), later, id);
  }

  /** A record that has expired is never active again. */
  lemma ExpiredStaysInactive(events: seq<Event>, later: seq<Event>, id: Id, now: int, then_: int)
    requires id in Run(EMPTY, events).records && Run(EMPTY, events).records[id].validUntil < now <= then_
    ensures id in Run(Run(EMPTY, events), later).records
    ensures !IsActive(Run(Run(EMPTY, events), later).records[id], then_)
  {
    hide Run;
    EveryRunIsSound(events);
    LettersNeverChange(Run(EMPTY, events), later, id);
  }

  /** A contest that the engine took is on file; the record is contested exactly unless the call died
      before its commit, and then the record is as it was. */
  lemma FiledContestIsRecordedIff(s: State, id: Id, employee: Id, reason: string, request: Id, dies: bool)
    requires Contest(s.records, id, employee, reason, Some(request)).1.Success?
    ensures var s' := Next(s, DoContest(id, employee, reason, Some(request), dies));
            && (id, request) in s'.filed && id in s'.records
            && (s'.records[id].status.Contested? <==> !dies)
            && (dies ==> s'.records == s.records)
  {
  }

  // ---- The issue-time snapshot ----------------------------------------------

  /** The employee's letters of a level that stand at an instant: whatever was acknowledged or not,
      none that is contested or cancelled, and none that has expired. */
  function Ladder(records: map<Id, Record>, employee: Id, level: Level, now: int): set<Id> {
    set id | id in records && records[id].employeeId == employee && records[id].level == level
             && records[id].status != Contested && records[id].status != Cancelled && records[id].validUntil >= now
  }

  lemma ActiveIsTheLadder(records: map<Id, Record>, employee: Id, level: Level, now: int)
    ensures ActiveRecords(records, employee, level, now) == Ladder(records, employee, level, now)
  {
  }

  /** A letter that says something, with the terms asked for. */
  predicate IsAsAsked(r: Record, n: NewRecord) {
    && r.employeeId == n.employeeId && r.level == n.level && r.disposition == n.disposition
    && r.offense == n.offense && r.description == n.description && r.validUntil == n.validUntil
    && !IsBlank(r.offense) && !IsBlank(r.description) && r.issuedAt < r.validUntil
  }

  /** The k-th event read the ladder for this record, and the row carries what it read. */
  ghost predicate ReadAt(events: seq<Event>, k: int, id: Id, r: Record) {
    && 0 <= k < |events| && events[k].BeginIssue? && events[k].id == id
    && IsAsAsked(r, events[k].n) && r.issuedAt == events[k].now
    && var records := Run(EMPTY, events[..k]).records;
       && id !in records
       && r.priorActiveSp1 == |Ladder(records, r.employeeId, Sp1, r.issuedAt)|
       && r.priorActiveSp2 == |Ladder(records, r.employeeId, Sp2, r.issuedAt)|
  }

  ghost predicate WasRead(events: seq<Event>, id: Id, r: Record) {
    exists k :: ReadAt(events, k, id, r)
  }

  lemma ReadAtExtends(events: seq<Event>, e: Event, id: Id, r: Record, r': Record)
    requires WasRead(events, id, r) && SameLetter(r, r')
    ensures WasRead(events + [e], id, r')
  {
    hide Run, Ladder, IsBlank;
    var k :| ReadAt(events, k, id, r);
    assert (events + [e])[..k] == events[..k];
    assert ReadAt(events + [e], k, id, r');
  }

  lemma ReadAtBegins(events: seq<Event>, e: Event, s: State)
    requires s == Run(EMPTY, events) && e.BeginIssue? && Next(s, e) != s
    ensures WasRead(events + [e], e.id, Next(s, e).issuing[e.id])
  {
    hide Run, ActiveRecords, Ladder, IsBlank;
    ActiveIsTheLadder(s.records, e.n.employeeId, Sp1, e.now);
    ActiveIsTheLadder(s.records, e.n.employeeId, Sp2, e.now);
    assert (events + [e])[..|events|] == events;
    assert ReadAt(events + [e], |events|, e.id, Next(s, e).issuing[e.id]);
  }

  lemma RunSteps(events: seq<Event>)
    ensures events == [] ==> Run(EMPTY, events) == EMPTY
    ensures events != [] ==> Run(EMPTY, events) == Next(Run(EMPTY, events[..|events| - 1]), events[|events| - 1])
  {
  }

  /** In every run, each letter has the terms its issue asked for, and its snapshots count the
      employee's letters of the two lower levels that stood when the issue read them, at the instant
      the letter is dated: a contested or cancelled letter counts for nobody. */
  lemma {:induction false} SnapshotsAreWhatIssueRead(events: seq<Event>)
    ensures var s := Run(EMPTY, events);
            && (forall id :: id in s.records ==> WasRead(events, id, s.records[id]))
            && (forall id :: id in s.issuing ==> WasRead(events, id, s.issuing[id]))
  {
    hide Run, WasRead, Inv, ActiveRecords, IsBlank;
    RunSteps(events);
    if events != [] {
      var before, e := events[..|events| - 1], events[|events| - 1];
      assert events == before + [e];
      var s := Run(EMPTY, before);
      var s' := Next(s, e);
      SnapshotsAreWhatIssueRead(before);
      EveryRunIsSound(before);
      forall id | id in s'.records ensures WasRead(events, id, s'.records[id]) {
        if id in s.records {
          NextKeepsLetters(s, e, id);
          ReadAtExtends(before, e, id, s.records[id], s'.records[id]);
        } else {
          ReadAtExtends(before, e, id, s.issuing[id], s'.records[id]);
        }
      }
      forall id | id in s'.issuing ensures WasRead(events, id, s'.issuing[id]) {
        if id in s.issuing {
          ReadAtExtends(before, e, id, s.issuing[id], s'.issuing[id]);
        } else {
          ReadAtBegins(before, e, s);
        }
      }
    }
  }

  lemma StoredLetterCounts(records: map<Id, Record>, id: Id, row: Record, now: int)
    requires id !in records && IsActive(row, now)
    ensures |ActiveRecords(records[id := row], row.employeeId, row.level, now)|
         == |ActiveRecords(records, row.employeeId, row.level, now)| + 1
  {
    assert ActiveRecords(records[id := row], row.employeeId, row.level, now)
        == ActiveRecords(records, row.employeeId, row.level, now) + {id};
  }

  /** That is not the count at the moment the letter is stored: of two letters issued at once,
      neither counts the other. */
  lemma RacingIssuesMissEachOther(s: State, a: Id, b: Id, n: NewRecord, now: int)
    requires a != b && a !in s.records && b !in s.records && s.issuing == map[]
    requires n.level.Sp1? && IssueRead(s.records, n, now).Success?
    ensures var stored := Next(Next(Next(s, BeginIssue(a, n, now)), BeginIssue(b, n, now)), EndIssue(a));
            var both := Next(stored, EndIssue(b));
            && b in both.records
            && both.records[b].priorActiveSp1 == |ActiveRecords(s.records, n.employeeId, Sp1, now)|
            && |ActiveRecords(stored.records, n.employeeId, Sp1, now)| == both.records[b].priorActiveSp1 + 1
  {
    hide IsBlank, ActiveRecords;
    var row := IssueRead(s.records, n, now).value;
    StoredLetterCounts(s.records, a, row, now);
    hide IssueRead;
    var reading := Next(Next(s, BeginIssue(a, n, now)), BeginIssue(b, n, now));
    assert reading == s.(issuing := map[a := row, b := row]);
  }

  /** A step that neither contests a record nor finishes a move, and is not this letter's own. */
  predicate LeavesActivity(e: Event, id: Id) {
    !e.DoContest? && !e.EndMove? && (e.BeginIssue? || e.EndIssue? || e.Die? ==> e.id != id)
  }

  predicate IsServed(s: Status) {
    s in {Issued, Acknowledged, AcknowledgedPending}
  }

  /** What such steps do to the table: every letter stays as active as it was, and every new one is
      active until it expires. */
  ghost predicate OnlyAdds(before: map<Id, Record>, after: map<Id, Record>) {
    && (forall x :: x in before ==>
          x in after && SameLetter(before[x], after[x])
          && ((IsServed(before[x].status) && IsServed(after[x].status)) || after[x].status == before[x].status))
    && (forall x :: x in after && x !in before ==> IsServed(after[x].status))
  }

  lemma StepOnlyAdds(s: State, e: Event, id: Id, before: map<Id, Record>)
    requires Inv(s) && LeavesActivity(e, id) && OnlyAdds(before, s.records)
    ensures OnlyAdds(before, Next(s, e).records)
    ensures id in s.issuing ==> id in Next(s, e).issuing && Next(s, e).issuing[id] == s.issuing[id]
  {
    hide RecordSound, IsBlank, ActiveRecords;
  }

  lemma {:induction false} RunOnlyAdds(s: State, later: seq<Event>, id: Id)
    requires Inv(s) && id in s.issuing && forall e :: e in later ==> LeavesActivity(e, id)
    ensures OnlyAdds(s.records, Run(s, later).records)
    ensures id in Run(s, later).issuing && Run(s, later).issuing[id] == s.issuing[id]
  {
    hide Inv, Next, LeavesActivity;
    if later == [] {
      NothingAdded(s.records);
    } else {
      var init, e := later[..|later| - 1], later[|later| - 1];
      assert later == init + [e];
      assert e in later && forall x :: x in init ==> x in later;
      RunOnlyAdds(s, init, id);
      RunKeepsInv(s, init);
      StepOnlyAdds(Run(s, init), e, id, s.records);
    }
  }

  lemma NothingAdded(records: map<Id, Record>)
    ensures OnlyAdds(records, records)
  {
  }

  /** A letter of the employee and level that was stored in between and had not expired then. */
  ghost predicate StoredBetween(before: map<Id, Record>, after: map<Id, Record>, employee: Id, level: Level, now: int) {
    exists x :: x in after && x !in before
                && after[x].employeeId == employee && after[x].level == level && now <= after[x].validUntil
  }

  /** The letters of the employee and level stored in between, unexpired. */
  function Added(before: map<Id, Record>, after: map<Id, Record>, employee: Id, level: Level, now: int): set<Id> {
    set x | x in after && x !in before
            && after[x].employeeId == employee && after[x].level == level && now <= after[x].validUntil
  }

  lemma ActiveGrows(before: map<Id, Record>, after: map<Id, Record>, employee: Id, level: Level, now: int)
    requires OnlyAdds(before, after)
    ensures ActiveRecords(after, employee, level, now)
         == ActiveRecords(before, employee, level, now) + Added(before, after, employee, level, now)
  {
  }

  lemma CountsAgreeIff(before: map<Id, Record>, after: map<Id, Record>, employee: Id, level: Level, now: int)
    requires OnlyAdds(before, after)
    ensures |ActiveRecords(after, employee, level, now)| == |ActiveRecords(before, employee, level, now)| <==>
            !StoredBetween(before, after, employee, level, now)
  {
    ActiveGrows(before, after, employee, level, now);
    hide OnlyAdds, IsActive;
    var added := Added(before, after, employee, level, now);
    if StoredBetween(before, after, employee, level, now) {
      var x :| x in after && x !in before
               && after[x].employeeId == employee && after[x].level == level && now <= after[x].validUntil;
      assert x in added;
    } else {
      assert added == {};
    }
    assert ActiveRecords(before, employee, level, now) !! added;
  }

  /** When a snapshot is the count at the insert as well. As long as no contest and no move is written
      between the read and the insert, each stored count equals the count the insert finds if and
      only if no letter of that employee and level, unexpired at the letter's date, was stored in
      between. */
  lemma SnapshotHoldsAtInsertIff(s: State, id: Id, n: NewRecord, now: int, later: seq<Event>)
    requires Inv(s) && id !in s.records && id !in s.issuing && IssueRead(s.records, n, now).Success?
    requires forall e :: e in later ==> LeavesActivity(e, id)
    ensures var found := Run(Next(s, BeginIssue(id, n, now)), later);
            var stored := Next(found, EndIssue(id));
            && id in stored.records
            && (stored.records[id].priorActiveSp1 == |ActiveRecords(found.records, n.employeeId, Sp1, now)| <==>
                !StoredBetween(s.records, found.records, n.employeeId, Sp1, now))
            && (stored.records[id].priorActiveSp2 == |ActiveRecords(found.records, n.employeeId, Sp2, now)| <==>
                !StoredBetween(s.records, found.records, n.employeeId, Sp2, now))
  {
    var reading := Next(s, BeginIssue(id, n, now));
    NextKeepsInv(s, BeginIssue(id, n, now));
    assert reading.records == s.records && reading.issuing[id] == IssueRead(s.records, n, now).value;
    hide Inv, Run, OnlyAdds, StoredBetween, LeavesActivity, IsBlank, ActiveRecords;
    RunOnlyAdds(reading, later, id);
    var found := Run(reading, later);
    CountsAgreeIff(s.records, found.records, n.employeeId, Sp1, now);
    CountsAgreeIff(s.records, found.records, n.employeeId, Sp2, now);
  }

  /** So an issue that nothing comes between stamps the counts its insert finds. */
  lemma UndividedIssueCountsTrue(s: State, id: Id, n: NewRecord, now: int)
    requires Inv(s) && id !in s.records && id !in s.issuing && IssueRead(s.records, n, now).Success?
    ensures var stored := Next(Next(s, BeginIssue(id, n, now)), EndIssue(id));
            && id in stored.records
            && stored.records[id].priorActiveSp1 == |ActiveRecords(s.records, n.employeeId, Sp1, now)|
            && stored.records[id].priorActiveSp2 == |ActiveRecords(s.records, n.employeeId, Sp2, now)|
  {
  }

  // ---- Stale moves -----------------------------------------------------------

  /** Every step that is not a write half follows the documented lifecycle. */
  lemma OtherStepsFollowTheLifecycle(s: State, e: Event, id: Id)
    requires Inv(s) && id in s.records && !e.EndMove?
    ensures id in Next(s, e).records && IsEdge(None, s.records[id].status, Next(s, e).records[id].status)
  {
  }

  /** A write half follows it exactly when it is HR's, or the record is still contested, or the
      write has nothing left to do. */
  lemma WriteFollowsTheLifecycleIff(s: State, call: nat)
    requires Inv(s) && call in s.moving
    ensures var (id, m) := (s.moving[call].id, s.moving[call].mover);
            var (before, after) := (s.records[id].status, Next(s, EndMove(call)).records[id].status);
            IsEdge(Some(m), before, after) <==>
              m.HrCancels? || before.Contested? || before.Cancelled? || before == Target(m)
  {
  }

  /** So a move that nothing comes between always follows it. */
  lemma UndividedMovesFollowTheLifecycle(s: State, call: nat, id: Id, m: Mover)
    requires Inv(s) && id in s.records && call !in s.moving
    ensures var s' := Next(Next(s, BeginMove(call, id, m)), EndMove(call));
            id in s'.records && IsEdge(Some(m), s.records[id].status, s'.records[id].status)
  {
  }

  /** A refusal delivered twice, with the employee's acknowledgement between the two writes, takes
      the acknowledgement back: the record reads pending again, stamped as acknowledged. */
  lemma StaleRefusalUndoesAcknowledgement(s: State, id: Id, now: int)
    requires Inv(s) && id in s.records && s.records[id].status.Contested? && s.moving == map[]
    ensures var acknowledged :=
              Next(Next(Next(Next(s, BeginMove(1, id, Refused)), BeginMove(2, id, Refused)), EndMove(1)),
                   DoAcknowledge(id, s.records[id].employeeId, now));
            var stale := Next(acknowledged, EndMove(2));
            && acknowledged.records[id].status.Acknowledged?
            && stale.records[id].status.AcknowledgedPending?
            && stale.records[id].acknowledgedAt == Some(now)
  {
    hide RecordSound, ActiveRecords, IsBlank;
  }
}
