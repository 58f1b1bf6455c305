/** Who did what to a warning letter, and what that does to the ladder. */
module DisciplineOrigins {
  import opened Discipline
  import opened DisciplineRuns
  import opened Wrappers

  /** A letter is issued exactly when it says something and runs past the present. */
  lemma IssuesIff(records: map<Id, Record>, n: NewRecord, now: int)
    ensures var r := IssueRead(records, n, now);
            && (r.Success? <==> !IsBlank(n.offense) && !IsBlank(n.description) && now < n.validUntil)
            && (r.Success? ==>
                && IsAsAsked(r.value, n) && r.value.issuedAt == now && r.value.status == Issued
                && r.value.acknowledgedAt == None && r.value.cancelReason == None
                && r.value.priorActiveSp1 == |Ladder(records, n.employeeId, Sp1, now)|
                && r.value.priorActiveSp2 == |Ladder(records, n.employeeId, Sp2, now)|)
  {
    hide IsBlank, ActiveRecords, Ladder;
    ActiveIsTheLadder(records, n.employeeId, Sp1, now);
    ActiveIsTheLadder(records, n.employeeId, Sp2, now);
  }

  /** A letter taken off the ladder, or put back on it. */
  lemma LadderChangesBy(
      records: map<Id, Record>, records': map<Id, Record>, id: Id, employee: Id, level: Level, now: int)
    requires id in records && id in records' && records' == records[id := records'[id]]
    requires SameLetter(records[id], records'[id])
    requires id in Ladder(records, employee, level, now) && id !in Ladder(records', employee, level, now)
    ensures |Ladder(records', employee, level, now)| == |Ladder(records, employee, level, now)| - 1
  {
    assert Ladder(records, employee, level, now) == Ladder(records', employee, level, now) + {id};
  }

  lemma LadderUnchanged(
      records: map<Id, Record>, records': map<Id, Record>, id: Id, employee: Id, level: Level, now: int)
    requires id in records && id in records' && records' == records[id := records'[id]]
    requires SameLetter(records[id], records'[id])
    requires id in Ladder(records, employee, level, now) <==> id in Ladder(records', employee, level, now)
    ensures Ladder(records', employee, level, now) == Ladder(records, employee, level, now)
  {
  }

  /** A contest takes its letter off the employee's ladder at once: the count of its level falls by one
      while the letter is unexpired, and no other count changes. */
  lemma ContestLowersTheLadder(
      records: map<Id, Record>, id: Id, employee: Id, reason: string, request: Id, other: Id, level: Level, now: int)
    requires Contest(records, id, employee, reason, Some(request)).1.Success?
    ensures var after := Contest(records, id, employee, reason, Some(request)).0;
            var own := other == employee && level == records[id].level && now <= records[id].validUntil;
            |Ladder(after, other, level, now)| == |Ladder(records, other, level, now)| - if own then 1 else 0
  {
    hide IsBlank;
    var after := Contest(records, id, employee, reason, Some(request)).0;
    if other == employee && level == records[id].level && now <= records[id].validUntil {
      LadderChangesBy(records, after, id, other, level, now);
    } else {
      LadderUnchanged(records, after, id, other, level, now);
    }
  }

  /** A refused contest puts it back, with nobody in between; an upheld one never does. */
  lemma RefusalRestoresTheLadder(records: map<Id, Record>, id: Id, employee: Id, level: Level, now: int, m: Mover)
    requires id in records && records[id].status == Contested && (m == Refused || m == Upheld)
    ensures var after := Move(records, id, m).0;
            var own := employee == records[id].employeeId && level == records[id].level
                       && now <= records[id].validUntil && m == Refused;
            |Ladder(after, employee, level, now)| == |Ladder(records, employee, level, now)| + if own then 1 else 0
  {
    var after := Move(records, id, m).0;
    if employee == records[id].employeeId && level == records[id].level && now <= records[id].validUntil
       && m == Refused
    {
      LadderChangesBy(after, records, id, employee, level, now);
    } else {
      LadderUnchanged(records, after, id, employee, level, now);
    }
  }

  // ---- Every run ------------------------------------------------------------------

  /** The employee acknowledged the letter at that instant. */
  ghost predicate WasAcknowledged(events: seq<Event>, id: Id, r: Record) {
    exists e :: e in events && e.DoAcknowledge? && e.id == id && e.employee == r.employeeId
                && Some(e.now) == r.acknowledgedAt
  }

  /** The employee contested the letter, and the engine took the contest. */
  ghost predicate WasContested(events: seq<Event>, id: Id, r: Record) {
    exists e :: e in events && e.DoContest? && e.id == id && e.employee == r.employeeId && e.request.Some?
                && !IsBlank(e.reason) && !e.dies
  }

  ghost predicate WasBegun(events: seq<Event>, id: Id, m: Mover) {
    exists e :: e in events && e.BeginMove? && e.id == id && e.mover == m
  }

  /** A call of HR cancelled it for that reason, or a review upheld a contest of it. */
  ghost predicate WasCancelled(events: seq<Event>, id: Id, r: Record) {
    || (exists reason :: r.cancelReason == Some(reason) && WasBegun(events, id, HrCancels(reason)))
    || (r.cancelReason == Some("contest upheld by review") && WasBegun(events, id, Upheld))
  }

  /** How the record came to stand as it does. */
  ghost predicate HasHistory(events: seq<Event>, id: Id, r: Record) {
    && (r.acknowledgedAt.Some? ==> WasAcknowledged(events, id, r))
    && (r.status == Acknowledged ==> r.acknowledgedAt.Some?)
    && (r.status == Contested ==> WasContested(events, id, r))
    && (r.status == AcknowledgedPending ==> WasBegun(events, id, Refused))
    && (r.status == Cancelled ==> WasCancelled(events, id, r))
  }

  ghost predicate Histories(events: seq<Event>, s: State) {
    && (forall id :: id in s.records ==> HasHistory(events, id, s.records[id]))
    && (forall call :: call in s.moving ==> WasBegun(events, s.moving[call].id, s.moving[call].mover))
  }

  lemma HistoryStays(events: seq<Event>, e: Event, id: Id, r: Record)
    requires HasHistory(events, id, r)
    ensures HasHistory(events + [e], id, r)
  {
    hide IsBlank;
    assert forall x :: x in events ==> x in events + [e];
    BegunStays(events, e);
    hide WasBegun;
  }

  lemma BegunStays(events: seq<Event>, e: Event)
    ensures forall id, m :: WasBegun(events, id, m) ==> WasBegun(events + [e], id, m)
  {
    assert forall x :: x in events ==> x in events + [e];
  }

  lemma AcknowledgeHasHistory(events: seq<Event>, s: State, e: Event)
    requires Histories(events, s) && e.DoAcknowledge?
    ensures Histories(events + [e], Next(s, e))
  {
    hide IsBlank, WasContested, WasCancelled;
    var s' := Next(s, e);
    assert e in events + [e];
    BegunStays(events, e);
    forall id | id in s'.records ensures HasHistory(events + [e], id, s'.records[id]) {
      HistoryStays(events, e, id, s.records[id]);
    }
  }

  lemma ContestHasHistory(events: seq<Event>, s: State, e: Event)
    requires Histories(events, s) && e.DoContest?
    ensures Histories(events + [e], Next(s, e))
  {
    hide IsBlank, WasCancelled;
    var s' := Next(s, e);
    assert e in events + [e];
    BegunStays(events, e);
    forall id | id in s'.records ensures HasHistory(events + [e], id, s'.records[id]) {
      HistoryStays(events, e, id, s.records[id]);
    }
  }

  lemma MoveHasHistory(events: seq<Event>, s: State, e: Event)
    requires Histories(events, s) && Inv(s) && (e.BeginMove? || e.EndMove? || e.Die?)
    ensures Histories(events + [e], Next(s, e))
  {
    hide IsBlank, WasContested, RecordSound;
    var s' := Next(s, e);
    assert e in events + [e];
    BegunStays(events, e);
    forall call | call in s'.moving
      ensures WasBegun(events + [e], s'.moving[call].id, s'.moving[call].mover)
    {
      assert call in s.moving || e.BeginMove?;
    }
    hide WasBegun;
    forall id | id in s'.records ensures HasHistory(events + [e], id, s'.records[id]) {
      HistoryStays(events, e, id, s.records[id]);
    }
  }

  lemma IssueHasHistory(events: seq<Event>, s: State, e: Event)
    requires Histories(events, s) && Inv(s) && (e.BeginIssue? || e.EndIssue?)
    ensures Histories(events + [e], Next(s, e))
  {
    hide IsBlank, WasContested, WasAcknowledged, WasCancelled, RecordSound, ActiveRecords;
    var s' := Next(s, e);
    BegunStays(events, e);
    hide WasBegun;
    forall id | id in s'.records ensures HasHistory(events + [e], id, s'.records[id]) {
      if id in s.records { HistoryStays(events, e, id, s.records[id]); }
    }
  }

  /** In every run every record got where it stands by a call of whoever may move it there: its
      employee's acknowledgement at the instant it carries, its employee's filed contest, a review's
      refusal, or a cancellation by HR for the reason it carries or by a review that upheld a contest. */
  lemma {:induction false} RecordsHaveTheirHistory(events: seq<Event>)
    ensures Histories(events, Run(EMPTY, events))
  {
    hide Histories, Inv, Next;
    if events == [] {
      NoHistoryYet();
    } else {
      var init, e := events[..|events| - 1], events[|events| - 1];
      assert events == init + [e];
      RecordsHaveTheirHistory(init);
      EveryRunIsSound(init);
      var s := Run(EMPTY, init);
      match e {
        case DoAcknowledge(_, _, _) => AcknowledgeHasHistory(init, s, e);
        case DoContest(_, _, _, _, _) => ContestHasHistory(init, s, e);
        case BeginIssue(_, _, _) => IssueHasHistory(init, s, e);
        case EndIssue(_) => IssueHasHistory(init, s, e);
        case _ => MoveHasHistory(init, s, e);
      }
    }
  }

  lemma NoHistoryYet()
    ensures Histories([], EMPTY)
  {
  }
}
