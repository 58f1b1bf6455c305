/** What every row of the contract tables came from: the terms asked for, or the filing that decided
    the contract before it. */
module ContractOrigins {
  import opened Calendar
  import opened ContractRuns
  import opened Contracts
  import opened Months
  import opened Wrappers

  // ---- One verb -----------------------------------------------------------------

  /** A contract is stored exactly when its terms stand and the employment has no active one: active,
      the last row, as asked. */
  lemma ContractIsStoredIff(s: Store, n: NewContract)
    ensures var (s', r) := Create(s, n);
            && (r.Success? <==>
                && (n.contractType.Pkwt? ==> n.endDate.Some?)
                && (n.endDate.Some? ==> DayNumber(n.startDate) < DayNumber(n.endDate.value))
                && !exists i :: 0 <= i < |s.contracts| && s.contracts[i].employmentId == n.employmentId
                                && s.contracts[i].status == Active)
            && (r.Success? ==>
                && r.value == |s.contracts| && |s'.contracts| == |s.contracts| + 1
                && s'.contracts[..|s.contracts|] == s.contracts
                && IsAsAsked(s'.contracts[r.value], n) && s'.contracts[r.value].status == Active)
  {
    hide DayNumber, MonthsBetween;
    if n.endDate.Some? {
      OrderIsDayNumberOrder(n.endDate.value, n.startDate);
      OrderIsDayNumberOrder(n.startDate, n.endDate.value);
    }
  }

  /** A decision is filed exactly when the contract is active, the engine takes it, and it fits: a fixed
      term renews to a later end or converts, and a term with an end ends. */
  lemma DecisionIsFiledIff(
      s: Store, id: Id, outcome: Decision, newEnd: Option<NaiveDate>, today: NaiveDate, accepted: bool)
    ensures var (s', r) := FileDecision(s, id, outcome, newEnd, today, accepted);
            && (r.Success? <==>
                && id < |s.contracts| && s.contracts[id].status == Active && accepted
                && (outcome != End ==> s.contracts[id].contractType == Pkwt)
                && (outcome == End ==> s.contracts[id].endDate.Some?)
                && (outcome == Renew ==>
                      newEnd.Some? && Before(RenewalStart(s.contracts[id].endDate, today), newEnd.value)))
            && (r.Success? ==>
                && r.value == Filing(id, outcome, newEnd)
                && s'.contracts == s.contracts[id := s.contracts[id].(status := DecisionPending)])
  {
    hide RenewalStart, Before;
  }

  /** A refused decision reopens exactly a pending contract, unless another of its employment is active by
      then, and changes nothing else. */
  lemma DecisionIsReopenedIff(s: Store, id: Id)
    ensures var (s', r) := RefuseDecision(s, id);
            && (r.Success? <==>
                && id < |s.contracts| && s.contracts[id].status == DecisionPending
                && forall i :: 0 <= i < |s.contracts| && s.contracts[i].employmentId == s.contracts[id].employmentId ==>
                     s.contracts[i].status != Active)
            && s' == if r.Success? then s.(contracts := s.contracts[id := s.contracts[id].(status := Active)]) else s
  {
  }

  // ---- What a row is --------------------------------------------------------------

  predicate IsAsAsked(c: Contract, terms: NewContract) {
    && c.employmentId == terms.employmentId && c.employeeId == terms.employeeId
    && c.contractType == terms.contractType && c.startDate == terms.startDate && c.endDate == terms.endDate
    && c.previous.None? && c.reminderSentAt.None?
  }

  /** A renewal follows the running term, or starts on the day of the decision when that term is over. */
  predicate StartsAsRenewed(before: Contract, start: NaiveDate, day: NaiveDate) {
    if before.endDate.Some? && DayNumber(day) <= DayNumber(before.endDate.value)
    then DayNumber(start) == DayNumber(before.endDate.value) + 1
    else start == day
  }

  /** The contract that a filing, approved on this day, puts after another: a fixed term to exactly the
      end filed, or an indefinite one from the day of the decision. */
  predicate IsAsFiled(before: Contract, f: Filing, day: NaiveDate, after: Contract) {
    && after.employmentId == before.employmentId && after.employeeId == before.employeeId
    && match f.outcome
       case Renew =>
         && after.contractType == Pkwt && after.endDate == f.newEnd && f.newEnd.Some?
         && StartsAsRenewed(before, after.startDate, day)
       case Convert =>
         && after.contractType == Pkwtt && after.endDate == None && after.startDate == day
         && after.cumulativeMonths == 0
       case End => false
  }

  /** The exit of a contract that ended: notice on the day of the decision, or on the last day when that
      was earlier. */
  predicate IsExitOf(c: Contract, day: NaiveDate, x: TermEndExit) {
    && x.employeeId == c.employeeId && c.endDate == Some(x.lastWorkingDay)
    && (x.noticeDate == day || x.noticeDate == x.lastWorkingDay)
    && DayNumber(x.noticeDate) <= DayNumber(day) && DayNumber(x.noticeDate) <= DayNumber(x.lastWorkingDay)
  }

  lemma RenewalStartIs(before: Contract, day: NaiveDate)
    ensures StartsAsRenewed(before, RenewalStart(before.endDate, day), day)
  {
    hide DayNumber, Succ;
    if before.endDate.Some? {
      OrderIsDayNumberOrder(day, before.endDate.value);
      SuccIsNextDay(before.endDate.value);
    }
  }

  /** What an applied decision leaves: for a renewal or a conversion the contract as filed, active, after
      the superseded one, and for an end the ended one and its exit. */
  predicate IsApplied(s: Store, f: Filing, today: NaiveDate, s': Store, exit: Option<Id>)
    requires f.contract < |s.contracts|
  {
    var id, n := f.contract, |s.contracts|;
    if f.outcome == End then
      && |s'.exits| == |s.exits| + 1 && exit == Some(|s.exits|)
      && var x := s'.exits[|s.exits|];
         && s' == Store(s.contracts[id := s.contracts[id].(status := Ended)], s.exits + [x])
         && x.contract == id && IsExitOf(s.contracts[id], today, x)
    else
      && |s'.contracts| == n + 1 && exit == None
      && var next := s'.contracts[n];
         && s' == Store(s.contracts[id := s.contracts[id].(status := Superseded)] + [next], s.exits)
         && next.status == Active && next.previous == Some(id) && next.reminderSentAt == None
         && IsAsFiled(s.contracts[id], f, today, next)
  }

  lemma AppliedAsFiled(s: Store, id: Id, outcome: Decision, newEnd: Option<NaiveDate>, today: NaiveDate)
    requires id < |s.contracts| && s.contracts[id].status == DecisionPending
    requires ApplyDecision(s, id, outcome, newEnd, today).1.Success?
    ensures var (s', r) := ApplyDecision(s, id, outcome, newEnd, today);
            IsApplied(s, Filing(id, outcome, newEnd), today, s', r.value)
  {
    hide DayNumber, RenewalStart, HasActive;
    RenewalStartIs(s.contracts[id], today);
    if outcome == End {
      OrderIsDayNumberOrder(s.contracts[id].endDate.value, today);
    }
  }

  // ---- Every run ------------------------------------------------------------------

  ghost predicate WasAsked(events: seq<Event>, c: Contract) {
    exists e :: e in events && e.DoCreate? && IsAsAsked(c.(reminderSentAt := None), e.terms)
  }

  ghost predicate WasFiled(events: seq<Event>, f: Filing) {
    exists e :: e in events && e.DoFile? && e.accepted && f == Filing(e.id, e.outcome, e.newEnd)
  }

  /** Filing `by` was approved on some day of the run, and this is what it put after the contract. */
  ghost predicate WasDecided(events: seq<Event>, s: State, n: nat, before: Contract, after: Contract) {
    && n < |s.filings|
    && exists e :: e in events && e.DoApprove? && e.n == n && IsAsFiled(before, s.filings[n], e.today, after)
  }

  ghost predicate WasEnded(events: seq<Event>, s: State, n: nat, c: Contract, x: TermEndExit) {
    && n < |s.filings| && s.filings[n].outcome == End
    && exists e :: e in events && e.DoApprove? && e.n == n && IsExitOf(c, e.today, x)
  }

  ghost predicate RowHasOrigin(events: seq<Event>, s: State, j: int)
    requires 0 <= j < |s.store.contracts|
  {
    var c := s.store.contracts[j];
    if c.previous.None? then WasAsked(events, c)
    else
      && c.previous.value < |s.store.contracts| && c.previous.value in s.decidedBy
      && IsDecided(s.store, c.previous.value)
      && WasDecided(events, s, s.decidedBy[c.previous.value], s.store.contracts[c.previous.value], c)
  }

  ghost predicate ExitHasOrigin(events: seq<Event>, s: State, k: int)
    requires 0 <= k < |s.store.exits|
  {
    var x := s.store.exits[k];
    && x.contract < |s.store.contracts| && x.contract in s.decidedBy && IsDecided(s.store, x.contract)
    && WasEnded(events, s, s.decidedBy[x.contract], s.store.contracts[x.contract], x)
  }

  ghost predicate Origins(events: seq<Event>, s: State) {
    && (forall n :: 0 <= n < |s.filings| ==> WasFiled(events, s.filings[n]))
    && (forall j :: 0 <= j < |s.store.contracts| ==> RowHasOrigin(events, s, j))
    && (forall k :: 0 <= k < |s.store.exits| ==> ExitHasOrigin(events, s, k))
  }

  /** A step that keeps filings, terms and decisions keeps what has an origin. */
  ghost predicate Grows(s: State, s': State) {
    && s.filings <= s'.filings && |s.store.contracts| <= |s'.store.contracts| && s.store.exits <= s'.store.exits
    && (forall i :: 0 <= i < |s.store.contracts| ==>
          s'.store.contracts[i] == s.store.contracts[i].(status := s'.store.contracts[i].status))
    && (forall i :: IsDecided(s.store, i) ==> IsDecided(s'.store, i))
    && (forall i :: i in s.decidedBy && IsDecided(s.store, i) ==>
          i in s'.decidedBy && s'.decidedBy[i] == s.decidedBy[i])
  }

  lemma StepGrows(s: State, e: Event)
    ensures Grows(s, Next(s, e))
  {
    hide ApplyDecision, RenewalStart, OwnMonths, DayNumber, HasActive, Files;
    match e {
      case DoApprove(n, today) =>
        if n < |s.filings| {
          var f := s.filings[n];
          ApplyExtends(s.store, f.contract, f.outcome, f.newEnd, today);
          ApplyKeepsExits(s.store, f.contract, f.outcome, f.newEnd, today);
        }
      case DoApproveForeign(id, outcome, newEnd, today) =>
        ApplyExtends(s.store, id, outcome, newEnd, today);
        ApplyKeepsExits(s.store, id, outcome, newEnd, today);
      case _ =>
    }
  }

  lemma ApplyKeepsExits(s: Store, id: Id, outcome: Decision, newEnd: Option<NaiveDate>, today: NaiveDate)
    ensures s.exits <= ApplyDecision(s, id, outcome, newEnd, today).0.exits
  {
  }

  lemma AskedStays(events: seq<Event>, e: Event, c: Contract, c': Contract)
    requires WasAsked(events, c) && c' == c.(status := c'.status)
    ensures WasAsked(events + [e], c')
  {
    var x :| x in events && x.DoCreate? && IsAsAsked(c.(reminderSentAt := None), x.terms);
    assert x in events + [e];
  }

  lemma DecidedStaysAs(
      events: seq<Event>, e: Event, s: State, s': State, n: nat, before: Contract, before': Contract,
      after: Contract, after': Contract)
    requires WasDecided(events, s, n, before, after) && s.filings <= s'.filings
    requires before' == before.(status := before'.status) && after' == after.(status := after'.status)
    ensures WasDecided(events + [e], s', n, before', after')
  {
    hide DayNumber;
    var x :| x in events && x.DoApprove? && x.n == n && IsAsFiled(before, s.filings[n], x.today, after);
    assert x in events + [e];
  }

  lemma EndedStaysAs(
      events: seq<Event>, e: Event, s: State, s': State, n: nat, c: Contract, c': Contract, x: TermEndExit)
    requires WasEnded(events, s, n, c, x) && s.filings <= s'.filings && c' == c.(status := c'.status)
    ensures WasEnded(events + [e], s', n, c', x)
  {
    hide DayNumber;
    var y :| y in events && y.DoApprove? && y.n == n && IsExitOf(c, y.today, x);
    assert y in events + [e];
  }

  lemma OldOriginsStay(events: seq<Event>, s: State, e: Event)
    requires Origins(events, s)
    ensures var s' := Next(s, e);
            && Grows(s, s')
            && (forall j :: 0 <= j < |s.store.contracts| ==> RowHasOrigin(events + [e], s', j))
            && (forall k :: 0 <= k < |s.store.exits| ==> ExitHasOrigin(events + [e], s', k))
            && (forall n :: 0 <= n < |s.filings| ==> WasFiled(events + [e], s'.filings[n]))
  {
    StepGrows(s, e);
    hide Next, WasAsked, WasDecided, WasEnded, IsDecided;
    var s' := Next(s, e);
    forall j | 0 <= j < |s.store.contracts| ensures RowHasOrigin(events + [e], s', j) {
      assert RowHasOrigin(events, s, j);
      var c := s.store.contracts[j];
      if c.previous.None? {
        AskedStays(events, e, c, s'.store.contracts[j]);
      } else {
        var i := c.previous.value;
        DecidedStaysAs(events, e, s, s', s.decidedBy[i], s.store.contracts[i], s'.store.contracts[i], c,
          s'.store.contracts[j]);
      }
    }
    forall k | 0 <= k < |s.store.exits| ensures ExitHasOrigin(events + [e], s', k) {
      assert ExitHasOrigin(events, s, k);
      var i := s.store.exits[k].contract;
      EndedStaysAs(events, e, s, s', s.decidedBy[i], s.store.contracts[i], s'.store.contracts[i], s.store.exits[k]);
    }
    forall n | 0 <= n < |s.filings| ensures WasFiled(events + [e], s'.filings[n]) {
      FiledStays(events, e, s.filings[n]);
    }
  }

  lemma FiledStays(events: seq<Event>, e: Event, f: Filing)
    requires WasFiled(events, f)
    ensures WasFiled(events + [e], f)
  {
    var x :| x in events && x.DoFile? && x.accepted && f == Filing(x.id, x.outcome, x.newEnd);
    assert x in events + [e];
  }

  lemma CreateHasOrigin(events: seq<Event>, s: State, e: Event)
    requires Origins(events, s) && e.DoCreate?
    ensures Origins(events + [e], Next(s, e))
  {
    OldOriginsStay(events, s, e);
    ContractIsStoredIff(s.store, e.terms);
    hide WasDecided, WasEnded, WasFiled, Create;
    var s' := Next(s, e);
    assert e in events + [e];
    if Create(s.store, e.terms).1.Failure? {
      CreateRefusedKeeps(s.store, e.terms);
    } else {
      var j := |s.store.contracts|;
      assert WasAsked(events + [e], s'.store.contracts[j]);
      CreateKeepsExits(s.store, e.terms);
    }
  }

  lemma CreateRefusedKeeps(s: Store, n: NewContract)
    requires Create(s, n).1.Failure?
    ensures Create(s, n).0 == s
  {
  }

  lemma CreateKeepsExits(s: Store, n: NewContract)
    ensures Create(s, n).0.exits == s.exits
  {
  }

  lemma FileHasOrigin(events: seq<Event>, s: State, e: Event)
    requires Origins(events, s) && (e.DoFile? || e.DoRefuse?)
    ensures Origins(events + [e], Next(s, e))
  {
    OldOriginsStay(events, s, e);
    hide RowHasOrigin, ExitHasOrigin, Files, HasActive;
    assert e in events + [e];
  }

  lemma ApproveHasOrigin(events: seq<Event>, s: State, e: Event)
    requires Origins(events, s) && e.DoApprove?
    ensures Origins(events + [e], Next(s, e))
  {
    OldOriginsStay(events, s, e);
    var s' := Next(s, e);
    assert e in events + [e];
    if e.n < |s.filings| {
      var f := s.filings[e.n];
      var (store, r) := ApplyDecision(s.store, f.contract, f.outcome, f.newEnd, e.today);
      AppliedChangesOnlySuccess(s.store, f.contract, f.outcome, f.newEnd, e.today);
      if store != s.store {
        AppliedAsFiled(s.store, f.contract, f.outcome, f.newEnd, e.today);
        hide ApplyDecision, IsAsFiled, IsExitOf, WasAsked, WasFiled;
        var i := f.contract;
        assert IsDecided(store, i) && !IsDecided(s.store, i) && s'.decidedBy[i] == e.n;
        assert store.contracts[i] == s.store.contracts[i].(status := store.contracts[i].status);
        FiledAgain(s.store.contracts[i], store.contracts[i]);
        if f.outcome == End {
          assert WasEnded(events + [e], s', e.n, store.contracts[i], store.exits[|s.store.exits|]);
        } else {
          assert WasDecided(events + [e], s', e.n, store.contracts[i], store.contracts[|s.store.contracts|]);
        }
      }
    }
  }

  lemma FiledAgain(c: Contract, c': Contract)
    requires c' == c.(status := c'.status)
    ensures forall f, day, after :: IsAsFiled(c, f, day, after) ==> IsAsFiled(c', f, day, after)
    ensures forall day, x :: IsExitOf(c, day, x) ==> IsExitOf(c', day, x)
  {
    hide DayNumber;
  }

  lemma AppliedChangesOnlySuccess(s: Store, id: Id, outcome: Decision, newEnd: Option<NaiveDate>, today: NaiveDate)
    ensures var (s', r) := ApplyDecision(s, id, outcome, newEnd, today);
            s' != s ==> r.Success? && id < |s.contracts| && s.contracts[id].status == DecisionPending
  {
  }

  lemma {:induction false} OriginsInRun(events: seq<Event>)
    requires forall e :: e in events ==> !Foreign(e)
    ensures Origins(events, Run(INITIAL, events))
  {
    hide Origins, Next;
    if events == [] {
      NothingHasOrigin();
    } else {
      var init, e := events[..|events| - 1], events[|events| - 1];
      assert events == init + [e];
      assert e in events && forall x :: x in init ==> x in events;
      OriginsInRun(init);
      var s := Run(INITIAL, init);
      match e {
        case DoCreate(_) => CreateHasOrigin(init, s, e);
        case DoApprove(_, _) => ApproveHasOrigin(init, s, e);
        case _ => FileHasOrigin(init, s, e);
      }
    }
  }

  lemma NothingHasOrigin()
    ensures Origins([], INITIAL)
  {
  }

  /** In every run in which verdicts carry filings, every row is what was asked for. One without a
      predecessor has the terms of a create. One with a predecessor is what the filing that decided
      that contract says, approved on some day: for a renewal a fixed term to exactly the end filed,
      from the day after the running term or from that day; for a conversion an indefinite contract from
      that day. And every filing is one the engine took. */
  lemma RowsAreAsAskedFor(events: seq<Event>, j: Id)
    requires forall e :: e in events ==> !Foreign(e)
    requires j < |Run(INITIAL, events).store.contracts|
    ensures RowHasOrigin(events, Run(INITIAL, events), j)
    ensures forall n :: 0 <= n < |Run(INITIAL, events).filings| ==> WasFiled(events, Run(INITIAL, events).filings[n])
  {
    hide Run, RowHasOrigin;
    OriginsInRun(events);
  }

  /** And every exit that an approved end opened is its contract's, with notice on the day the filing
      that ended it was approved, or on the last day when that was earlier. */
  lemma ExitsAreAsDecided(events: seq<Event>, k: nat)
    requires forall e :: e in events ==> !Foreign(e)
    requires k < |Run(INITIAL, events).store.exits|
    ensures ExitHasOrigin(events, Run(INITIAL, events), k)
  {
    hide Run, ExitHasOrigin;
    OriginsInRun(events);
  }

  // ---- Chains of more than one term ---------------------------------------------------

  /** A fixed term of 2026, renewed on 1 November to the end of 2027: the renewal starts on 1 January
      2027, and the run of two terms counts 22 months. */
  lemma RenewalIsCounted(employment: Id, employee: Id)
    ensures var create := DoCreate(NewContract(
              employment, employee, Pkwt, Date(2026, 1, 1), Some(Date(2026, 12, 31))));
            var day, end := Date(2026, 11, 1), Some(Date(2027, 12, 31));
            var contracts := Next(Next(Next(INITIAL, create), DoFile(0, Renew, end, day, true, false)),
                                  DoApprove(0, day)).store.contracts;
            && |contracts| == 2 && TrailingRun(contracts, 1) == [0, 1]
            && contracts[1].contractType == Pkwt && contracts[1].startDate == Date(2027, 1, 1)
            && contracts[1].endDate == end
            && contracts[0].cumulativeMonths == 11 && contracts[1].cumulativeMonths == 22
  {
    var terms := NewContract(employment, employee, Pkwt, Date(2026, 1, 1), Some(Date(2026, 12, 31)));
    var day, end := Date(2026, 11, 1), Some(Date(2027, 12, 31));
    var s1 := Next(INITIAL, DoCreate(terms));
    assert |s1.store.contracts| == 1 && s1.store.contracts[0].status == Active;
    assert RenewalStart(terms.endDate, day) == Date(2027, 1, 1);
    var s2 := Next(s1, DoFile(0, Renew, end, day, true, false));
    assert s2.filings == [Filing(0, Renew, end)] && s2.store.contracts[0].status == DecisionPending;
    assert !HasActive(s2.store.contracts, employment);
    var s3 := Next(s2, DoApprove(0, day));
    assert |s3.store.contracts| == 2 && s3.store.contracts[1].previous == Some(0);
    assert TrailingRun(s3.store.contracts, 0) == [0];
  }
}
