/** Which filing decides a contract: exactly when it is the one the contract waits for. */
module ContractVerdicts {
  import opened Calendar
  import opened ContractRuns
  import opened Contracts
  import opened Months
  import opened Wrappers

  function StatusOf(s: State, id: Id): Option<ContractStatus> {
    if id < |s.store.contracts| then Some(s.store.contracts[id].status) else None
  }

  /** The filing a row waits for. */
  function Awaited(s: State, id: Id): Option<Filing> {
    if id in s.awaited && s.awaited[id] < |s.filings| then Some(s.filings[s.awaited[id]]) else None
  }

  /** An approved verdict moves a pending row only, and decides it or leaves it. */
  lemma OnlyPendingChanges(s: Store, id: Id, outcome: Decision, newEnd: Option<NaiveDate>, today: NaiveDate)
    ensures var s' := ApplyDecision(s, id, outcome, newEnd, today).0;
            && (s' != s ==> id < |s.contracts| && s.contracts[id].status.DecisionPending? && IsDecided(s', id))
            && (forall i :: 0 <= i < |s.contracts| && i != id ==> s'.contracts[i] == s.contracts[i])
  {
  }

  // ---- When every decision is the one awaited ---------------------------------

  /** Filing n's approval, delivered now, decides its contract: the guards of the verb. */
  predicate Decides(s: State, n: nat, today: NaiveDate) {
    && n < |s.filings|
    && var f := s.filings[n];
       && StatusOf(s, f.contract) == Some(DecisionPending)
       && var c := s.store.contracts[f.contract];
          && (f.outcome.End? ==> c.endDate.Some?)
          && (f.outcome.Renew? ==> f.newEnd.Some? && Before(RenewalStart(c.endDate, today), f.newEnd.value))
          && (!f.outcome.End? ==> !HasActive(s.store.contracts, c.employmentId))
  }

  /** Filing n is the one its contract waits for: the request the last committed filing returned. */
  predicate IsAwaited(s: State, n: nat) {
    n < |s.filings| && s.filings[n].contract in s.awaited && s.awaited[s.filings[n].contract] == n
  }

  /** Every approval that decides its contract is, when it is delivered, the one awaited. */
  ghost predicate DeliversAwaited(events: seq<Event>) {
    forall k :: 0 <= k < |events| && events[k].DoApprove? ==> DeliveredAwaited(Run(INITIAL, events[..k]), events[k])
  }

  predicate DeliveredAwaited(s: State, e: Event)
    requires e.DoApprove?
  {
    Decides(s, e.n, e.today) ==> IsAwaited(s, e.n)
  }

  predicate DecidedAsAwaited(s: State, i: Id) {
    i in s.decidedBy && i in s.awaited && s.decidedBy[i] == s.awaited[i]
  }

  ghost predicate AllDecidedAsAwaited(s: State) {
    forall i :: IsDecided(s.store, i) ==> DecidedAsAwaited(s, i)
  }

  /** The guards are exactly when the verb decides. */
  lemma DecidesIff(s: State, n: nat, today: NaiveDate)
    requires n < |s.filings|
    ensures var s' := Next(s, DoApprove(n, today));
            var i := s.filings[n].contract;
            Decides(s, n, today) <==> IsDecided(s'.store, i) && !IsDecided(s.store, i)
  {
  }

  /** No step changes what a decided contract was decided by, or waited for. */
  lemma DecidedStays(s: State, e: Event, i: Id)
    requires IsDecided(s.store, i)
    ensures IsDecided(Next(s, e).store, i) && DecidedAsAwaited(Next(s, e), i) == DecidedAsAwaited(s, i)
  {
    hide ApplyDecision, RenewalStart, OwnMonths, DayNumber;
    match e {
      case DoApprove(n, today) =>
        if n < |s.filings| {
          var f := s.filings[n];
          ApplyExtends(s.store, f.contract, f.outcome, f.newEnd, today);
        }
      case DoApproveForeign(id, outcome, newEnd, today) => ApplyExtends(s.store, id, outcome, newEnd, today);
      case _ =>
    }
  }

  /** Only an approval decides, and it decides its own contract. */
  lemma OnlyApprovalsDecide(s: State, e: Event, i: Id)
    requires !Foreign(e) && !IsDecided(s.store, i) && IsDecided(Next(s, e).store, i)
    ensures e.DoApprove? && e.n < |s.filings| && s.filings[e.n].contract == i
  {
  }

  lemma ApprovalStep(s: State, n: nat, today: NaiveDate)
    requires Decides(s, n, today)
    ensures var s' := Next(s, DoApprove(n, today));
            DecidedAsAwaited(s', s.filings[n].contract) <==> IsAwaited(s, n)
  {
  }

  lemma AwaitedStep(s: State, e: Event)
    requires !Foreign(e)
    ensures AllDecidedAsAwaited(Next(s, e)) <==> AllDecidedAsAwaited(s) && (e.DoApprove? ==> DeliveredAwaited(s, e))
  {
    hide Next, IsDecided, Decides, DecidedAsAwaited, IsAwaited;
    var s' := Next(s, e);
    forall i | IsDecided(s.store, i)
      ensures IsDecided(s'.store, i) && DecidedAsAwaited(s', i) == DecidedAsAwaited(s, i)
    {
      DecidedStays(s, e, i);
    }
    forall i | !IsDecided(s.store, i) && IsDecided(s'.store, i)
      ensures e.DoApprove? && Decides(s, e.n, e.today) && (DecidedAsAwaited(s', i) <==> IsAwaited(s, e.n))
    {
      OnlyApprovalsDecide(s, e, i);
      DecidesIff(s, e.n, e.today);
      ApprovalStep(s, e.n, e.today);
    }
    if e.DoApprove? && Decides(s, e.n, e.today) {
      DecidesNamesAFiling(s, e.n, e.today);
      DecidesIff(s, e.n, e.today);
      ApprovalStep(s, e.n, e.today);
    }
  }

  lemma DecidesNamesAFiling(s: State, n: nat, today: NaiveDate)
    requires Decides(s, n, today)
    ensures n < |s.filings|
  {
  }

  lemma DeliversAwaitedExtends(events: seq<Event>, e: Event)
    ensures DeliversAwaited(events + [e]) <==>
              DeliversAwaited(events) && (e.DoApprove? ==> DeliveredAwaited(Run(INITIAL, events), e))
  {
    hide Run, DeliveredAwaited;
    var all := events + [e];
    assert all[..|events|] == events && all[|events|] == e;
    assert forall k :: 0 <= k < |events| ==> all[k] == events[k] && all[..k] == events[..k];
  }

  /** In every run in which verdicts carry filings: every decided contract was decided by the filing
      it waited for, if and only if every approval that found its contract ready to be decided was,
      when it was delivered, the one awaited. A dispatcher can see to that: it compares the verdict's
      request with the one the contract's last filing returned. */
  lemma {:induction false} DecidedAsAwaitedIff(events: seq<Event>)
    requires forall e :: e in events ==> !Foreign(e)
    ensures AllDecidedAsAwaited(Run(INITIAL, events)) <==> DeliversAwaited(events)
  {
    hide AllDecidedAsAwaited, DeliversAwaited, Next;
    if events == [] {
      NothingDecided();
    } else {
      var init, e := events[..|events| - 1], events[|events| - 1];
      assert events == init + [e];
      assert e in events && forall x :: x in init ==> x in events;
      DecidedAsAwaitedIff(init);
      AwaitedStep(Run(INITIAL, init), e);
      DeliversAwaitedExtends(init, e);
    }
  }

  lemma NothingDecided()
    ensures AllDecidedAsAwaited(Run(INITIAL, [])) && DeliversAwaited([])
  {
  }

  // ---- When it is not ----------------------------------------------------------

  /** Nothing in the verb makes that comparison. A filing that reached the engine before its call
      died leaves the row active; when a second filing (here: end at term) then
      makes the row pending, the first one's approval is applied instead: the contract that awaits
      its end is renewed. The verdict delivered has to be the one awaited. */
  lemma OrphanFilingIsApplied(s: State, id: Id, newEnd: NaiveDate, today: NaiveDate)
    requires Inv(s.store)
    requires id < |s.store.contracts|
    requires s.store.contracts[id].status.Active? && s.store.contracts[id].contractType.Pkwt?
    requires Before(RenewalStart(s.store.contracts[id].endDate, today), newEnd)
    ensures var n := |s.filings|;
            var dead := Next(s, DoFile(id, Renew, Some(newEnd), today, true, true));
            var pending := Next(dead, DoFile(id, End, None, today, true, false));
            && StatusOf(pending, id) == Some(DecisionPending) && Awaited(pending, id) == Some(Filing(id, End, None))
            && StatusOf(Next(pending, DoApprove(n, today)), id) == Some(Superseded)
            && StatusOf(Next(pending, DoApprove(n + 1, today)), id) == Some(Ended)
  {
  }

  /** A refused verdict delivered again reopens a row that waits for another filing. */
  lemma RefusalReplayReopens(s: State, id: Id, today: NaiveDate)
    requires Inv(s.store)
    requires id < |s.store.contracts| && s.store.contracts[id].status.Active? && s.store.contracts[id].endDate.Some?
    ensures var n := |s.filings|;
            var file := DoFile(id, End, None, today, true, false);
            var waiting := Next(Next(Next(s, file), DoRefuse(n)), file);
            && StatusOf(waiting, id) == Some(DecisionPending) && id in waiting.awaited && waiting.awaited[id] == n + 1
            && StatusOf(Next(waiting, DoRefuse(n)), id) == Some(Active)
  {
    hide RenewalStart, OwnMonths, ChainsSound, ExitsSound, TermsSound;
    var file := DoFile(id, End, None, today, true, false);
    var s1 := Next(s, file);
    assert !HasActive(s1.store.contracts, s.store.contracts[id].employmentId);
    var s2 := Next(s1, DoRefuse(|s.filings|));
    assert s2.store.contracts == s.store.contracts;
    assert Next(s2, file).store.contracts == s1.store.contracts;
  }

  /** From there a second verdict goes astray: the reopened row is filed anew, to be renewed, and the
      approval of the end it was reopened from ends it. Every filing got one verdict; one refusal was
      delivered twice. */
  lemma ReplayedRefusalDecidesWrongly(s: State, id: Id, newEnd: NaiveDate, today: NaiveDate)
    requires Inv(s.store)
    requires id < |s.store.contracts|
    requires s.store.contracts[id].status.Active? && s.store.contracts[id].contractType.Pkwt?
    requires Before(RenewalStart(s.store.contracts[id].endDate, today), newEnd)
    ensures var n := |s.filings|;
            var file := DoFile(id, End, None, today, true, false);
            var waiting := Next(Next(Next(s, file), DoRefuse(n)), file);
            var renewing := Next(Next(waiting, DoRefuse(n)), DoFile(id, Renew, Some(newEnd), today, true, false));
            && Awaited(renewing, id) == Some(Filing(id, Renew, Some(newEnd)))
            && StatusOf(Next(renewing, DoApprove(n + 1, today)), id) == Some(Ended)
  {
    hide RenewalStart, OwnMonths, ChainsSound, ExitsSound;
    assert TermSound(s.store.contracts[id]);
    RefusalReplayReopens(s, id, today);
    var file := DoFile(id, End, None, today, true, false);
    var s1 := Next(s, file);
    RefusalUndoesFiling(s.store, id, End, None, today);
    var s2 := Next(s1, DoRefuse(|s.filings|));
    assert s2.store == s.store;
    var s3 := Next(s2, file);
    assert s3.store == s1.store;
    var s4 := Next(s3, DoRefuse(|s.filings|));
    assert s4.store == s.store;
    RefusalUndoesFiling(s.store, id, Renew, Some(newEnd), today);
  }

  /** A filing that was refused and is then approved is applied too: here the contract that awaits
      its end is renewed. */
  lemma RefusedFilingIsApplied(s: State, id: Id, newEnd: NaiveDate, today: NaiveDate)
    requires Inv(s.store)
    requires id < |s.store.contracts|
    requires s.store.contracts[id].status.Active? && s.store.contracts[id].contractType.Pkwt?
    requires Before(RenewalStart(s.store.contracts[id].endDate, today), newEnd)
    ensures var n := |s.filings|;
            var refused := Next(Next(s, DoFile(id, Renew, Some(newEnd), today, true, false)), DoRefuse(n));
            var ending := Next(refused, DoFile(id, End, None, today, true, false));
            && Awaited(ending, id) == Some(Filing(id, End, None))
            && StatusOf(Next(ending, DoApprove(n, today)), id) == Some(Superseded)
  {
    hide RenewalStart, OwnMonths, ChainsSound, ExitsSound;
    assert TermSound(s.store.contracts[id]);
    RefusalUndoesFiling(s.store, id, Renew, Some(newEnd), today);
    var refused := Next(Next(s, DoFile(id, Renew, Some(newEnd), today, true, false)), DoRefuse(|s.filings|));
    assert refused.store == s.store;
    var ending := Next(refused, DoFile(id, End, None, today, true, false));
    assert !HasActive(ending.store.contracts, s.store.contracts[id].employmentId);
  }

  // ---- A discipline of delivery that suffices ---------------------------------

  /** What keeps every decision the awaited one without a comparison: no filing call dies between the
      engine's answer and its commit, each filing gets one verdict (`approved`), and a refusal is
      delivered once. Approvals may still be delivered any number of times. */
  ghost predicate Orderly(events: seq<Event>, approved: nat -> bool) {
    && (forall e :: e in events ==>
          && !Foreign(e)
          && (e.DoFile? ==> !e.dies)
          && (e.DoApprove? ==> approved(e.n))
          && (e.DoRefuse? ==> !approved(e.n)))
    && (forall i, j :: 0 <= i < j < |events| && events[i].DoRefuse? && events[j].DoRefuse? ==>
          events[i].n != events[j].n)
  }

  ghost predicate Refused(events: seq<Event>, n: nat) {
    DoRefuse(n) in events
  }

  /** Every filing of an active row has been refused; of a pending row, every filing but the one it
      waits for; and a decided row was decided by the one it waited for. */
  ghost predicate InOrder(events: seq<Event>, s: State) {
    && (forall n :: 0 <= n < |s.filings| ==>
          var i := s.filings[n].contract;
          i < |s.store.contracts| &&
          match s.store.contracts[i].status
          case Active => Refused(events, n)
          case DecisionPending => i in s.awaited && (n == s.awaited[i] || Refused(events, n))
          case _ => true)
    && (forall i :: i in s.decidedBy ==> IsDecided(s.store, i) && i in s.awaited && s.decidedBy[i] == s.awaited[i])
  }

  lemma InOrderStep(events: seq<Event>, s: State, e: Event, approved: nat -> bool)
    requires InOrder(events, s) && Orderly(events + [e], approved)
    ensures InOrder(events + [e], Next(s, e))
  {
    hide InOrder, Next;
    var all := events + [e];
    assert e in all && forall x :: x in events ==> x in all;
    forall n ensures Refused(events, n) ==> Refused(all, n) && !approved(n) {
    }
    MoreRefused(events, all, s);
    match e {
      case DoCreate(terms) => CreateInOrder(all, s, terms);
      case DoFile(id, outcome, newEnd, today, accepted, dies) => FileInOrder(all, s, e);
      case DoApprove(n, today) => ApproveInOrder(events, all, s, n, today);
      case DoRefuse(n) =>
        assert all[|events|] == e;
        forall k | 0 <= k < |events| ensures events[k] != e {
          assert all[k] == events[k];
        }
        RefuseInOrder(events, all, s, n);
      case DoApproveForeign(id, outcome, newEnd, today) =>
    }
  }

  lemma MoreRefused(events: seq<Event>, all: seq<Event>, s: State)
    requires InOrder(events, s) && forall n :: Refused(events, n) ==> Refused(all, n)
    ensures InOrder(all, s)
  {
  }

  lemma CreateInOrder(all: seq<Event>, s: State, terms: NewContract)
    requires InOrder(all, s)
    ensures InOrder(all, Next(s, DoCreate(terms)))
  {
  }

  lemma FileInOrder(all: seq<Event>, s: State, e: Event)
    requires InOrder(all, s) && e.DoFile? && !e.dies
    ensures InOrder(all, Next(s, e))
  {
  }

  lemma ApproveInOrder(events: seq<Event>, all: seq<Event>, s: State, n: nat, today: NaiveDate)
    requires InOrder(events, s) && InOrder(all, s) && !Refused(events, n)
    ensures InOrder(all, Next(s, DoApprove(n, today)))
  {
    hide ApplyDecision, Refused;
    if n < |s.filings| {
      var f := s.filings[n];
      ApplyExtends(s.store, f.contract, f.outcome, f.newEnd, today);
      OnlyPendingChanges(s.store, f.contract, f.outcome, f.newEnd, today);
    }
  }

  lemma RefuseInOrder(events: seq<Event>, all: seq<Event>, s: State, n: nat)
    requires InOrder(events, s) && InOrder(all, s) && !Refused(events, n) && Refused(all, n)
    requires forall m :: Refused(events, m) ==> Refused(all, m)
    ensures InOrder(all, Next(s, DoRefuse(n)))
  {
  }

  lemma {:induction false} InOrderRun(events: seq<Event>, approved: nat -> bool)
    requires Orderly(events, approved)
    ensures InOrder(events, Run(INITIAL, events))
  {
    if events != [] {
      var init, e := events[..|events| - 1], events[|events| - 1];
      assert events == init + [e];
      assert forall x :: x in init ==> x in events;
      InOrderRun(init, approved);
      InOrderStep(init, Run(INITIAL, init), e, approved);
    }
  }

  /** In an orderly run every contract is decided by the filing it waited for. */
  lemma OrderlyVerdictsAreAwaited(events: seq<Event>, approved: nat -> bool, i: Id)
    requires Orderly(events, approved) && IsDecided(Run(INITIAL, events).store, i)
    ensures var s := Run(INITIAL, events);
            i in s.decidedBy && i in s.awaited && s.decidedBy[i] == s.awaited[i]
            && Awaited(s, i).Some? && Explains(Awaited(s, i).value, i, s.store.contracts)
  {
    InOrderRun(events, approved);
    FilingsInRun(events);
  }
}
