/** Exits at the end of a contract, from both of their sources over one contract table: the ones
    recorded by hand, behind their guard, and the ones an approved end opens. */
module TermEnds {
  import opened Calendar
  import opened Contracts
  import ContractRuns
  import Exit
  import opened Months
  import Pesangon
  import opened Wrappers

  datatype State = State(chain: ContractRuns.State, tables: Exit.Tables)

  datatype Event =
    | Chain(step: ContractRuns.Event)
    | Record(id: Id, employee: Id, reason: Pesangon.OffboardingReason, notice: NaiveDate, last: NaiveDate)

  function Next(s: State, e: Event): State {
    match e
    case Chain(step) => s.(chain := ContractRuns.Next(s.chain, step))
    case Record(id, employee, reason, notice, last) =>
      s.(tables := Exit.CreateOffboarding(s.tables, id, employee, reason, notice, last, s.chain.store.contracts).0)
  }

  function Run(s: State, events: seq<Event>): State {
    if events == [] then s else Next(Run(s, events[..|events| - 1]), events[|events| - 1])
  }

  const INITIAL := State(ContractRuns.INITIAL, Exit.Tables(map[], [], map[], []))

  /** The employee has, or has had, a fixed term. */
  ghost predicate HasHadFixedTerm(contracts: seq<Contract>, employee: Id) {
    exists i :: 0 <= i < |contracts| && contracts[i].employeeId == employee && contracts[i].contractType.Pkwt?
  }

  /** A row that keeps its terms and may only be joined by others. */
  ghost predicate KeepsTerms(a: seq<Contract>, b: seq<Contract>) {
    |a| <= |b| && forall i :: 0 <= i < |a| ==> b[i] == a[i].(status := b[i].status)
  }

  lemma StepKeepsTerms(s: ContractRuns.State, e: ContractRuns.Event)
    ensures KeepsTerms(s.store.contracts, ContractRuns.Next(s, e).store.contracts)
  {
    hide RenewalStart, OwnMonths, DayNumber, HasActive;
  }

  lemma KeptTermsStay(a: seq<Contract>, b: seq<Contract>, employee: Id)
    requires KeepsTerms(a, b) && HasHadFixedTerm(a, employee)
    ensures HasHadFixedTerm(b, employee)
  {
  }

  ghost predicate RecordedLawfully(s: State) {
    forall id :: id in s.tables.offboardings && s.tables.offboardings[id].reason.EndOfContract? ==>
      HasHadFixedTerm(s.chain.store.contracts, s.tables.offboardings[id].employeeId)
  }

  /** In every run, an end-of-contract exit recorded by hand has a fixed term of its employee behind
      it: the guard suffices, whatever becomes of the contract. */
  lemma {:induction false} RecordedExitsAreLawful(events: seq<Event>)
    ensures RecordedLawfully(Run(INITIAL, events))
  {
    hide ContractRuns.Next, HasHadFixedTerm, KeepsTerms;
    if events != [] {
      RecordedExitsAreLawful(events[..|events| - 1]);
      var s, e := Run(INITIAL, events[..|events| - 1]), events[|events| - 1];
      var s' := Next(s, e);
      match e {
        case Chain(step) =>
          StepKeepsTerms(s.chain, step);
          forall employee | HasHadFixedTerm(s.chain.store.contracts, employee)
            ensures HasHadFixedTerm(s'.chain.store.contracts, employee)
          {
            KeptTermsStay(s.chain.store.contracts, s'.chain.store.contracts, employee);
          }
        case Record(id, employee, reason, notice, last) =>
          if HasFixedTerm(s.chain.store.contracts, employee) {
            FixedTermIsOne(s.chain.store.contracts, employee);
          }
      }
    }
  }

  lemma FixedTermIsOne(contracts: seq<Contract>, employee: Id)
    requires HasFixedTerm(contracts, employee)
    ensures HasHadFixedTerm(contracts, employee)
  {
  }

  /** The exits that approved ends opened are all behind fixed terms. */
  ghost predicate ExitsLawful(store: Store) {
    forall k :: 0 <= k < |store.exits| ==>
      var id := store.exits[k].contract;
      id < |store.contracts| && store.contracts[id].contractType.Pkwt?
  }

  ghost predicate OpenedLawfully(s: State) {
    ExitsLawful(s.chain.store)
  }

  // ---- Which policies are lawful ----------------------------------------------

  /** The terms of an indefinite contract with an end date, as the create verb takes them. */
  predicate EndingPkwtt(terms: NewContract) {
    terms.contractType.Pkwtt? && terms.endDate.Some? && Before(terms.startDate, terms.endDate.value)
  }

  /** Every contract created has allowed terms. */
  ghost predicate Follows(events: seq<Event>, allowed: NewContract -> bool) {
    forall e :: e in events && e.Chain? && e.step.DoCreate? ==> allowed(e.step.terms)
  }

  ghost predicate AllowsNoEndingPkwtt(allowed: NewContract -> bool) {
    forall terms :: allowed(terms) ==> !EndingPkwtt(terms)
  }

  ghost predicate NoPkwttEnds(store: Store) {
    forall i :: 0 <= i < |store.contracts| && store.contracts[i].contractType.Pkwtt? ==>
      store.contracts[i].endDate.None?
  }

  /** An approval of an end, delivered now, finds an indefinite row with an end date pending: what the
      verb can read under its lock. */
  predicate EndsPkwtt(s: State, e: Event) {
    e.Chain? &&
    match e.step
    case DoApprove(n, today) =>
      n < |s.chain.filings| && s.chain.filings[n].outcome.End? && PendingEndingPkwtt(s, s.chain.filings[n].contract)
    case DoApproveForeign(id, outcome, newEnd, today) => outcome.End? && PendingEndingPkwtt(s, id)
    case _ => false
  }

  predicate PendingEndingPkwtt(s: State, id: Id) {
    && id < |s.chain.store.contracts|
    && var c := s.chain.store.contracts[id];
       c.status.DecisionPending? && c.contractType.Pkwtt? && c.endDate.Some?
  }

  lemma ApplyIsLawfulIff(store: Store, id: Id, outcome: Decision, newEnd: Option<NaiveDate>, today: NaiveDate)
    requires forall k :: 0 <= k < |store.exits| ==> store.exits[k].contract < |store.contracts|
    ensures var store' := ApplyDecision(store, id, outcome, newEnd, today).0;
            && (forall k :: 0 <= k < |store'.exits| ==> store'.exits[k].contract < |store'.contracts|)
            && (ExitsLawful(store') <==>
                ExitsLawful(store) &&
                !(outcome.End? && id < |store.contracts| && store.contracts[id].status.DecisionPending?
                  && store.contracts[id].contractType.Pkwtt? && store.contracts[id].endDate.Some?))
  {
    hide RenewalStart, OwnMonths, DayNumber, HasActive;
    var store' := ApplyDecision(store, id, outcome, newEnd, today).0;
    if |store'.exits| > |store.exits| {
      assert store'.exits[|store.exits|].contract == id;
      assert forall k :: 0 <= k < |store.exits| ==> store'.exits[k] == store.exits[k];
    }
  }

  ghost predicate ExitsNameRows(s: State) {
    forall k :: 0 <= k < |s.chain.store.exits| ==> s.chain.store.exits[k].contract < |s.chain.store.contracts|
  }

  lemma StepIsLawfulIff(s: State, e: Event)
    requires ExitsNameRows(s)
    ensures ExitsNameRows(Next(s, e))
    ensures OpenedLawfully(Next(s, e)) <==> OpenedLawfully(s) && !EndsPkwtt(s, e)
  {
    hide RenewalStart, OwnMonths, DayNumber, HasActive, Exit.CreateOffboarding, ApplyDecision, Files;
    var store := s.chain.store;
    if e.Chain? {
      match e.step {
        case DoApprove(n, today) =>
          if n < |s.chain.filings| {
            var f := s.chain.filings[n];
            ApplyIsLawfulIff(store, f.contract, f.outcome, f.newEnd, today);
          }
        case DoApproveForeign(id, outcome, newEnd, today) => ApplyIsLawfulIff(store, id, outcome, newEnd, today);
        case _ => StepKeepsTerms(s.chain, e.step);
      }
    }
  }

  /** Every approval of an end in the run, when it was delivered, left such rows alone. */
  ghost predicate NeverEndsPkwtt(events: seq<Event>) {
    forall k :: 0 <= k < |events| ==> !EndsPkwtt(Run(INITIAL, events[..k]), events[k])
  }

  lemma NeverEndsPkwttExtends(events: seq<Event>, e: Event)
    ensures NeverEndsPkwtt(events + [e]) <==> NeverEndsPkwtt(events) && !EndsPkwtt(Run(INITIAL, events), e)
  {
    hide Run, EndsPkwtt;
    var all := events + [e];
    assert all[..|events|] == events && all[|events|] == e;
    assert forall k :: 0 <= k < |events| ==> all[k] == events[k] && all[..k] == events[..k];
  }

  /** Which runs are lawful: every exit that an approved end opened has a fixed term behind it if and
      only if no approval of an end found an indefinite contract with an end date pending. */
  lemma {:induction false} RunIsLawfulIff(events: seq<Event>)
    ensures OpenedLawfully(Run(INITIAL, events)) <==> NeverEndsPkwtt(events)
    ensures ExitsNameRows(Run(INITIAL, events))
  {
    hide Next, EndsPkwtt;
    if events != [] {
      var init, e := events[..|events| - 1], events[|events| - 1];
      assert events == init + [e];
      RunIsLawfulIff(init);
      StepIsLawfulIff(Run(INITIAL, init), e);
      NeverEndsPkwttExtends(init, e);
    }
  }

  lemma ApplyKeepsPkwttEndless(store: Store, id: Id, outcome: Decision, newEnd: Option<NaiveDate>, today: NaiveDate)
    requires NoPkwttEnds(store)
    ensures NoPkwttEnds(ApplyDecision(store, id, outcome, newEnd, today).0)
  {
    hide RenewalStart, OwnMonths, DayNumber, HasActive;
  }

  lemma StepKeepsPkwttEndless(s: State, e: Event)
    requires NoPkwttEnds(s.chain.store) && (e.Chain? && e.step.DoCreate? ==> !EndingPkwtt(e.step.terms))
    ensures NoPkwttEnds(Next(s, e).chain.store) && !EndsPkwtt(s, e)
  {
    hide RenewalStart, OwnMonths, DayNumber, HasActive, Exit.CreateOffboarding, Files, ApplyDecision;
    var store := s.chain.store;
    if e.Chain? {
      match e.step {
        case DoApprove(n, today) =>
          if n < |s.chain.filings| {
            var f := s.chain.filings[n];
            ApplyKeepsPkwttEndless(store, f.contract, f.outcome, f.newEnd, today);
          }
        case DoApproveForeign(id, outcome, newEnd, today) => ApplyKeepsPkwttEndless(store, id, outcome, newEnd, today);
        case _ =>
      }
    }
  }

  /** As long as no indefinite contract is created with an end date, every exit that an approved end
      opens has a fixed term behind it too. */
  lemma {:induction false} OpenedExitsAreLawful(events: seq<Event>, allowed: NewContract -> bool)
    requires Follows(events, allowed) && AllowsNoEndingPkwtt(allowed)
    ensures NoPkwttEnds(Run(INITIAL, events).chain.store) && OpenedLawfully(Run(INITIAL, events))
  {
    hide Next, EndsPkwtt;
    RunIsLawfulIff(events);
    if events != [] {
      var init, e := events[..|events| - 1], events[|events| - 1];
      assert events == init + [e];
      assert e in events && forall x :: x in init ==> x in events;
      OpenedExitsAreLawful(init, allowed);
      StepKeepsPkwttEndless(Run(INITIAL, init), e);
      StepIsLawfulIff(Run(INITIAL, init), e);
      RunIsLawfulIff(init);
    }
  }

  /** Which creation policies are lawful: every run that follows one opens only such exits if and only
      if it allows no indefinite contract with an end date. */
  lemma PolicyIsLawfulIff(allowed: NewContract -> bool)
    ensures (forall events | Follows(events, allowed) :: OpenedLawfully(Run(INITIAL, events))) <==>
            AllowsNoEndingPkwtt(allowed)
  {
    hide Run;
    if AllowsNoEndingPkwtt(allowed) {
      forall events | Follows(events, allowed) ensures OpenedLawfully(Run(INITIAL, events)) {
        OpenedExitsAreLawful(events, allowed);
      }
    } else {
      var terms :| allowed(terms) && EndingPkwtt(terms);
      var events := EndingPkwttOpensExit(terms);
      assert Follows(events, allowed);
    }
  }

  /** Any indefinite contract with an end date, created, filed to end and approved, opens an
      end-of-contract exit with no fixed term behind it: its employee has none at all. */
  lemma EndingPkwttOpensExit(terms: NewContract) returns (events: seq<Event>)
    requires EndingPkwtt(terms)
    ensures forall e :: e in events && e.Chain? && e.step.DoCreate? ==> e.step.terms == terms
    ensures var s := Run(INITIAL, events);
            && !OpenedLawfully(s)
            && |s.chain.store.exits| == 1
            && s.chain.store.exits[0].employeeId == terms.employeeId
            && !HasHadFixedTerm(s.chain.store.contracts, terms.employeeId)
  {
    hide DayNumber, MonthsBetween;
    var create := Chain(ContractRuns.DoCreate(terms));
    var file := Chain(ContractRuns.DoFile(0, End, None, terms.startDate, true, false));
    var approve := Chain(ContractRuns.DoApprove(0, terms.startDate));
    events := [create, file, approve];
    assert events[..2] == [create, file] && events[..2][..1] == [create] && events[..2][..1][..0] == [];
    var s1 := Next(INITIAL, create);
    var s2 := Next(s1, file);
    var s3 := Next(s2, approve);
    assert Run(INITIAL, [create]) == s1;
    assert Run(INITIAL, events[..2]) == s2;
    assert Run(INITIAL, events) == s3;
    assert |s1.chain.store.contracts| == 1 && s1.chain.store.contracts[0].status.Active?;
    assert s2.chain.store.contracts[0].status.DecisionPending? && |s2.chain.filings| == 1;
    assert |s3.chain.store.exits| == 1 && s3.chain.store.exits[0].contract == 0;
  }
}
