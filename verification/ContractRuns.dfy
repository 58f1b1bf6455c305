/** Every run of the contract verbs with an approvals engine that delivers verdicts late, twice or
    out of order. */
module ContractRuns {
  import opened Calendar
  import opened Months
  import opened Contracts
  import opened Wrappers

  /** The table, what the engine holds, and, for the proofs, the filing each pending row waits for
      and the filing each decided row was decided by. */
  datatype State = State(
    store: Store, filings: seq<Filing>, awaited: map<Id, nat>, decidedBy: map<Id, nat>)

  datatype Event =
    | DoCreate(terms: NewContract)
    /** The engine answers `accepted`; `dies` is a crash after its answer and before the commit. */
    | DoFile(id: Id, outcome: Decision, newEnd: Option<NaiveDate>, today: NaiveDate, accepted: bool, dies: bool)
    /** Filing n's approved verdict is delivered, for the first time or again. */
    | DoApprove(n: nat, today: NaiveDate)
    /** Filing n's refused verdict is delivered, for the first time or again. */
    | DoRefuse(n: nat)
    /** An approved verdict with contents of no filing. */
    | DoApproveForeign(id: Id, outcome: Decision, newEnd: Option<NaiveDate>, today: NaiveDate)

  predicate IsDecided(s: Store, id: Id) {
    id < |s.contracts| && (s.contracts[id].status.Superseded? || s.contracts[id].status.Ended?)
  }

  function Next(s: State, e: Event): State {
    match e
    case DoCreate(terms) => s.(store := Create(s.store, terms).0)
    case DoFile(id, outcome, newEnd, today, accepted, dies) =>
      var (store, r) := FileDecision(s.store, id, outcome, newEnd, today, accepted);
      if r.Failure? then s
      else if dies then s.(filings := s.filings + [r.value])
      else s.(store := store, filings := s.filings + [r.value], awaited := s.awaited[id := |s.filings|])
    case DoApprove(n, today) =>
      if n >= |s.filings| then s
      else
        var f := s.filings[n];
        var store := ApplyDecision(s.store, f.contract, f.outcome, f.newEnd, today).0;
        s.(store := store,
           decidedBy := if IsDecided(store, f.contract) && !IsDecided(s.store, f.contract)
                        then s.decidedBy[f.contract := n] else s.decidedBy)
    case DoRefuse(n) =>
      if n >= |s.filings| then s else s.(store := RefuseDecision(s.store, s.filings[n].contract).0)
    case DoApproveForeign(id, outcome, newEnd, today) =>
      s.(store := ApplyDecision(s.store, id, outcome, newEnd, today).0)
  }

  function Run(s: State, events: seq<Event>): State {
    if events == [] then s else Next(Run(s, events[..|events| - 1]), events[|events| - 1])
  }

  const INITIAL := State(Store([], []), [], map[], map[])

  // ---- The table invariant holds in every run ------------------------------

  lemma VerbsKeepInv(s: State, e: Event)
    requires Inv(s.store)
    ensures Inv(Next(s, e).store)
  {
    hide Inv, Create, ApplyDecision;
    match e {
      case DoCreate(terms) => CreateKeepsInv(s.store, terms);
      case DoFile(id, outcome, newEnd, today, accepted, dies) =>
        if id < |s.store.contracts| && s.store.contracts[id].status.Active? {
          ToggleKeepsInv(s.store, id, DecisionPending);
        }
      case DoApprove(n, today) =>
        if n < |s.filings| {
          var f := s.filings[n];
          ApplyKeepsInv(s.store, f.contract, f.outcome, f.newEnd, today);
        }
      case DoRefuse(n) =>
        if n < |s.filings| { RefuseKeepsInv(s.store, s.filings[n].contract); }
      case DoApproveForeign(id, outcome, newEnd, today) => ApplyKeepsInv(s.store, id, outcome, newEnd, today);
    }
  }

  lemma ApplyKeepsInv(s: Store, id: Id, outcome: Decision, newEnd: Option<NaiveDate>, today: NaiveDate)
    requires Inv(s)
    ensures Inv(ApplyDecision(s, id, outcome, newEnd, today).0)
  {
    hide Inv, ApplyDecision;
    if outcome.End? { EndKeepsInv(s, id, newEnd, today); } else { SupersedeKeepsInv(s, id, outcome, newEnd, today); }
  }

  lemma RefuseKeepsInv(s: Store, id: Id)
    requires Inv(s)
    ensures Inv(RefuseDecision(s, id).0)
  {
    hide Inv;
    if id < |s.contracts| && s.contracts[id].status.DecisionPending?
       && !HasActive(s.contracts, s.contracts[id].employmentId) {
      ToggleKeepsInv(s, id, Active);
    }
  }

  lemma {:induction false} ReachableInv(events: seq<Event>)
    ensures Inv(Run(INITIAL, events).store)
  {
    if events != [] {
      ReachableInv(events[..|events| - 1]);
      VerbsKeepInv(Run(INITIAL, events[..|events| - 1]), events[|events| - 1]);
    } else {
      assert forall i, j :: !Names([], j, i);
    }
  }

  /** In every run, whatever verdicts arrive, late or twice: at most one active contract per
      employment; a chain link points back to an earlier row of the same employment and employee,
      so no chain returns to itself; and a row is superseded exactly when one row renews or converts
      it, never more. */
  lemma ChainsInEveryRun(events: seq<Event>)
    ensures var contracts := Run(INITIAL, events).store.contracts;
            && (forall i, j | 0 <= i < |contracts| && 0 <= j < |contracts|
                  && contracts[i].status.Active? && contracts[j].status.Active?
                  && contracts[i].employmentId == contracts[j].employmentId :: i == j)
            && (forall j :: 0 <= j < |contracts| && contracts[j].previous.Some? ==>
                  var p := contracts[j].previous.value;
                  && p < j
                  && contracts[p].employmentId == contracts[j].employmentId
                  && contracts[p].employeeId == contracts[j].employeeId)
            && (forall i :: 0 <= i < |contracts| ==>
                  (contracts[i].status.Superseded? <==> exists j :: Names(contracts, j, i)))
            && (forall i, j, k :: Names(contracts, j, i) && Names(contracts, k, i) ==> j == k)
  {
    ReachableInv(events);
  }

  /** In every run each ended contract opened exactly one exit, for its employee, on its last day,
      with notice no later than that day; and no other contract opened one. */
  lemma EndedMeansOneExit(events: seq<Event>, i: Id)
    requires i < |Run(INITIAL, events).store.contracts|
    ensures var s := Run(INITIAL, events).store;
            && (s.contracts[i].status.Ended? <==> exists k :: 0 <= k < |s.exits| && s.exits[k].contract == i)
            && (forall k, l | 0 <= k < |s.exits| && 0 <= l < |s.exits|
                  && s.exits[k].contract == s.exits[l].contract == i :: k == l)
            && (forall k :: 0 <= k < |s.exits| && s.exits[k].contract == i ==> ExitSound(s.contracts, s.exits[k]))
  {
    ReachableInv(events);
    var s := Run(INITIAL, events).store;
    if k :| 0 <= k < |s.exits| && s.exits[k].contract == i {
      assert ExitSound(s.contracts, s.exits[k]);
    }
  }

  // ---- Verdicts and filings ------------------------------------------------

  predicate Foreign(e: Event) {
    e.DoApproveForeign?
  }

  /** A filing names a row and fits its kind. */
  ghost predicate FilingFits(contracts: seq<Contract>, f: Filing) {
    && f.contract < |contracts|
    && (f.outcome.End? || contracts[f.contract].contractType.Pkwt?)
    && (f.outcome.End? ==> contracts[f.contract].endDate.Some?)
  }

  /** A filing of row i with the outcome the row shows. */
  ghost predicate Explains(f: Filing, i: Id, contracts: seq<Contract>) {
    && f.contract == i && i < |contracts|
    && contracts[i].status == (if f.outcome.End? then Ended else Superseded)
  }

  /** Filings fit; every decided row was decided by a filing that explains it; and only fixed terms
      are renewed or converted. */
  ghost predicate FilingsSound(s: State) {
    && (forall n :: 0 <= n < |s.filings| ==> FilingFits(s.store.contracts, s.filings[n]))
    && (forall i :: IsDecided(s.store, i) ==> i in s.decidedBy)
    && (forall i :: i in s.decidedBy ==>
          s.decidedBy[i] < |s.filings| && Explains(s.filings[s.decidedBy[i]], i, s.store.contracts))
    && (forall j :: 0 <= j < |s.store.contracts| ==> RenewsFixedTerm(s.store.contracts, s.store.contracts[j]))
  }

  ghost predicate RenewsFixedTerm(contracts: seq<Contract>, c: Contract) {
    c.previous.Some? ==> c.previous.value < |contracts| && contracts[c.previous.value].contractType.Pkwt?
  }

  /** What a transaction may do to the table: keep every row's terms, keep decided rows as they are,
      and append rows. */
  ghost predicate Extends(a: Store, b: Store) {
    && |a.contracts| <= |b.contracts|
    && (forall i :: 0 <= i < |a.contracts| ==> b.contracts[i] == a.contracts[i].(status := b.contracts[i].status))
    && (forall i :: 0 <= i < |a.contracts| && IsDecided(a, i) ==> b.contracts[i] == a.contracts[i])
  }

  lemma ExtensionKeepsFilings(s: State, s': State)
    requires FilingsSound(s) && Extends(s.store, s'.store)
    requires s.filings <= s'.filings
    requires forall n :: |s.filings| <= n < |s'.filings| ==> FilingFits(s'.store.contracts, s'.filings[n])
    requires forall i :: i in s'.decidedBy ==>
      || (i in s.decidedBy && s'.decidedBy[i] == s.decidedBy[i])
      || (s'.decidedBy[i] < |s'.filings| && Explains(s'.filings[s'.decidedBy[i]], i, s'.store.contracts))
    requires forall i :: IsDecided(s'.store, i) ==> i in s'.decidedBy
    requires forall j :: |s.store.contracts| <= j < |s'.store.contracts| ==>
        RenewsFixedTerm(s'.store.contracts, s'.store.contracts[j])
    ensures FilingsSound(s')
  {
    forall n | 0 <= n < |s'.filings| ensures FilingFits(s'.store.contracts, s'.filings[n]) {
      if n < |s.filings| { assert FilingFits(s.store.contracts, s.filings[n]); }
    }
    forall j | 0 <= j < |s'.store.contracts| ensures RenewsFixedTerm(s'.store.contracts, s'.store.contracts[j]) {
      if j < |s.store.contracts| { assert RenewsFixedTerm(s.store.contracts, s.store.contracts[j]); }
    }
  }

  lemma ApplyExtends(s: Store, id: Id, outcome: Decision, newEnd: Option<NaiveDate>, today: NaiveDate)
    ensures var s' := ApplyDecision(s, id, outcome, newEnd, today).0;
            && Extends(s, s')
            && (forall i :: IsDecided(s', i) && !IsDecided(s, i) ==>
                  i == id && Explains(Filing(id, outcome, newEnd), id, s'.contracts))
            && (forall j :: |s.contracts| <= j < |s'.contracts| ==> s'.contracts[j].previous == Some(id))
  {
    hide RenewalStart, OwnMonths;
  }

  lemma FilingsStep(s: State, e: Event)
    requires FilingsSound(s) && !Foreign(e)
    ensures FilingsSound(Next(s, e))
  {
    hide RenewalStart, OwnMonths, ApplyDecision, FilingsSound;
    var s' := Next(s, e);
    match e {
      case DoCreate(terms) => CreateStep(s, terms);
      case DoFile(id, outcome, newEnd, today, accepted, dies) =>
        FileStep(s, id, outcome, newEnd, today, accepted, dies);
      case DoApprove(n, today) => ApproveStep(s, n, today);
      case DoRefuse(n) => RefuseStep(s, n);
      case DoApproveForeign(id, outcome, newEnd, today) =>
    }
  }

  lemma CreateStep(s: State, terms: NewContract)
    requires FilingsSound(s)
    ensures FilingsSound(Next(s, DoCreate(terms)))
  {
  }

  lemma RefuseStep(s: State, n: nat)
    requires FilingsSound(s)
    ensures FilingsSound(Next(s, DoRefuse(n)))
  {
    hide RefuseDecision, FilingFits, Explains, RenewsFixedTerm;
    if n < |s.filings| { RefuseExtends(s.store, s.filings[n].contract); }
    ExtensionKeepsFilings(s, Next(s, DoRefuse(n)));
  }

  lemma RefuseExtends(s: Store, id: Id)
    ensures var s' := RefuseDecision(s, id).0;
            && Extends(s, s') && |s'.contracts| == |s.contracts|
            && (forall i :: IsDecided(s', i) <==> IsDecided(s, i))
  {
  }

  lemma FileStep(
      s: State, id: Id, outcome: Decision, newEnd: Option<NaiveDate>, today: NaiveDate, accepted: bool, dies: bool)
    requires FilingsSound(s)
    ensures FilingsSound(Next(s, DoFile(id, outcome, newEnd, today, accepted, dies)))
  {
  }

  lemma ApproveStep(s: State, n: nat, today: NaiveDate)
    requires FilingsSound(s)
    ensures FilingsSound(Next(s, DoApprove(n, today)))
  {
    hide ApplyDecision;
    if n < |s.filings| {
      var f := s.filings[n];
      assert FilingFits(s.store.contracts, f);
      ApplyExtends(s.store, f.contract, f.outcome, f.newEnd, today);
      var s' := Next(s, DoApprove(n, today));
      if |s.store.contracts| < |s'.store.contracts| && f.outcome.End? {
        EndMintsNothing(s.store, f.contract, f.newEnd, today);
      }
      ExtensionKeepsFilings(s, s');
    }
  }

  lemma EndMintsNothing(s: Store, id: Id, newEnd: Option<NaiveDate>, today: NaiveDate)
    ensures |ApplyDecision(s, id, End, newEnd, today).0.contracts| == |s.contracts|
  {
  }

  lemma {:induction false} FilingsInRun(events: seq<Event>)
    requires forall e :: e in events ==> !Foreign(e)
    ensures FilingsSound(Run(INITIAL, events))
  {
    if events != [] {
      var init, e := events[..|events| - 1], events[|events| - 1];
      assert events == init + [e];
      assert e in events && forall x :: x in init ==> x in events;
      FilingsInRun(init);
      FilingsStep(Run(INITIAL, init), e);
    }
  }

  /** The engine holds one filing of the contract in all. */
  ghost predicate OnlyFiling(s: State, n: int, i: Id) {
    && 0 <= n < |s.filings| && s.filings[n].contract == i
    && forall m :: 0 <= m < |s.filings| && s.filings[m].contract == i ==> m == n
  }

  /** When verdicts only carry filings, a decided contract was decided by a filing made for it, with
      its outcome; only fixed terms have successors; and a contract filed once in all was decided as
      that one filing says. */
  lemma DecisionsComeFromFilings(events: seq<Event>, i: Id)
    requires forall e :: e in events ==> !Foreign(e)
    requires IsDecided(Run(INITIAL, events).store, i)
    ensures var s := Run(INITIAL, events);
            && (exists n :: 0 <= n < |s.filings| && Explains(s.filings[n], i, s.store.contracts))
            && (s.store.contracts[i].status.Superseded? ==> s.store.contracts[i].contractType.Pkwt?)
            && (forall n :: OnlyFiling(s, n, i) ==> Explains(s.filings[n], i, s.store.contracts))
  {
    hide Run, Explains, OnlyFiling;
    FilingsInRun(events);
    ReachableInv(events);
    DecidedIsExplained(Run(INITIAL, events), i);
  }

  lemma DecidedIsExplained(s: State, i: Id)
    requires FilingsSound(s) && Inv(s.store) && IsDecided(s.store, i)
    ensures exists n :: 0 <= n < |s.filings| && Explains(s.filings[n], i, s.store.contracts)
    ensures s.store.contracts[i].status.Superseded? ==> s.store.contracts[i].contractType.Pkwt?
    ensures forall n :: OnlyFiling(s, n, i) ==> Explains(s.filings[n], i, s.store.contracts)
  {
  }

  /** Replays of a decision on a decided contract are inert. */
  lemma ReplayIsInert(s: Store, id: Id, outcome: Decision, newEnd: Option<NaiveDate>, today: NaiveDate,
                      again: Decision, newEnd': Option<NaiveDate>, later: NaiveDate)
    requires ApplyDecision(s, id, outcome, newEnd, today).1.Success?
    ensures var s' := ApplyDecision(s, id, outcome, newEnd, today).0;
            ApplyDecision(s', id, again, newEnd', later) == (s', Success(None))
  {
  }

  // ---- A filing and its verdict ----------------------------------------------

  /** A filed decision can be applied on a later day exactly when it is no renewal, or its new end
      still lies after the day the renewal would start. */
  lemma FiledDecisionAppliesIff(
      s: Store, id: Id, outcome: Decision, newEnd: Option<NaiveDate>, today: NaiveDate, later: NaiveDate)
    requires Inv(s) && FileDecision(s, id, outcome, newEnd, today, true).1.Success?
    ensures var s' := FileDecision(s, id, outcome, newEnd, today, true).0;
            ApplyDecision(s', id, outcome, newEnd, later).1.Success? <==>
            (outcome.Renew? ==> Before(RenewalStart(s.contracts[id].endDate, later), newEnd.value))
  {
  }

  /** So a decision applies on the day it is filed, and until the running term ends. */
  lemma FiledDecisionAppliesInTerm(
      s: Store, id: Id, outcome: Decision, newEnd: Option<NaiveDate>, today: NaiveDate, later: NaiveDate)
    requires Inv(s) && FileDecision(s, id, outcome, newEnd, today, true).1.Success?
    requires later != today ==>
      && s.contracts[id].endDate.Some?
      && AtOrBefore(today, later) && AtOrBefore(later, s.contracts[id].endDate.value)
    ensures ApplyDecision(FileDecision(s, id, outcome, newEnd, today, true).0, id, outcome, newEnd, later).1.Success?
  {
  }

  /** A refusal undoes the filing: the store is again what it was. */
  lemma RefusalUndoesFiling(s: Store, id: Id, outcome: Decision, newEnd: Option<NaiveDate>, today: NaiveDate)
    requires Inv(s) && FileDecision(s, id, outcome, newEnd, today, true).1.Success?
    ensures RefuseDecision(FileDecision(s, id, outcome, newEnd, today, true).0, id) == (s, Success(()))
  {
    hide Files, TermsSound, ChainsSound, ExitsSound, DayNumber;
    var s' := FileDecision(s, id, outcome, newEnd, today, true).0;
    assert !HasActive(s'.contracts, s.contracts[id].employmentId);
    assert s'.contracts[id := s.contracts[id]] == s.contracts;
  }
}
