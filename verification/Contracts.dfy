/** The employment-contract table, one transaction at a time. A row's id is its position: rows are
    only ever appended. */
module Contracts {
  import opened Calendar
  import opened Months
  import opened Wrappers

  type Id = nat

  /** The statutory cap the ledger is read against. */
  const PKWT_CAP_MONTHS := 60

  datatype ContractType = Pkwt | Pkwtt
  datatype ContractStatus = Active | DecisionPending | Superseded | Ended
  datatype Decision = Renew | Convert | End

  datatype Contract = Contract(
    employmentId: Id, employeeId: Id, contractType: ContractType,
    startDate: NaiveDate, endDate: Option<NaiveDate>, status: ContractStatus,
    previous: Option<Id>, cumulativeMonths: int, reminderSentAt: Option<int>)

  datatype NewContract = NewContract(
    employmentId: Id, employeeId: Id, contractType: ContractType, startDate: NaiveDate, endDate: Option<NaiveDate>)

  /** An offboarding opened for a contract that reached its end. `contract` is kept for the proofs:
      the offboarding row itself does not name the contract. */
  datatype TermEndExit = TermEndExit(employeeId: Id, noticeDate: NaiveDate, lastWorkingDay: NaiveDate, contract: Id)

  datatype Store = Store(contracts: seq<Contract>, exits: seq<TermEndExit>)

  /** What goes to the approvals engine. */
  datatype Filing = Filing(contract: Id, outcome: Decision, newEnd: Option<NaiveDate>)

  datatype ContractError = NotFound | Invalid | InvalidState | Transport | UniqueViolation

  // ---- The unique index ---------------------------------------------------

  predicate HasActive(contracts: seq<Contract>, employment: Id) {
    exists i :: 0 <= i < |contracts| && contracts[i].employmentId == employment && contracts[i].status.Active?
  }

  /** The read behind an end-of-contract exit: the employee has a fixed term that runs or awaits its
      decision. */
  predicate HasFixedTerm(contracts: seq<Contract>, employee: Id) {
    exists i :: 0 <= i < |contracts| && contracts[i].employeeId == employee && contracts[i].contractType.Pkwt?
                && contracts[i].status in {Active, DecisionPending}
  }

  function WithStatus(s: Store, id: Id, status: ContractStatus): Store
    requires id < |s.contracts|
  {
    s.(contracts := s.contracts[id := s.contracts[id].(status := status)])
  }

  // ---- Verbs --------------------------------------------------------------

  function OwnMonths(contractType: ContractType, start: NaiveDate, end: Option<NaiveDate>): int {
    if contractType.Pkwt? && end.Some? then MonthsBetween(start, end.value) else 0
  }

  function Create(s: Store, n: NewContract): (Store, Result<Id, ContractError>) {
    if n.contractType.Pkwt? && n.endDate.None? then (s, Failure(Invalid))
    else if n.endDate.Some? && AtOrBefore(n.endDate.value, n.startDate) then (s, Failure(Invalid))
    else if HasActive(s.contracts, n.employmentId) then (s, Failure(InvalidState))
    else
      (s.(contracts := s.contracts + [Contract(
          n.employmentId, n.employeeId, n.contractType, n.startDate, n.endDate, Active, None,
          OwnMonths(n.contractType, n.startDate, n.endDate), None)]),
       Success(|s.contracts|))
  }

  /** The outcome fits the contract: only a fixed term renews, with a later new end; only a fixed
      term converts; only a term with an end ends. */
  predicate Files(c: Contract, outcome: Decision, newEnd: Option<NaiveDate>, today: NaiveDate) {
    match outcome
    case Renew => c.contractType.Pkwt? && newEnd.Some? && Before(RenewalStart(c.endDate, today), newEnd.value)
    case Convert => c.contractType.Pkwt?
    case End => c.endDate.Some?
  }

  /** `accepted` is the engine's answer. The row turns pending only after it. */
  function FileDecision(
      s: Store, id: Id, outcome: Decision, newEnd: Option<NaiveDate>, today: NaiveDate, accepted: bool)
    : (Store, Result<Filing, ContractError>)
  {
    if id >= |s.contracts| || !s.contracts[id].status.Active? then (s, Failure(NotFound))
    else if !Files(s.contracts[id], outcome, newEnd, today) then (s, Failure(Invalid))
    else if !accepted then (s, Failure(Transport))
    else (WithStatus(s, id, DecisionPending), Success(Filing(id, outcome, newEnd)))
  }

  /** The successor a renewal or a conversion mints. */
  function Successor(s: Store, id: Id, outcome: Decision, newEnd: Option<NaiveDate>, today: NaiveDate): Contract
    requires id < |s.contracts|
  {
    var c := s.contracts[id];
    if outcome.Convert? then
      Contract(c.employmentId, c.employeeId, Pkwtt, today, None, Active, Some(id), 0, None)
    else
      var start := RenewalStart(c.endDate, today);
      Contract(c.employmentId, c.employeeId, Pkwt, start, newEnd, Active, Some(id),
               c.cumulativeMonths + OwnMonths(Pkwt, start, newEnd), None)
  }

  /** The approved arm. A replay on a decided row answers None and changes nothing; otherwise the
      result names the offboarding opened, if the outcome opened one. */
  function ApplyDecision(s: Store, id: Id, outcome: Decision, newEnd: Option<NaiveDate>, today: NaiveDate)
    : (Store, Result<Option<Id>, ContractError>)
  {
    if id >= |s.contracts| then (s, Failure(NotFound))
    else
      var c := s.contracts[id];
      match c.status
      case Superseded => (s, Success(None))
      case Ended => (s, Success(None))
      case Active => (s, Failure(InvalidState))
      case DecisionPending =>
        if outcome.End? then
          if c.endDate.None? then (s, Failure(Invalid))
          else
            var last := c.endDate.value;
            var notice := if Before(last, today) then last else today;
            var s' := WithStatus(s, id, Ended);
            (s'.(exits := s.exits + [TermEndExit(c.employeeId, notice, last, id)]), Success(Some(|s.exits|)))
        else if outcome.Renew? && (newEnd.None? || AtOrBefore(newEnd.value, RenewalStart(c.endDate, today))) then
          (s, Failure(Invalid))
        else if HasActive(s.contracts, c.employmentId) then (s, Failure(UniqueViolation))
        else
          var next := Successor(s, id, outcome, newEnd, today);
          var s' := WithStatus(s, id, Superseded);
          (s'.(contracts := s'.contracts + [next]), Success(None))
  }

  /** The refused arm: a pending row turns active again, unless another row has become the active
      one meanwhile. */
  function RefuseDecision(s: Store, id: Id): (Store, Result<(), ContractError>) {
    if id >= |s.contracts| || !s.contracts[id].status.DecisionPending? then (s, Failure(InvalidState))
    else if HasActive(s.contracts, s.contracts[id].employmentId) then (s, Failure(UniqueViolation))
    else (WithStatus(s, id, Active), Success(()))
  }

  // ---- The chain and its ledger --------------------------------------------

  /** The fixed-term contract this fixed-term contract renews, if there is one. */
  function Renewed(contracts: seq<Contract>, i: Id): (r: Option<Id>)
    requires i < |contracts|
    ensures r.Some? ==> r.value < i
  {
    var c := contracts[i];
    if c.contractType.Pkwt? && c.previous.Some? && c.previous.value < i
       && contracts[c.previous.value].contractType.Pkwt?
    then c.previous else None
  }

  /** The trailing run of fixed terms that ends with row i, oldest first. */
  function TrailingRun(contracts: seq<Contract>, i: Id): (run: seq<Id>)
    requires i < |contracts|
    ensures |run| > 0 && run[|run| - 1] == i
    ensures forall k :: 0 <= k < |run| ==> run[k] <= i
    decreases i
  {
    var p := Renewed(contracts, i);
    if p.None? then [i] else TrailingRun(contracts, p.value) + [i]
  }

  function MonthsOf(c: Contract): int {
    OwnMonths(c.contractType, c.startDate, c.endDate)
  }

  /** The ledger the cap is meant to read: the months of every term in the run. */
  function SumMonths(contracts: seq<Contract>, run: seq<Id>): int
    requires forall k :: 0 <= k < |run| ==> run[k] < |contracts|
  {
    if run == [] then 0
    else SumMonths(contracts, run[..|run| - 1]) + MonthsOf(contracts[run[|run| - 1]])
  }

  // ---- The table invariant -------------------------------------------------

  ghost predicate OneActive(contracts: seq<Contract>) {
    forall i, j :: 0 <= i < j < |contracts| && contracts[i].status.Active? && contracts[j].status.Active? ==>
      contracts[i].employmentId != contracts[j].employmentId
  }

  ghost predicate Names(contracts: seq<Contract>, j: int, i: int) {
    0 <= j < |contracts| && contracts[j].previous == Some(i)
  }

  /** A row points back at an earlier row of the same employment and employee; a row is superseded
      exactly when a row points at it, and then only one does. */
  ghost predicate ChainsSound(contracts: seq<Contract>) {
    && (forall j :: 0 <= j < |contracts| && contracts[j].previous.Some? ==>
          var p := contracts[j].previous.value;
          && p < j
          && contracts[p].employmentId == contracts[j].employmentId
          && contracts[p].employeeId == contracts[j].employeeId)
    && (forall i :: 0 <= i < |contracts| ==> (contracts[i].status.Superseded? <==> exists j :: Names(contracts, j, i)))
    && (forall i, j, k :: Names(contracts, j, i) && Names(contracts, k, i) ==> j == k)
  }

  ghost predicate TermSound(c: Contract) {
    && (c.contractType.Pkwt? ==> c.endDate.Some?)
    && (c.endDate.Some? ==> Before(c.startDate, c.endDate.value))
  }

  /** A renewed term starts after the term it renews. */
  ghost predicate StartsAfter(contracts: seq<Contract>, j: int)
    requires 0 <= j < |contracts|
  {
    var c := contracts[j];
    c.contractType.Pkwt? && c.previous.Some? && c.previous.value < j && contracts[c.previous.value].endDate.Some? ==>
      Before(contracts[c.previous.value].endDate.value, c.startDate)
  }

  ghost predicate LedgerRow(contracts: seq<Contract>, j: int)
    requires 0 <= j < |contracts|
  {
    var c := contracts[j];
    c.cumulativeMonths ==
      if c.contractType.Pkwtt? then 0
      else
        MonthsOf(c)
        + (if c.previous.Some? && c.previous.value < j then contracts[c.previous.value].cumulativeMonths else 0)
  }

  ghost predicate TermsSound(contracts: seq<Contract>) {
    forall j :: 0 <= j < |contracts| ==> TermSound(contracts[j]) && StartsAfter(contracts, j) && LedgerRow(contracts, j)
  }

  /** An exit opened for a contract carries its employee and its end, with notice in time. */
  ghost predicate ExitSound(contracts: seq<Contract>, e: TermEndExit) {
    && e.contract < |contracts|
    && contracts[e.contract].status.Ended?
    && contracts[e.contract].employeeId == e.employeeId
    && contracts[e.contract].endDate == Some(e.lastWorkingDay)
    && AtOrBefore(e.noticeDate, e.lastWorkingDay)
  }

  ghost predicate ExitsSound(s: Store) {
    && (forall k :: 0 <= k < |s.exits| ==> ExitSound(s.contracts, s.exits[k]))
    && (forall k, l :: 0 <= k < l < |s.exits| ==> s.exits[k].contract != s.exits[l].contract)
    && (forall i :: 0 <= i < |s.contracts| && s.contracts[i].status.Ended? ==>
          exists k :: 0 <= k < |s.exits| && s.exits[k].contract == i)
  }

  ghost predicate Inv(s: Store) {
    OneActive(s.contracts) && ChainsSound(s.contracts) && TermsSound(s.contracts) && ExitsSound(s)
  }

  // ---- Preservation --------------------------------------------------------

  /** Only statuses, and nothing else, may differ. */
  ghost predicate SameTerms(a: seq<Contract>, b: seq<Contract>) {
    |a| == |b| && forall i :: 0 <= i < |a| ==> b[i] == a[i].(status := b[i].status)
  }

  lemma SameTermsKeepTerms(a: seq<Contract>, b: seq<Contract>)
    requires SameTerms(a, b) && TermsSound(a)
    ensures TermsSound(b)
  {
  }

  lemma AppendKeepsTerms(a: seq<Contract>, c: Contract)
    requires TermsSound(a) && TermSound(c) && StartsAfter(a + [c], |a|) && LedgerRow(a + [c], |a|)
    ensures TermsSound(a + [c])
  {
  }

  lemma CreateKeepsInv(s: Store, n: NewContract)
    requires Inv(s)
    ensures Inv(Create(s, n).0)
  {
    hide MonthsBetween;
    var s' := Create(s, n).0;
    if s' != s {
      AppendKeepsTerms(s.contracts, s'.contracts[|s.contracts|]);
      assert forall i, j :: Names(s'.contracts, j, i) <==> Names(s.contracts, j, i);
    }
  }

  /** Between active and pending, a row's chain, terms and exits stay as they are. */
  lemma ToggleKeepsInv(s: Store, id: Id, status: ContractStatus)
    requires Inv(s) && id < |s.contracts|
    requires s.contracts[id].status in {Active, DecisionPending} && status in {Active, DecisionPending}
    requires status.Active? ==> s.contracts[id].status.Active? || !HasActive(s.contracts, s.contracts[id].employmentId)
    ensures Inv(WithStatus(s, id, status))
  {
    hide TermsSound;
    var s' := WithStatus(s, id, status);
    SameTermsKeepTerms(s.contracts, s'.contracts);
    assert forall i, j :: Names(s'.contracts, j, i) <==> Names(s.contracts, j, i);
  }

  lemma EndKeepsInv(s: Store, id: Id, newEnd: Option<NaiveDate>, today: NaiveDate)
    requires Inv(s)
    ensures Inv(ApplyDecision(s, id, End, newEnd, today).0)
  {
    hide TermsSound, RenewalStart, OwnMonths, DayNumber;
    var s' := ApplyDecision(s, id, End, newEnd, today).0;
    if s' != s {
      SameTermsKeepTerms(s.contracts, s'.contracts);
      assert forall i, j :: Names(s'.contracts, j, i) <==> Names(s.contracts, j, i);
      assert s'.exits[|s.exits|].contract == id;
      forall i | 0 <= i < |s'.contracts| && s'.contracts[i].status.Ended?
        ensures exists k :: 0 <= k < |s'.exits| && s'.exits[k].contract == i
      {
        if i != id {
          var k :| 0 <= k < |s.exits| && s.exits[k].contract == i;
          assert s'.exits[k].contract == i;
        }
      }
      forall k | 0 <= k < |s'.exits|
        ensures ExitSound(s'.contracts, s'.exits[k])
      {
        if k < |s.exits| { assert ExitSound(s.contracts, s.exits[k]); }
      }
    }
  }

  lemma SuccessorIsSound(s: Store, id: Id, outcome: Decision, newEnd: Option<NaiveDate>, today: NaiveDate)
    requires Inv(s) && id < |s.contracts| && !outcome.End?
    requires outcome.Renew? ==> newEnd.Some? && Before(RenewalStart(s.contracts[id].endDate, today), newEnd.value)
    ensures var contracts := WithStatus(s, id, Superseded).contracts + [Successor(s, id, outcome, newEnd, today)];
            TermsSound(contracts)
  {
    hide MonthsBetween, Succ, RenewalStart;
    var base := WithStatus(s, id, Superseded).contracts;
    SameTermsKeepTerms(s.contracts, base);
    if s.contracts[id].endDate.Some? {
      RenewalNeverOverlaps(s.contracts[id].endDate.value, today);
    }
    AppendKeepsTerms(base, Successor(s, id, outcome, newEnd, today));
  }

  lemma SupersedeKeepsInv(s: Store, id: Id, outcome: Decision, newEnd: Option<NaiveDate>, today: NaiveDate)
    requires Inv(s) && !outcome.End?
    ensures Inv(ApplyDecision(s, id, outcome, newEnd, today).0)
  {
    hide TermsSound, RenewalStart, OwnMonths;
    var s' := ApplyDecision(s, id, outcome, newEnd, today).0;
    if s' != s {
      SuccessorIsSound(s, id, outcome, newEnd, today);
      var n := |s.contracts|;
      forall i, j ensures Names(s'.contracts, j, i) <==> Names(s.contracts, j, i) || (j == n && i == id) {
      }
      assert Names(s'.contracts, n, id);
      forall i | 0 <= i < |s'.contracts|
        ensures s'.contracts[i].status.Superseded? <==> exists j :: Names(s'.contracts, j, i)
      {
        if i < n && i != id {
          assert s.contracts[i].status.Superseded? <==> exists j :: Names(s.contracts, j, i);
        }
      }
      forall k | 0 <= k < |s'.exits|
        ensures ExitSound(s'.contracts, s'.exits[k])
      {
        assert ExitSound(s.contracts, s.exits[k]);
      }
    }
  }
}
