/** The months ledger of a chain of fixed terms, in every run: what the cap is read against, and
    exactly what it loses. */
module ContractLedger {
  import opened Calendar
  import opened ContractRuns
  import opened Contracts
  import opened Months
  import opened Wrappers

  // ---- The column is the sum over the run ------------------------------------

  /** The column is the sum of the months of every term in the trailing run. */
  lemma {:induction false} CumulativeIsRunSum(contracts: seq<Contract>, i: Id)
    requires ChainsSound(contracts) && TermsSound(contracts) && i < |contracts| && contracts[i].contractType.Pkwt?
    ensures contracts[i].cumulativeMonths == SumMonths(contracts, TrailingRun(contracts, i))
    decreases i
  {
    hide OwnMonths;
    assert LedgerRow(contracts, i);
    var p := Renewed(contracts, i);
    var run := TrailingRun(contracts, i);
    if p.Some? {
      CumulativeIsRunSum(contracts, p.value);
      assert run[..|run| - 1] == TrailingRun(contracts, p.value);
    } else {
      if contracts[i].previous.Some? {
        assert LedgerRow(contracts, contracts[i].previous.value);
      }
      assert run[..|run| - 1] == [];
    }
  }

  /** Terms listed oldest first, each a proper stretch of time, each starting after the one before
      has ended. */
  ghost predicate DisjointTerms(contracts: seq<Contract>, run: seq<Id>) {
    && (forall k :: 0 <= k < |run| ==>
          run[k] < |contracts| && contracts[run[k]].contractType.Pkwt? && TermSound(contracts[run[k]]))
    && (forall k, l :: 0 <= k < l < |run| ==> Before(contracts[run[k]].endDate.value, contracts[run[l]].startDate))
  }

  lemma {:induction false} RunIsDisjoint(contracts: seq<Contract>, i: Id)
    requires ChainsSound(contracts) && TermsSound(contracts) && i < |contracts| && contracts[i].contractType.Pkwt?
    ensures DisjointTerms(contracts, TrailingRun(contracts, i))
    decreases i
  {
    assert TermSound(contracts[i]) && StartsAfter(contracts, i);
    var p := Renewed(contracts, i);
    var run := TrailingRun(contracts, i);
    if p.Some? {
      RunIsDisjoint(contracts, p.value);
      var earlier := TrailingRun(contracts, p.value);
      assert run == earlier + [i];
      forall k | 0 <= k < |earlier|
        ensures Before(contracts[run[k]].endDate.value, contracts[i].startDate)
      {
        if k < |earlier| - 1 {
          var before, last := contracts[earlier[k]].endDate.value, contracts[p.value];
          assert Before(before, last.startDate) && Before(last.startDate, last.endDate.value);
          assert Before(last.endDate.value, contracts[i].startDate);
        }
      }
    }
  }

  /** Disjoint terms never add up to more months than lie between the first start and the last end. */
  lemma {:induction false} SumWithinElapsed(contracts: seq<Contract>, run: seq<Id>)
    requires |run| > 0 && DisjointTerms(contracts, run)
    ensures SumMonths(contracts, run)
         <= MonthsBetween(contracts[run[0]].startDate, contracts[run[|run| - 1]].endDate.value)
    ensures AtOrBefore(contracts[run[0]].startDate, contracts[run[|run| - 1]].endDate.value)
    decreases |run|
  {
    hide MonthsBetween, Before;
    var last := contracts[run[|run| - 1]];
    if |run| == 1 {
      assert run[..0] == [];
    } else {
      var earlier := run[..|run| - 1];
      SumWithinElapsed(contracts, earlier);
      var first, before := contracts[run[0]], contracts[run[|run| - 2]];
      assert Before(before.endDate.value, last.startDate);
      MonthsAreSuperadditive(first.startDate, before.endDate.value, last.startDate, last.endDate.value);
      BeforeChains(first.startDate, before.endDate.value, last.startDate);
      BeforeChains(first.startDate, last.startDate, last.endDate.value);
    }
  }

  lemma BeforeChains(a: NaiveDate, b: NaiveDate, c: NaiveDate)
    requires AtOrBefore(a, b) && Before(b, c)
    ensures AtOrBefore(a, c)
  {
  }

  /** Every renewal of the run follows on the next day. */
  ghost predicate Contiguous(contracts: seq<Contract>, run: seq<Id>)
    requires DisjointTerms(contracts, run)
  {
    forall k :: 0 < k < |run| ==> contracts[run[k]].startDate == Succ(contracts[run[k - 1]].endDate.value)
  }

  /** Without gaps the ledger falls short of the elapsed months by at most two a renewal. */
  lemma {:induction false} ElapsedWithinSum(contracts: seq<Contract>, run: seq<Id>)
    requires |run| > 0 && DisjointTerms(contracts, run) && Contiguous(contracts, run)
    ensures MonthsBetween(contracts[run[0]].startDate, contracts[run[|run| - 1]].endDate.value)
         <= SumMonths(contracts, run) + 2 * (|run| - 1)
    decreases |run|
  {
    hide MonthsBetween, Before, Succ, SplitLoss;
    var last := contracts[run[|run| - 1]];
    if |run| == 1 {
      assert run[..0] == [];
    } else {
      var earlier := run[..|run| - 1];
      ElapsedWithinSum(contracts, earlier);
      SumWithinElapsed(contracts, earlier);
      var first, before := contracts[run[0]], contracts[run[|run| - 2]];
      assert last.startDate == Succ(before.endDate.value);
      ContiguousSplitLosesExactly(first.startDate, before.endDate.value, last.endDate.value);
    }
  }

  /** The cap's ledger, in every run: the cumulative months of a fixed-term contract are the months
      of every term in its trailing run of fixed terms; those terms are in order and disjoint; and
      the sum never exceeds the whole months from the first start to this end. When each renewal
      follows on the next day it falls short of that by at most two months a renewal. */
  lemma LedgerInEveryRun(events: seq<Event>, i: Id)
    requires i < |Run(INITIAL, events).store.contracts| && Run(INITIAL, events).store.contracts[i].contractType.Pkwt?
    ensures var contracts := Run(INITIAL, events).store.contracts;
            var run := TrailingRun(contracts, i);
            && contracts[i].cumulativeMonths == SumMonths(contracts, run)
            && DisjointTerms(contracts, run)
            && contracts[i].cumulativeMonths <= MonthsBetween(contracts[run[0]].startDate, contracts[i].endDate.value)
            && (Contiguous(contracts, run) ==>
                  MonthsBetween(contracts[run[0]].startDate, contracts[i].endDate.value)
                  <= contracts[i].cumulativeMonths + 2 * (|run| - 1))
  {
    ReachableInv(events);
    var contracts := Run(INITIAL, events).store.contracts;
    var run := TrailingRun(contracts, i);
    hide MonthsBetween, SumMonths, DisjointTerms, Contiguous, TermsSound, ChainsSound, TrailingRun, Run;
    CumulativeIsRunSum(contracts, i);
    RunIsDisjoint(contracts, i);
    SumWithinElapsed(contracts, run);
    if Contiguous(contracts, run) { ElapsedWithinSum(contracts, run); }
  }

  // ---- What the column loses -------------------------------------------------

  predicate IsTerm(c: Contract) {
    c.contractType.Pkwt? && c.endDate.Some? && Before(c.startDate, c.endDate.value)
  }

  predicate AllTerms(contracts: seq<Contract>, run: seq<Id>) {
    forall k :: 0 <= k < |run| ==> run[k] < |contracts| && IsTerm(contracts[run[k]])
  }

  /** The months the terms of a run last, each through its last day. */
  function MonthsLasted(contracts: seq<Contract>, run: seq<Id>): int
    requires AllTerms(contracts, run)
  {
    if run == [] then 0
    else
      var c := contracts[run[|run| - 1]];
      MonthsLasted(contracts, run[..|run| - 1]) + MonthsThrough(c.startDate, c.endDate.value)
  }

  predicate LosesAMonth(c: Contract)
    requires IsTerm(c)
  {
    EndsOnAWholeMonth(c.startDate, c.endDate.value)
  }

  /** The terms of a run that end on a whole month. */
  function TermsShort(contracts: seq<Contract>, run: seq<Id>): nat
    requires AllTerms(contracts, run)
  {
    if run == [] then 0
    else TermsShort(contracts, run[..|run| - 1]) + One(LosesAMonth(contracts[run[|run| - 1]]))
  }

  /** The k-th renewal of a run cuts off part of a month. */
  predicate CutShort(contracts: seq<Contract>, run: seq<Id>, k: int)
    requires AllTerms(contracts, run) && 0 < k < |run|
  {
    CutLosesAMonth(contracts[run[0]].startDate, contracts[run[k]].startDate, Succ(contracts[run[k]].endDate.value))
  }

  function CutsShort(contracts: seq<Contract>, run: seq<Id>): nat
    requires AllTerms(contracts, run)
  {
    if |run| <= 1 then 0
    else CutsShort(contracts, run[..|run| - 1]) + One(CutShort(contracts, run, |run| - 1))
  }

  lemma DisjointAreTerms(contracts: seq<Contract>, run: seq<Id>)
    requires DisjointTerms(contracts, run)
    ensures AllTerms(contracts, run)
  {
  }

  lemma {:induction false} TermsShortCounts(contracts: seq<Contract>, run: seq<Id>)
    requires AllTerms(contracts, run)
    ensures TermsShort(contracts, run) <= |run|
    ensures TermsShort(contracts, run) == 0 <==> forall k :: 0 <= k < |run| ==> !LosesAMonth(contracts[run[k]])
  {
    hide EndsOnAWholeMonth;
    if run != [] {
      TermsShortCounts(contracts, run[..|run| - 1]);
    }
  }

  lemma {:induction false} CutsShortCounts(contracts: seq<Contract>, run: seq<Id>)
    requires AllTerms(contracts, run) && run != []
    ensures CutsShort(contracts, run) <= |run| - 1
    ensures CutsShort(contracts, run) == 0 <==> forall k :: 0 < k < |run| ==> !CutShort(contracts, run, k)
  {
    hide CutLosesAMonth;
    if |run| > 1 {
      var earlier := run[..|run| - 1];
      CutsShortCounts(contracts, earlier);
      assert forall k :: 0 < k < |earlier| ==> CutShort(contracts, earlier, k) == CutShort(contracts, run, k);
    }
  }

  /** The sum falls short of the months the terms lasted by one for each term that ends on a whole
      month, with or without gaps between them. */
  lemma {:induction false} SumLosesItsTerms(contracts: seq<Contract>, run: seq<Id>)
    requires AllTerms(contracts, run)
    ensures MonthsLasted(contracts, run) == SumMonths(contracts, run) + TermsShort(contracts, run)
  {
    hide MonthsBetween, MonthsThrough, EndsOnAWholeMonth;
    if run != [] {
      SumLosesItsTerms(contracts, run[..|run| - 1]);
      var c := contracts[run[|run| - 1]];
      TermLosesAMonthIff(c.startDate, c.endDate.value);
    }
  }

  /** Without gaps the whole stretch lasts the months of its terms and one for each renewal that
      cuts off part of a month. */
  lemma {:induction false} StretchLosesItsCuts(contracts: seq<Contract>, run: seq<Id>)
    requires DisjointTerms(contracts, run) && AllTerms(contracts, run) && Contiguous(contracts, run) && run != []
    ensures MonthsThrough(contracts[run[0]].startDate, contracts[run[|run| - 1]].endDate.value)
         == MonthsLasted(contracts, run) + CutsShort(contracts, run)
    ensures AtOrBefore(contracts[run[0]].startDate, contracts[run[|run| - 1]].endDate.value)
    decreases |run|
  {
    hide MonthsBetween, CutLosesAMonth, Before, Succ;
    var last := contracts[run[|run| - 1]];
    assert Before(last.startDate, last.endDate.value);
    if |run| == 1 {
      assert run[..0] == [];
    } else {
      var earlier := run[..|run| - 1];
      StretchLosesItsCuts(contracts, earlier);
      var first, before := contracts[run[0]], contracts[run[|run| - 2]];
      assert last.startDate == Succ(before.endDate.value);
      NextDayIsLater(first.startDate, before.endDate.value);
      NextDayIsLater(last.startDate, last.endDate.value);
      CutLosesAMonthIff(first.startDate, last.startDate, Succ(last.endDate.value));
      BeforeChains(first.startDate, last.startDate, last.endDate.value);
    }
  }

  lemma NextDayIsLater(a: NaiveDate, b: NaiveDate)
    requires AtOrBefore(a, b)
    ensures AtOrBefore(a, Succ(b))
  {
  }

  /** Exactly what the ledger loses, in every run. Against the months its terms last, each through
      its last day, it loses one for each term that ends on a whole month, and nothing else: it is
      right if and only if no term does. Against the whole stretch of a run without gaps it loses
      besides one for each renewal that cuts off part of a month, and is right if and only if there
      is neither. */
  lemma LedgerLosesExactly(events: seq<Event>, i: Id)
    requires i < |Run(INITIAL, events).store.contracts| && Run(INITIAL, events).store.contracts[i].contractType.Pkwt?
    ensures var contracts := Run(INITIAL, events).store.contracts;
            var run := TrailingRun(contracts, i);
            && AllTerms(contracts, run) && DisjointTerms(contracts, run)
            && MonthsLasted(contracts, run) == contracts[i].cumulativeMonths + TermsShort(contracts, run)
            && (contracts[i].cumulativeMonths == MonthsLasted(contracts, run) <==>
                forall k :: 0 <= k < |run| ==> !LosesAMonth(contracts[run[k]]))
            && (Contiguous(contracts, run) ==>
                  var elapsed := MonthsThrough(contracts[run[0]].startDate, contracts[i].endDate.value);
                  && elapsed == contracts[i].cumulativeMonths + TermsShort(contracts, run) + CutsShort(contracts, run)
                  && (contracts[i].cumulativeMonths == elapsed <==>
                      && (forall k :: 0 <= k < |run| ==> !LosesAMonth(contracts[run[k]]))
                      && (forall k :: 0 < k < |run| ==> !CutShort(contracts, run, k))))
  {
    ReachableInv(events);
    var contracts := Run(INITIAL, events).store.contracts;
    var run := TrailingRun(contracts, i);
    hide MonthsBetween, MonthsThrough, SumMonths, DisjointTerms, Contiguous, TermsSound, ChainsSound, TrailingRun, Run,
      MonthsLasted, TermsShort, CutsShort, LosesAMonth, CutShort, AllTerms;
    CumulativeIsRunSum(contracts, i);
    RunIsDisjoint(contracts, i);
    DisjointAreTerms(contracts, run);
    SumLosesItsTerms(contracts, run);
    TermsShortCounts(contracts, run);
    CutsShortCounts(contracts, run);
    if Contiguous(contracts, run) { StretchLosesItsCuts(contracts, run); }
  }

  /** Read against the cap: a ledger past it means the terms, and the stretch, really lasted past it.
      The other way the ledger needs what it loses on top: at most a month for each term, and without
      gaps a month more for each renewal. */
  lemma CapReadsTrue(events: seq<Event>, i: Id)
    requires i < |Run(INITIAL, events).store.contracts| && Run(INITIAL, events).store.contracts[i].contractType.Pkwt?
    ensures var contracts := Run(INITIAL, events).store.contracts;
            var run := TrailingRun(contracts, i);
            && AllTerms(contracts, run) && DisjointTerms(contracts, run)
            && var (read, lasted) := (contracts[i].cumulativeMonths, MonthsLasted(contracts, run));
            && var elapsed := MonthsThrough(contracts[run[0]].startDate, contracts[i].endDate.value);
            && (read > PKWT_CAP_MONTHS ==> lasted > PKWT_CAP_MONTHS && elapsed > PKWT_CAP_MONTHS)
            && (read > PKWT_CAP_MONTHS <==> lasted > PKWT_CAP_MONTHS + TermsShort(contracts, run))
            && (lasted > PKWT_CAP_MONTHS + |run| ==> read > PKWT_CAP_MONTHS)
            && (Contiguous(contracts, run) ==>
                  && (read > PKWT_CAP_MONTHS <==>
                      elapsed > PKWT_CAP_MONTHS + TermsShort(contracts, run) + CutsShort(contracts, run))
                  && (elapsed > PKWT_CAP_MONTHS + 2 * |run| - 1 ==> read > PKWT_CAP_MONTHS))
  {
    LedgerLosesExactly(events, i);
    LedgerInEveryRun(events, i);
    var contracts := Run(INITIAL, events).store.contracts;
    var run := TrailingRun(contracts, i);
    hide MonthsBetween, MonthsThrough, SumMonths, DisjointTerms, Contiguous, TrailingRun, Run,
      MonthsLasted, TermsShort, CutsShort, LosesAMonth, CutShort, AllTerms;
    TermsShortCounts(contracts, run);
    CutsShortCounts(contracts, run);
    StretchInOrder(contracts, run);
    TermLosesAMonthIff(contracts[run[0]].startDate, contracts[i].endDate.value);
  }

  lemma StretchInOrder(contracts: seq<Contract>, run: seq<Id>)
    requires DisjointTerms(contracts, run) && run != []
    ensures AtOrBefore(contracts[run[0]].startDate, contracts[run[|run| - 1]].endDate.value)
  {
  }

  /** So the cap can be missed by one term alone: 61 whole months read as 60. */
  lemma CapCanBeMissed(employment: Id, employee: Id)
    ensures var term := NewContract(employment, employee, Pkwt, Date(2021, 1, 1), Some(Date(2026, 1, 31)));
            var contracts := Run(INITIAL, [DoCreate(term)]).store.contracts;
            && |contracts| == 1 && contracts[0].cumulativeMonths == PKWT_CAP_MONTHS
            && contracts[0].startDate == term.startDate && contracts[0].endDate == term.endDate
            && MonthsThrough(term.startDate, term.endDate.value) == PKWT_CAP_MONTHS + 1
  {
  }
}
