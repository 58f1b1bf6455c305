/** Closing and drafting carry the same breakdown. */
module ExitAgreement {
  import opened Exit
  import opened ExitRuns
  import opened Inputs
  import opened Settlement
  import opened Wrappers

  /** The breakdown is what the sources give for the offboarding. */
  ghost predicate Computed(s: State, parse: string -> Option<real>, offboarding: Id, b: Breakdown) {
    && offboarding in s.tables.offboardings
    && var o := s.tables.offboardings[offboarding];
       ComputeForOffboarding(s.sources, parse, o.employeeId, o.reason, o.lastWorkingDay) == Success(b)
  }

  /** All that carries a breakdown of the offboarding carries what the sources give. */
  ghost predicate AllComputed(s: State, parse: string -> Option<real>, o: Id) {
    && (forall e :: e in s.tables.outbox && e.offboardingId == o ==> Computed(s, parse, o, e.breakdown))
    && (forall d :: d in s.drafting && d.offboardingId == o ==> Computed(s, parse, o, d.breakdown))
    && (forall id :: IsSettlementOf(s.tables.settlements, id, o) ==>
          Computed(s, parse, o, s.tables.settlements[id].audit))
  }

  /** Offboardings only gain rows, and a row keeps its employee, reason and last day. */
  ghost predicate SameExits(s: State, s': State) {
    forall o :: o in s.tables.offboardings ==>
      && o in s'.tables.offboardings
      && s'.tables.offboardings[o].employeeId == s.tables.offboardings[o].employeeId
      && s'.tables.offboardings[o].reason == s.tables.offboardings[o].reason
      && s'.tables.offboardings[o].lastWorkingDay == s.tables.offboardings[o].lastWorkingDay
  }

  ghost predicate SameAnswers(s: State, s': State, parse: string -> Option<real>) {
    forall employee, reason, last ::
      ComputeForOffboarding(s'.sources, parse, employee, reason, last)
      == ComputeForOffboarding(s.sources, parse, employee, reason, last)
  }

  lemma StepKeepsExits(s: State, e: Event, parse: string -> Option<real>)
    ensures SameExits(s, Next(s, e, parse))
  {
    hide ComputeForOffboarding, DraftRead, PrepareConfirm, LedgerPost, SettlementFor, OpenItems;
  }

  lemma StepKeepsAnswers(s: State, e: Event, parse: string -> Option<real>)
    requires !e.DoInputsChange?
    ensures SameAnswers(s, Next(s, e, parse), parse)
  {
    hide ComputeForOffboarding, CreateOffboarding, Clear, Close, DraftRead, DraftInsert, PrepareConfirm, LedgerPost,
        StampConfirmed, MarkPaid;
    var s' := Next(s, e, parse);
    if e.DoPayrollRecords? && e.total.changeType.OffboardingTotal? {
      forall employee, reason, last
        ensures ComputeForOffboarding(s'.sources, parse, employee, reason, last)
             == ComputeForOffboarding(s.sources, parse, employee, reason, last)
      {
        ConsumersChangeNoSettlement(s.sources, s'.sources, e.total, parse, employee, reason, last);
      }
    } else if e.DoEmploymentStatus? {
      var none := Compensation(0, None, OffboardingTotal, None, None, false);
      forall employee, reason, last
        ensures ComputeForOffboarding(s'.sources, parse, employee, reason, last)
             == ComputeForOffboarding(s.sources, parse, employee, reason, last)
      {
        ConsumersChangeNoSettlement(s.sources, s'.sources, none, parse, employee, reason, last);
      }
    }
  }

  lemma StepKeepsComputed(s: State, e: Event, parse: string -> Option<real>, o: Id)
    requires AllComputed(s, parse, o) && !e.DoInputsChange?
    ensures AllComputed(Next(s, e, parse), parse, o)
  {
    hide ComputeForOffboarding, PrepareConfirm, LedgerPost, SettlementFor, Next;
    var s' := Next(s, e, parse);
    StepKeepsExits(s, e, parse);
    StepKeepsAnswers(s, e, parse);
    StepAddsEvents(s, e, parse);
    StepAddsDrafts(s, e, parse);
    StepAddsRows(s, e, parse);
  }

  /** What a step may add: an event or a pending draft carrying a breakdown computed now, or a row
      made from a pending draft. */
  lemma StepAddsEvents(s: State, e: Event, parse: string -> Option<real>)
    ensures forall x :: x in Next(s, e, parse).tables.outbox ==>
              x in s.tables.outbox || Computed(s, parse, x.offboardingId, x.breakdown)
  {
  }

  lemma StepAddsDrafts(s: State, e: Event, parse: string -> Option<real>)
    ensures forall d :: d in Next(s, e, parse).drafting ==>
              d in s.drafting || Computed(s, parse, d.offboardingId, d.breakdown)
  {
  }

  lemma StepAddsRows(s: State, e: Event, parse: string -> Option<real>)
    ensures var s' := Next(s, e, parse);
            forall id :: id in s'.tables.settlements ==>
              || (id in s.tables.settlements
                  && s'.tables.settlements[id].offboardingId == s.tables.settlements[id].offboardingId
                  && s'.tables.settlements[id].audit == s.tables.settlements[id].audit)
              || (exists d :: d in s.drafting && s'.tables.settlements[id] == RowOf(d))
  {
    hide ComputeForOffboarding, PrepareConfirm, LedgerPost, SettlementFor, OpenItems, DraftRead;
  }

  lemma {:induction false} RunKeepsComputed(s: State, events: seq<Event>, parse: string -> Option<real>, o: Id)
    requires AllComputed(s, parse, o) && forall e :: e in events ==> !e.DoInputsChange?
    ensures AllComputed(Run(s, events, parse), parse, o)
  {
    hide AllComputed, Next;
    if events != [] {
      var init, e := events[..|events| - 1], events[|events| - 1];
      assert events == init + [e];
      assert e in events && forall x :: x in init ==> x in events;
      RunKeepsComputed(s, init, parse, o);
      StepKeepsComputed(Run(s, init, parse), e, parse, o);
    }
  }

  /** Neither call has been made yet: not closed, no settlement, and no draft read. */
  ghost predicate NeitherYet(s: State, o: Id) {
    && !IsClosed(s.tables, o)
    && (forall id :: !IsSettlementOf(s.tables.settlements, id, o))
    && (forall d :: d in s.drafting ==> d.offboardingId != o)
  }

  lemma {:induction false} NoEventsAreForIt(outbox: seq<ClosedEvent>, o: Id)
    requires EventsFor(outbox, o) == 0
    ensures forall e :: e in outbox ==> e.offboardingId != o
  {
    if outbox != [] {
      NoEventsAreForIt(outbox[..|outbox| - 1], o);
      assert outbox == outbox[..|outbox| - 1] + [outbox[|outbox| - 1]];
    }
  }

  lemma NothingComputedYet(s: State, parse: string -> Option<real>, o: Id)
    requires Inv(s) && NeitherYet(s, o)
    ensures AllComputed(s, parse, o)
  {
    hide LedgerInv, LinksAgree, DraftsKnown, EventsFor;
    NoEventsAreForIt(s.tables.outbox, o);
  }

  /** What is closed and drafted stays: the event, and the row with its amounts. */
  ghost predicate KeepsHistory(s: State, s': State) {
    && (forall x :: x in s.tables.outbox ==> x in s'.tables.outbox)
    && (forall id :: id in s.tables.settlements ==>
          id in s'.tables.settlements && SameAmounts(s.tables.settlements[id], s'.tables.settlements[id]))
  }

  lemma StepKeepsHistory(s: State, e: Event, parse: string -> Option<real>)
    ensures KeepsHistory(s, Next(s, e, parse))
  {
    hide ComputeForOffboarding, PrepareConfirm, LedgerPost, SettlementFor, OpenItems, DraftRead;
  }

  lemma {:induction false} RunKeepsHistory(s: State, events: seq<Event>, parse: string -> Option<real>)
    ensures KeepsHistory(s, Run(s, events, parse))
  {
    hide Next;
    if events != [] {
      RunKeepsHistory(s, events[..|events| - 1], parse);
      StepKeepsHistory(Run(s, events[..|events| - 1], parse), events[|events| - 1], parse);
    }
  }

  /** The row as drafted from a breakdown, whatever has become of its status. */
  ghost predicate Carries(r: SettlementRow, b: Breakdown) {
    && r.audit == b
    && r.basePay == b.lastPay.amount
    && r.pesangonAmount == Some(b.severanceTotal)
    && r.unusedLeavePayout == Some(b.unusedLeavePayout)
    && r.netPayable == b.netPayable
  }

  /** Close first or draft first, with payroll recording the settlement total and the employment
      flipped in between: the closed event and the settlement row of an offboarding carry the same
      breakdown, and the row's amounts are the event's. The inputs may have changed in any way up to
      the first of the two calls, and may again after the second; between the two they must not. */
  lemma CloseAndDraftAgree(
      s: State, between: seq<Event>, after: seq<Event>, parse: string -> Option<real>, closed: ClosedEvent, id: Id)
    requires Inv(s) && NeitherYet(s, closed.offboardingId)
    requires forall e :: e in between ==> !e.DoInputsChange?
    requires closed in Run(s, between, parse).tables.outbox
    requires IsSettlementOf(Run(s, between, parse).tables.settlements, id, closed.offboardingId)
    ensures var s' := Run(Run(s, between, parse), after, parse);
            && closed in s'.tables.outbox
            && IsSettlementOf(s'.tables.settlements, id, closed.offboardingId)
            && Carries(s'.tables.settlements[id], closed.breakdown)
  {
    hide Run, ComputeForOffboarding, NeitherYet, ExitsInv, LedgerSound, AttemptsSound, PostsAccounted;
    NothingComputedYet(s, parse, closed.offboardingId);
    RunKeepsComputed(s, between, parse, closed.offboardingId);
    RunKeepsInv(s, between, parse);
    assert SoundRow(Run(s, between, parse).tables.settlements[id]);
    RunKeepsHistory(Run(s, between, parse), after, parse);
  }
}
