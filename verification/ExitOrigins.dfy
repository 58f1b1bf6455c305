/** What every row and event of an exit came from: the call that asked for it, and what the tables held
    when it was made. */
module ExitOrigins {
  import opened Assembly
  import opened Contracts
  import opened Exit
  import opened ExitAgreement
  import opened ExitRuns
  import opened Inputs
  import opened Pesangon
  import opened Settlement
  import opened Wrappers

  /** The state that step k of the run finds. */
  function Found(sources: Sources, events: seq<Event>, parse: string -> Option<real>, k: int): State
    requires 0 <= k <= |events|
  {
    Run(Initial(sources), events[..k], parse)
  }

  lemma SameFound(sources: Sources, events: seq<Event>, e: Event, parse: string -> Option<real>, k: int)
    requires 0 <= k <= |events|
    ensures Found(sources, events + [e], parse, k) == Found(sources, events, parse, k)
    ensures Run(Initial(sources), events + [e], parse) == Next(Run(Initial(sources), events, parse), e, parse)
    ensures Found(sources, events, parse, |events|) == Run(Initial(sources), events, parse)
  {
    hide Next;
    assert (events + [e])[..k] == events[..k];
    assert (events + [e])[..|events|] == events;
    assert events[..|events|] == events;
  }

  // ---- Clearing ------------------------------------------------------------------

  /** No live item of the offboarding waits or is blocked. */
  ghost predicate NothingOpen(items: seq<ClearanceItem>, offboarding: Id) {
    forall i :: i in items && i.offboardingId == offboarding && !i.deleted ==> i.status == ItemCleared
  }

  /** A fresh clear happens exactly on a row in progress with nothing open, and changes its status
      alone; a row already cleared or closed answers false; everything else is refused. */
  lemma ClearsIff(t: Tables, id: Id)
    ensures var (t', r) := Clear(t, id);
            && (r == Success(true) <==>
                id in t.offboardings && t.offboardings[id].status == InProgress && NothingOpen(t.clearance, id))
            && (r == Success(false) <==> id in t.offboardings && t.offboardings[id].status in {Cleared, Closed})
            && t' == if r == Success(true)
                     then t.(offboardings := t.offboardings[id := t.offboardings[id].(status := Cleared)]) else t
  {
    OpenItemsCounts(t.clearance, id);
    hide OpenItems;
  }

  ghost predicate ClearedAt(
      sources: Sources, events: seq<Event>, parse: string -> Option<real>, id: Id, k: int)
  {
    && 0 <= k < |events| && events[k] == DoClear(id)
    && var t := Found(sources, events, parse, k).tables;
       id in t.offboardings && t.offboardings[id].status == InProgress && NothingOpen(t.clearance, id)
  }

  ghost predicate WasCleared(sources: Sources, events: seq<Event>, parse: string -> Option<real>, id: Id) {
    exists k :: ClearedAt(sources, events, parse, id, k)
  }

  // ---- Recording -----------------------------------------------------------------

  /** The offboarding is as a create asked, and an end of contract had a running fixed term of the
      employee behind it. */
  predicate IsAsAsked(o: Offboarding, e: Event) {
    && e.DoCreate?
    && o.employeeId == e.employee && o.reason == e.reason
    && o.noticeDate == e.notice && o.lastWorkingDay == e.last
    && (e.reason == EndOfContract ==>
          exists c :: c in e.contracts && c.employeeId == e.employee && c.contractType == Pkwt
                      && (c.status == Active || c.status == DecisionPending))
  }

  ghost predicate WasAsked(events: seq<Event>, id: Id, o: Offboarding) {
    exists e :: e in events && IsAsAsked(o, e) && e.id == id
  }

  lemma CreatedAsAsked(t: Tables, e: Event)
    requires e.DoCreate?
    ensures var (t', r) := CreateOffboarding(t, e.id, e.employee, e.reason, e.notice, e.last, e.contracts);
            && (r.Success? ==>
                && e.id !in t.offboardings && e.id in t'.offboardings && IsAsAsked(t'.offboardings[e.id], e)
                && t'.offboardings[e.id].status == InProgress && t'.offboardings[e.id].finalSettlementId == None
                && t' == t.(offboardings := t.offboardings[e.id := t'.offboardings[e.id]]))
            && (r.Failure? ==> t' == t)
  {
  }

  // ---- Closing and drafting --------------------------------------------------------

  /** A close stages its event exactly on a cleared row whose settlement can be computed: it closes the row
      and carries that settlement, both or neither. A row already closed is answered without one. */
  lemma ClosesIff(t: Tables, src: Sources, parse: string -> Option<real>, id: Id, eventId: Id)
    ensures var (t', r) := Close(t, src, parse, id, eventId);
            && (r == Success(Some(eventId)) <==>
                && id in t.offboardings && t.offboardings[id].status == Cleared
                && var o := t.offboardings[id];
                   ComputeForOffboarding(src, parse, o.employeeId, o.reason, o.lastWorkingDay).Success?)
            && (r == Success(None) <==> id in t.offboardings && t.offboardings[id].status == Closed)
            && (r != Success(Some(eventId)) ==> t' == t)
            && (r == Success(Some(eventId)) ==>
                var o := t.offboardings[id];
                var b := ComputeForOffboarding(src, parse, o.employeeId, o.reason, o.lastWorkingDay).value;
                t' == t.(offboardings := t.offboardings[id := o.(status := Closed)],
                         outbox := t.outbox + [ClosedEvent(eventId, id, o.employeeId, b)]))
  {
    hide ComputeForOffboarding;
  }

  /** A draft is stored exactly when its offboarding exists and has no settlement, under a fresh id: in
      draft, unposted, with the amounts of its breakdown, and named by the offboarding. */
  lemma DraftsIff(t: Tables, d: PendingDraft, id: Id)
    ensures var (t', r) := DraftInsert(t, d, id);
            && (r.Success? <==>
                && d.offboardingId in t.offboardings && id !in t.settlements
                && forall x :: x in t.settlements ==> t.settlements[x].offboardingId != d.offboardingId)
            && (r.Failure? ==> t' == t)
            && (r.Failure? && r.error.AlreadyDrafted? ==>
                  IsSettlementOf(t.settlements, r.error.winner, d.offboardingId))
            && (r.Success? ==>
                && id in t'.settlements && Carries(t'.settlements[id], d.breakdown)
                && t'.settlements[id].status == Draft && t'.settlements[id].accountingPostId == None
                && t'.settlements[id].taxDeduction == None && t'.settlements[id].offboardingId == d.offboardingId
                && t'.settlements[id].employeeId == d.employeeId
                && t' == t.(settlements := t.settlements[id := t'.settlements[id]],
                            offboardings := t.offboardings[d.offboardingId :=
                              t.offboardings[d.offboardingId].(finalSettlementId := Some(id))]))
  {
  }


  /** Step k closed the offboarding under the event: cleared until then, and the breakdown is what the
      sources of that step give for it. */
  ghost predicate ClosedAt(
      sources: Sources, events: seq<Event>, parse: string -> Option<real>, x: ClosedEvent, k: int)
  {
    && 0 <= k < |events| && events[k] == DoClose(x.offboardingId, x.eventId)
    && var s := Found(sources, events, parse, k);
       && Computed(s, parse, x.offboardingId, x.breakdown)
       && s.tables.offboardings[x.offboardingId].status == Cleared
       && s.tables.offboardings[x.offboardingId].employeeId == x.employeeId
  }

  ghost predicate WasClosed(sources: Sources, events: seq<Event>, parse: string -> Option<real>, x: ClosedEvent) {
    exists k :: ClosedAt(sources, events, parse, x, k)
  }

  /** Step k read the offboarding for a draft: the breakdown is what the sources of that step give. */
  ghost predicate ReadAt(
      sources: Sources, events: seq<Event>, parse: string -> Option<real>, o: Id, employee: Id, b: Breakdown, k: int)
  {
    && 0 <= k < |events| && events[k] == DoDraftRead(o)
    && var s := Found(sources, events, parse, k);
       Computed(s, parse, o, b) && s.tables.offboardings[o].employeeId == employee
  }

  ghost predicate WasRead(
      sources: Sources, events: seq<Event>, parse: string -> Option<real>, o: Id, employee: Id, b: Breakdown)
  {
    exists k :: ReadAt(sources, events, parse, o, employee, b, k)
  }

  // ---- Every run -------------------------------------------------------------------

  ghost predicate ExitHasOrigin(sources: Sources, events: seq<Event>, parse: string -> Option<real>, t: Tables, id: Id)
    requires id in t.offboardings
  {
    var o := t.offboardings[id];
    && WasAsked(events, id, o)
    && (o.status == InProgress || WasCleared(sources, events, parse, id))
  }

  ghost predicate Origins(sources: Sources, events: seq<Event>, parse: string -> Option<real>, s: State) {
    && (forall id :: id in s.tables.offboardings ==> ExitHasOrigin(sources, events, parse, s.tables, id))
    && (forall x :: x in s.tables.outbox ==> WasClosed(sources, events, parse, x))
    && (forall d :: d in s.drafting ==>
          WasRead(sources, events, parse, d.offboardingId, d.employeeId, d.breakdown))
    && (forall id :: id in s.tables.settlements ==>
          var r := s.tables.settlements[id];
          WasRead(sources, events, parse, r.offboardingId, r.employeeId, r.audit))
  }

  lemma PastStays(sources: Sources, events: seq<Event>, e: Event, parse: string -> Option<real>)
    ensures forall id :: WasCleared(sources, events, parse, id) ==> WasCleared(sources, events + [e], parse, id)
    ensures forall x :: WasClosed(sources, events, parse, x) ==> WasClosed(sources, events + [e], parse, x)
    ensures forall o, employee, b :: WasRead(sources, events, parse, o, employee, b) ==>
              WasRead(sources, events + [e], parse, o, employee, b)
  {
    hide Found, Computed, NothingOpen;
    forall k | 0 <= k < |events|
      ensures Found(sources, events + [e], parse, k) == Found(sources, events, parse, k)
              && (events + [e])[k] == events[k]
    {
      SameFound(sources, events, e, parse, k);
    }
    forall id | WasCleared(sources, events, parse, id) ensures WasCleared(sources, events + [e], parse, id) {
      var k :| ClearedAt(sources, events, parse, id, k);
      assert ClearedAt(sources, events + [e], parse, id, k);
    }
    forall x | WasClosed(sources, events, parse, x) ensures WasClosed(sources, events + [e], parse, x) {
      var k :| ClosedAt(sources, events, parse, x, k);
      assert ClosedAt(sources, events + [e], parse, x, k);
    }
    forall o, employee, b | WasRead(sources, events, parse, o, employee, b)
      ensures WasRead(sources, events + [e], parse, o, employee, b)
    {
      var k :| ReadAt(sources, events, parse, o, employee, b, k);
      assert ReadAt(sources, events + [e], parse, o, employee, b, k);
    }
  }

  lemma AskedStays(events: seq<Event>, e: Event)
    ensures forall id, o, o' :: WasAsked(events, id, o) && SameTerms(o, o') ==> WasAsked(events + [e], id, o')
  {
    forall id, o, o' | WasAsked(events, id, o) && SameTerms(o, o') ensures WasAsked(events + [e], id, o') {
      var x :| x in events && IsAsAsked(o, x) && x.id == id;
      assert x in events + [e];
    }
  }

  predicate SameTerms(o: Offboarding, o': Offboarding) {
    o' == o.(status := o'.status, finalSettlementId := o'.finalSettlementId)
  }

  /** How a step moves an offboarding: it leaves progress by a clear with nothing open and no other
      way, and its terms never change. */
  lemma StepMovesExit(s: State, e: Event, parse: string -> Option<real>, id: Id)
    requires id in Next(s, e, parse).tables.offboardings
    ensures var s' := Next(s, e, parse);
            var o' := s'.tables.offboardings[id];
            if id in s.tables.offboardings then
              var o := s.tables.offboardings[id];
              && SameTerms(o, o')
              && (o.status == InProgress ==>
                  || o'.status == InProgress
                  || (o'.status == Cleared && e == DoClear(id) && NothingOpen(s.tables.clearance, id)))
            else
              && e.DoCreate? && e.id == id && IsAsAsked(o', e)
              && o'.status == InProgress && o'.finalSettlementId == None
  {
    hide ComputeForOffboarding, DraftRead, PrepareConfirm, LedgerPost, SettlementFor, Clear, CreateOffboarding,
      NothingOpen;
    match e {
      case DoCreate(_, _, _, _, _, _) => CreatedAsAsked(s.tables, e);
      case DoClear(x) => ClearsIff(s.tables, x);
      case _ =>
    }
  }

  lemma ExitsKeepOrigin(
      sources: Sources, events: seq<Event>, e: Event, parse: string -> Option<real>, s: State, id: Id)
    requires s == Run(Initial(sources), events, parse) && id in Next(s, e, parse).tables.offboardings
    requires id in s.tables.offboardings ==> ExitHasOrigin(sources, events, parse, s.tables, id)
    ensures ExitHasOrigin(sources, events + [e], parse, Next(s, e, parse).tables, id)
  {
    hide Next, Run, NothingOpen;
    StepMovesExit(s, e, parse, id);
    PastStays(sources, events, e, parse);
    AskedStays(events, e);
    SameFound(sources, events, e, parse, |events|);
    hide WasAsked, Found, SameTerms, IsAsAsked;
    var o' := Next(s, e, parse).tables.offboardings[id];
    if id in s.tables.offboardings {
      var o := s.tables.offboardings[id];
      if o.status == InProgress && o'.status != InProgress {
        assert ClearedAt(sources, events + [e], parse, id, |events|);
      }
    } else {
      AskedNow(events, e, id, o');
    }
  }

  lemma AskedNow(events: seq<Event>, e: Event, id: Id, o: Offboarding)
    requires IsAsAsked(o, e) && e.id == id
    ensures WasAsked(events + [e], id, o)
  {
    assert e in events + [e];
  }

  /** What a step adds to the outbox is the event of its own close. */
  lemma StepCloses(s: State, e: Event, parse: string -> Option<real>, x: ClosedEvent)
    requires x in Next(s, e, parse).tables.outbox && x !in s.tables.outbox
    ensures e == DoClose(x.offboardingId, x.eventId) && Computed(s, parse, x.offboardingId, x.breakdown)
    ensures s.tables.offboardings[x.offboardingId].status == Cleared
    ensures s.tables.offboardings[x.offboardingId].employeeId == x.employeeId
  {
    hide ComputeForOffboarding, DraftRead, PrepareConfirm, LedgerPost, SettlementFor, OpenItems, Close;
    match e {
      case DoClose(id, eventId) => ClosesIff(s.tables, s.sources, parse, id, eventId);
      case _ =>
    }
  }

  lemma EventsKeepOrigin(
      sources: Sources, events: seq<Event>, e: Event, parse: string -> Option<real>, s: State, x: ClosedEvent)
    requires s == Run(Initial(sources), events, parse) && x in Next(s, e, parse).tables.outbox
    requires x in s.tables.outbox ==> WasClosed(sources, events, parse, x)
    ensures WasClosed(sources, events + [e], parse, x)
  {
    PastStays(sources, events, e, parse);
    SameFound(sources, events, e, parse, |events|);
    hide Next, Run, Found, Computed;
    if x !in s.tables.outbox {
      StepCloses(s, e, parse, x);
      assert ClosedAt(sources, events + [e], parse, x, |events|);
    }
  }

  lemma StepReads(s: State, e: Event, parse: string -> Option<real>, d: PendingDraft)
    requires d in Next(s, e, parse).drafting && d !in s.drafting
    ensures e == DoDraftRead(d.offboardingId) && Computed(s, parse, d.offboardingId, d.breakdown)
    ensures s.tables.offboardings[d.offboardingId].employeeId == d.employeeId
  {
    hide ComputeForOffboarding, PrepareConfirm, LedgerPost, SettlementFor, OpenItems;
  }

  lemma DraftsKeepOrigin(
      sources: Sources, events: seq<Event>, e: Event, parse: string -> Option<real>, s: State, d: PendingDraft)
    requires s == Run(Initial(sources), events, parse) && d in Next(s, e, parse).drafting
    requires d in s.drafting ==> WasRead(sources, events, parse, d.offboardingId, d.employeeId, d.breakdown)
    ensures WasRead(sources, events + [e], parse, d.offboardingId, d.employeeId, d.breakdown)
  {
    PastStays(sources, events, e, parse);
    SameFound(sources, events, e, parse, |events|);
    hide Next, Run, Found, Computed;
    if d !in s.drafting {
      StepReads(s, e, parse, d);
      assert ReadAt(sources, events + [e], parse, d.offboardingId, d.employeeId, d.breakdown, |events|);
    }
  }

  lemma StepDrafts(s: State, e: Event, parse: string -> Option<real>, id: Id)
    requires id in Next(s, e, parse).tables.settlements
    ensures var r' := Next(s, e, parse).tables.settlements[id];
            if id in s.tables.settlements then SameAmounts(s.tables.settlements[id], r')
            else exists d :: d in s.drafting && r' == RowOf(d)
  {
    StepKeepsHistory(s, e, parse);
    StepAddsRows(s, e, parse);
    hide Next, RowOf;
  }

  lemma RowsKeepOrigin(
      sources: Sources, events: seq<Event>, e: Event, parse: string -> Option<real>, s: State, id: Id)
    requires s == Run(Initial(sources), events, parse) && id in Next(s, e, parse).tables.settlements
    requires Origins(sources, events, parse, s)
    ensures var r := Next(s, e, parse).tables.settlements[id];
            WasRead(sources, events + [e], parse, r.offboardingId, r.employeeId, r.audit)
  {
    PastStays(sources, events, e, parse);
    StepDrafts(s, e, parse, id);
    hide Next, Run, WasRead, WasClosed, ExitHasOrigin;
  }

  lemma {:induction false} OriginsInRun(sources: Sources, events: seq<Event>, parse: string -> Option<real>)
    ensures Origins(sources, events, parse, Run(Initial(sources), events, parse))
  {
    hide Next, WasRead, WasClosed, ExitHasOrigin;
    if events != [] {
      var init, e := events[..|events| - 1], events[|events| - 1];
      assert events == init + [e];
      OriginsInRun(sources, init, parse);
      var s := Run(Initial(sources), init, parse);
      var s' := Next(s, e, parse);
      forall id | id in s'.tables.offboardings ensures ExitHasOrigin(sources, events, parse, s'.tables, id) {
        ExitsKeepOrigin(sources, init, e, parse, s, id);
      }
      forall x | x in s'.tables.outbox ensures WasClosed(sources, events, parse, x) {
        EventsKeepOrigin(sources, init, e, parse, s, x);
      }
      forall d | d in s'.drafting ensures WasRead(sources, events, parse, d.offboardingId, d.employeeId, d.breakdown) {
        DraftsKeepOrigin(sources, init, e, parse, s, d);
      }
      forall id | id in s'.tables.settlements
        ensures WasRead(sources, events, parse, s'.tables.settlements[id].offboardingId,
                        s'.tables.settlements[id].employeeId, s'.tables.settlements[id].audit)
      {
        RowsKeepOrigin(sources, init, e, parse, s, id);
      }
    }
  }

  // ---- What every run keeps ----------------------------------------------------------

  /** In every run every offboarding is as its create asked, with a running fixed term of the employee
      behind an end of contract. One that is not in progress was cleared at a step that found it in
      progress with no live item of it pending or blocked: so was every closed one. */
  lemma ClosedWasCleared(sources: Sources, events: seq<Event>, parse: string -> Option<real>, id: Id)
    requires id in Run(Initial(sources), events, parse).tables.offboardings
    ensures var o := Run(Initial(sources), events, parse).tables.offboardings[id];
            && WasAsked(events, id, o)
            && (o.status == InProgress || WasCleared(sources, events, parse, id))
  {
    hide Run, WasAsked, WasCleared, WasRead, WasClosed;
    OriginsInRun(sources, events, parse);
  }

  lemma AssembledNow(s: State, parse: string -> Option<real>, offboarding: Id, b: Breakdown)
    returns (inputs: SettlementInputs, params: SeveranceParams, settings: SeveranceSettings)
    requires Computed(s, parse, offboarding, b)
    ensures var o := s.tables.offboardings[offboarding];
            IsAssembled(s.sources, parse, o.employeeId, o.reason, o.lastWorkingDay, inputs, params, settings, b)
  {
    hide ComputeForOffboarding, IsAssembled;
    var o := s.tables.offboardings[offboarding];
    inputs, params, settings := AssembledFromItsRows(s.sources, parse, o.employeeId, o.reason, o.lastWorkingDay);
  }

  /** In every run every closed event was staged by its own close, at a step that found the offboarding
      cleared, and carries the settlement assembled from the rows that stood then: the earliest live
      employment, the latest live salary, the leave that outlives the last day, and the statutory set of
      the last working day. */
  lemma ClosedEventIsAssembled(sources: Sources, events: seq<Event>, parse: string -> Option<real>, x: ClosedEvent)
    returns (k: int, inputs: SettlementInputs, params: SeveranceParams, settings: SeveranceSettings)
    requires x in Run(Initial(sources), events, parse).tables.outbox
    ensures ClosedAt(sources, events, parse, x, k)
    ensures var s := Found(sources, events, parse, k);
            var o := s.tables.offboardings[x.offboardingId];
            IsAssembled(s.sources, parse, x.employeeId, o.reason, o.lastWorkingDay,
                        inputs, params, settings, x.breakdown)
  {
    hide Run, Found, Computed, WasRead, ExitHasOrigin, IsAssembled;
    OriginsInRun(sources, events, parse);
    k :| ClosedAt(sources, events, parse, x, k);
    inputs, params, settings := AssembledNow(Found(sources, events, parse, k), parse, x.offboardingId, x.breakdown);
  }

  /** And every settlement row, whatever has become of its status, carries the settlement assembled from
      the rows that stood when its draft was read. */
  lemma DraftedRowIsAssembled(sources: Sources, events: seq<Event>, parse: string -> Option<real>, id: Id)
    returns (k: int, inputs: SettlementInputs, params: SeveranceParams, settings: SeveranceSettings)
    requires id in Run(Initial(sources), events, parse).tables.settlements
    ensures var r := Run(Initial(sources), events, parse).tables.settlements[id];
            && ReadAt(sources, events, parse, r.offboardingId, r.employeeId, r.audit, k)
            && var s := Found(sources, events, parse, k);
               var o := s.tables.offboardings[r.offboardingId];
               && IsAssembled(s.sources, parse, r.employeeId, o.reason, o.lastWorkingDay,
                              inputs, params, settings, r.audit)
               && Carries(r, r.audit)
  {
    hide Run, Found, Computed, WasClosed, ExitHasOrigin, IsAssembled, ExitsInv, LedgerSound, AttemptsSound,
      PostsAccounted;
    OriginsInRun(sources, events, parse);
    ReachableInv(sources, events, parse);
    var r := Run(Initial(sources), events, parse).tables.settlements[id];
    assert SoundRow(r);
    k :| ReadAt(sources, events, parse, r.offboardingId, r.employeeId, r.audit, k);
    inputs, params, settings := AssembledNow(Found(sources, events, parse, k), parse, r.offboardingId, r.audit);
  }
}
