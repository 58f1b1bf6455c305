/** What every promotion and every handoff came from: the move asked for, the grant and the effect. */
module PromotionOrigins {
  import opened Calendar
  import opened PromotionRuns
  import opened Promotions
  import opened Wrappers

  // ---- One verb ------------------------------------------------------------------

  /** The row holds the type and the move asked for, and the rating the appraisal port gave. */
  predicate IsAsAsked(row: Row, n: NewPromotion, appraisal: AppraisalAnswer) {
    && n.promotionType == Some(row.promotionType) && row.move == n.move
    && if n.appraisalId == None then row.appraisalRating == None else appraisal == AppraisalHolds(row.appraisalRating)
  }

  /** A create gets as far as filing exactly when any appraisal named is vouched for, a type is given, and
      a proposed salary is not negative; the row lands pending, as asked, with nothing behind it. */
  lemma InsertsIff(s: State, id: Id, n: NewPromotion, appraisal: AppraisalAnswer)
    requires id !in s.born && id !in s.tables.promotions
    ensures var s' := StepInsert(s, id, n, appraisal);
            && (id in s'.tables.promotions <==>
                && (n.appraisalId != None ==> appraisal.AppraisalHolds?)
                && n.promotionType != None
                && (n.move.proposedSalary.Some? ==> n.move.proposedSalary.value >= 0.0))
            && (id in s'.tables.promotions ==>
                var row := s'.tables.promotions[id];
                && IsAsAsked(row, n, appraisal) && row.status == Pending
                && row.requestId == None && row.approvedBy == None
                && s'.tables == Tables(s.tables.promotions[id := row], s.tables.outbox))
            && (id !in s'.tables.promotions ==> s' == s)
  {
  }

  /** An approval is granted exactly for a pending row with a request behind it that reads approved, and
      stamps the approver. */
  lemma ApprovesIff(t: Tables, id: Id, approver: Option<Id>, reading: Option<Verdict>)
    ensures var (t', r) := Approve(t, id, approver, reading);
            && (r == Success(true) <==>
                && id in t.promotions && t.promotions[id].status == Pending && t.promotions[id].requestId != None
                && reading == Some(VerdictApproved))
            && t' == if r != Success(true) then t
                     else Tables(t.promotions[id := t.promotions[id].(status := Approved, approvedBy := approver)],
                                 t.outbox)
  {
  }

  /** A move takes effect exactly once it is approved and its day has come, that day included, under a
      company; the event carries the row's own type and move. */
  lemma EffectsIff(t: Tables, id: Id, company: Option<Id>, today: NaiveDate, eventId: Id)
    ensures var (t', r) := Effect(t, id, company, today, eventId);
            && (r == Success(Some(eventId)) <==>
                && company != None && id in t.promotions && t.promotions[id].status == Approved
                && DayNumber(t.promotions[id].move.effectiveDate) <= DayNumber(today))
            && (r != Success(Some(eventId)) ==> t' == t)
            && (r == Success(Some(eventId)) ==>
                var row := t.promotions[id];
                var staged := EffectiveEvent(eventId, id, company.value, row.promotionType, row.move, today);
                t' == Tables(t.promotions[id := row.(status := Effective)], t.outbox + [staged]))
  {
    hide DayNumber;
    if id in t.promotions {
      OrderIsDayNumberOrder(t.promotions[id].move.effectiveDate, today);
      OrderIsDayNumberOrder(today, t.promotions[id].move.effectiveDate);
    }
  }

  // ---- Every run -----------------------------------------------------------------

  ghost predicate WasAsked(events: seq<Event>, id: Id, row: Row) {
    exists e :: e in events && e.DoInsert? && e.id == id && IsAsAsked(row, e.n, e.appraisal)
  }

  /** A create of this promotion asked for this type and this move. */
  ghost predicate MoveWasAsked(events: seq<Event>, id: Id, promotionType: PromotionType, move: Move) {
    exists e :: e in events && e.DoInsert? && e.id == id
                && e.n.promotionType == Some(promotionType) && e.n.move == move
  }

  ghost predicate WasGranted(events: seq<Event>, id: Id, approver: Option<Id>) {
    DoApprove(id, approver, Some(VerdictApproved)) in events
  }

  ghost predicate WasEffected(events: seq<Event>, x: EffectiveEvent) {
    DoEffect(x.promotionId, Some(x.companyId), x.stagedOn, x.id) in events
  }

  ghost predicate RowHasOrigin(events: seq<Event>, id: Id, row: Row) {
    && WasAsked(events, id, row)
    && (row.status in {Approved, Effective} ==> WasGranted(events, id, row.approvedBy))
    && (row.status == Rejected ==> DoReject(id) in events)
    && (row.requestId.Some? ==> DoFile(id, Filed(row.requestId.value)) in events)
  }

  ghost predicate EventHasOrigin(events: seq<Event>, x: EffectiveEvent) {
    MoveWasAsked(events, x.promotionId, x.promotionType, x.move) && WasEffected(events, x)
  }

  ghost predicate Origins(events: seq<Event>, s: State) {
    && (forall id :: id in s.tables.promotions ==> RowHasOrigin(events, id, s.tables.promotions[id]))
    && (forall x :: x in s.tables.outbox ==> EventHasOrigin(events, x))
    && (forall id :: id in s.creating && s.creating[id].Answered? ==>
          DoFile(id, Filed(s.creating[id].requestId)) in events)
  }

  lemma AskedIsMove(events: seq<Event>, id: Id, row: Row)
    requires WasAsked(events, id, row)
    ensures MoveWasAsked(events, id, row.promotionType, row.move)
  {
  }

  lemma OriginsStay(events: seq<Event>, e: Event)
    ensures e in events + [e] && forall x :: x in events ==> x in events + [e]
    ensures forall id, row :: WasAsked(events, id, row) ==> WasAsked(events + [e], id, row)
    ensures forall x :: EventHasOrigin(events, x) ==> EventHasOrigin(events + [e], x)
  {
    assert forall x :: x in events ==> x in events + [e];
    hide IsAsAsked;
  }

  lemma AskedRegardless(events: seq<Event>, id: Id, row: Row, row': Row)
    requires WasAsked(events, id, row)
    requires row' == row.(status := row'.status, requestId := row'.requestId, approvedBy := row'.approvedBy)
    ensures WasAsked(events, id, row')
  {
  }

  /** What a step does to one row: its own kind of step moves it, and the type, the move and the rating
      never change. */
  lemma StepMovesRow(s: State, e: Event, id: Id)
    requires id in Next(s, e).tables.promotions
    ensures var row' := Next(s, e).tables.promotions[id];
            if id in s.tables.promotions then
              var row := s.tables.promotions[id];
              || row' == row
              || (e == DoLink(id) && id in s.creating && s.creating[id].Answered?
                  && row' == row.(requestId := Some(s.creating[id].requestId)))
              || (e == DoReject(id) && row.status == Pending && row' == row.(status := Rejected))
              || (e == DoApprove(id, row'.approvedBy, Some(VerdictApproved)) && row.status == Pending
                  && row' == row.(status := Approved, approvedBy := row'.approvedBy))
              || (e.DoEffect? && row.status == Approved && row' == row.(status := Effective))
            else
              && e.DoInsert? && e.id == id && IsAsAsked(row', e.n, e.appraisal)
              && row'.status == Pending && row'.requestId == None
  {
    hide Before;
  }

  lemma RowKeepsOrigin(events: seq<Event>, s: State, e: Event, id: Id)
    requires Origins(events, s) && id in Next(s, e).tables.promotions
    ensures RowHasOrigin(events + [e], id, Next(s, e).tables.promotions[id])
  {
    StepMovesRow(s, e, id);
    OriginsStay(events, e);
    hide Next, EventHasOrigin, WasAsked;
    var row' := Next(s, e).tables.promotions[id];
    if id in s.tables.promotions {
      AskedRegardless(events + [e], id, s.tables.promotions[id], row');
    } else {
      AskedNow(events, e, id, row');
    }
  }

  lemma AskedNow(events: seq<Event>, e: Event, id: Id, row: Row)
    requires e.DoInsert? && e.id == id && IsAsAsked(row, e.n, e.appraisal)
    ensures WasAsked(events + [e], id, row)
  {
    assert e in events + [e];
  }

  lemma StepStages(s: State, e: Event, x: EffectiveEvent)
    requires x in Next(s, e).tables.outbox && x !in s.tables.outbox
    ensures e == DoEffect(x.promotionId, Some(x.companyId), x.stagedOn, x.id)
    ensures x.promotionId in s.tables.promotions
    ensures s.tables.promotions[x.promotionId].move == x.move
    ensures s.tables.promotions[x.promotionId].promotionType == x.promotionType
  {
    hide Before;
  }

  lemma StepKeepsOrigins(events: seq<Event>, s: State, e: Event)
    requires Origins(events, s)
    ensures Origins(events + [e], Next(s, e))
  {
    var s' := Next(s, e);
    OriginsStay(events, e);
    forall id | id in s'.creating && s'.creating[id].Answered?
      ensures DoFile(id, Filed(s'.creating[id].requestId)) in events + [e]
    {
      if !(id in s.creating && s'.creating[id] == s.creating[id]) {
        StepAnswers(s, e, id);
      }
    }
    hide Next, RowHasOrigin, EventHasOrigin;
    forall id | id in s'.tables.promotions ensures RowHasOrigin(events + [e], id, s'.tables.promotions[id]) {
      RowKeepsOrigin(events, s, e, id);
    }
    forall x | x in s'.tables.outbox ensures EventHasOrigin(events + [e], x) {
      if x !in s.tables.outbox {
        EventBegins(events, s, e, x);
      }
    }
  }

  lemma StepAnswers(s: State, e: Event, id: Id)
    requires id in Next(s, e).creating && Next(s, e).creating[id].Answered?
    requires !(id in s.creating && Next(s, e).creating[id] == s.creating[id])
    ensures e == DoFile(id, Filed(Next(s, e).creating[id].requestId))
  {
  }

  lemma EventBegins(events: seq<Event>, s: State, e: Event, x: EffectiveEvent)
    requires Origins(events, s) && x in Next(s, e).tables.outbox && x !in s.tables.outbox
    ensures EventHasOrigin(events + [e], x)
  {
    StepStages(s, e, x);
    OriginsStay(events, e);
    hide Next;
    assert RowHasOrigin(events, x.promotionId, s.tables.promotions[x.promotionId]);
    AskedIsMove(events + [e], x.promotionId, s.tables.promotions[x.promotionId]);
  }

  lemma {:induction false} OriginsInRun(events: seq<Event>)
    ensures Origins(events, Run(EMPTY, events))
  {
    hide Next, Origins;
    if events == [] {
      NothingHasOrigin();
    } else {
      var init, e := events[..|events| - 1], events[|events| - 1];
      assert events == init + [e];
      OriginsInRun(init);
      StepKeepsOrigins(init, Run(EMPTY, init), e);
    }
  }

  lemma NothingHasOrigin()
    ensures Origins([], EMPTY)
  {
  }

  /** In every run every promotion has the type, move and rating its own create asked for; past the gate,
      the approver of an approval that read its request as granted; and a link only to a request filed
      for it. */
  lemma RowsAreAsAskedFor(events: seq<Event>, id: Id)
    requires id in Run(EMPTY, events).tables.promotions
    ensures RowHasOrigin(events, id, Run(EMPTY, events).tables.promotions[id])
  {
    hide Run, RowHasOrigin, EventHasOrigin;
    OriginsInRun(events);
  }

  /** And every handoff event carries the very type and move given to the create of its promotion, and the
      company, the day and the id of the effect that staged it. */
  lemma HandoffsCarryTheMoveAsked(events: seq<Event>, x: EffectiveEvent)
    requires x in Run(EMPTY, events).tables.outbox
    ensures MoveWasAsked(events, x.promotionId, x.promotionType, x.move)
    ensures WasEffected(events, x)
  {
    hide Run, RowHasOrigin, MoveWasAsked, WasEffected;
    OriginsInRun(events);
  }
}
