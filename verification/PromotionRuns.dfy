/** Every interleaving of promotion creates, each a row of separate transactions that may die
    between any two, with approvals, rejections and effects. */
module PromotionRuns {
  import opened Calendar
  import opened Promotions
  import opened Wrappers

  /** Where a create in flight stands: inserted and filing; answered with a request; refused. */
  datatype Phase = Filing | Answered(requestId: Id) | Compensating

  /** `born` are the ids ever drawn; `filed` the requests filed, by promotion; `granted` the requests
      an approve call read as approved; `stranded` the promotions whose create ended with no link and
      no delete. */
  datatype State = State(
    tables: Tables, creating: map<Id, Phase>,
    born: set<Id>, filed: set<(Id, Id)>, granted: set<Id>, stranded: set<Id>)

  datatype Event =
    | DoInsert(id: Id, n: NewPromotion, appraisal: AppraisalAnswer)
    | DoFile(id: Id, answer: FilingAnswer)
    | DoLink(id: Id)
    | DoDelete(id: Id, deletes: bool)
    | DoDie(id: Id)
    | DoApprove(id: Id, approver: Option<Id>, reading: Option<Verdict>)
    | DoReject(id: Id)
    | DoEffect(id: Id, company: Option<Id>, today: NaiveDate, eventId: Id)

  function StepInsert(s: State, id: Id, n: NewPromotion, appraisal: AppraisalAnswer): State {
    var rating := CheckAppraisal(n.appraisalId, appraisal);
    if id in s.born || rating.Failure? then s
    else
      var (tables, inserted) := Insert(s.tables, id, n, rating.value);
      if inserted.Failure? then s
      else s.(tables := tables, creating := s.creating[id := Filing], born := s.born + {id})
  }

  /** A port that answers with a request has it on file, whether or not the answer is ever linked. */
  function StepFile(s: State, id: Id, answer: FilingAnswer): State {
    if id !in s.creating || !s.creating[id].Filing? then s
    else
      match answer
      case Filed(request) => s.(creating := s.creating[id := Answered(request)], filed := s.filed + {(id, request)})
      case Unwired => s.(creating := s.creating - {id}, stranded := s.stranded + {id})
      case Broken => s.(creating := s.creating[id := Compensating])
  }

  function StepLink(s: State, id: Id): State {
    if id !in s.creating || !s.creating[id].Answered? then s
    else s.(tables := Link(s.tables, id, s.creating[id].requestId), creating := s.creating - {id})
  }

  function StepDelete(s: State, id: Id, deletes: bool): State {
    if id !in s.creating || !s.creating[id].Compensating? then s
    else if deletes then s.(tables := Delete(s.tables, id), creating := s.creating - {id})
    else s.(creating := s.creating - {id}, stranded := s.stranded + {id})
  }

  function StepDie(s: State, id: Id): State {
    if id in s.creating then s.(creating := s.creating - {id}, stranded := s.stranded + {id}) else s
  }

  function StepApprove(s: State, id: Id, approver: Option<Id>, reading: Option<Verdict>): State {
    s.(tables := Approve(s.tables, id, approver, reading).0,
       granted :=
         if id in s.tables.promotions && s.tables.promotions[id].requestId.Some? && reading == Some(VerdictApproved)
         then s.granted + {s.tables.promotions[id].requestId.value}
         else s.granted)
  }

  function Next(s: State, e: Event): State {
    match e
    case DoInsert(id, n, appraisal) => StepInsert(s, id, n, appraisal)
    case DoFile(id, answer) => StepFile(s, id, answer)
    case DoLink(id) => StepLink(s, id)
    case DoDelete(id, deletes) => StepDelete(s, id, deletes)
    case DoDie(id) => StepDie(s, id)
    case DoApprove(id, approver, reading) => StepApprove(s, id, approver, reading)
    case DoReject(id) => s.(tables := Reject(s.tables, id).0)
    case DoEffect(id, company, today, eventId) => s.(tables := Effect(s.tables, id, company, today, eventId).0)
  }

  function Run(s: State, events: seq<Event>): State {
    if events == [] then s else Next(Run(s, events[..|events| - 1]), events[|events| - 1])
  }

  const EMPTY: State := State(Tables(map[], []), map[], {}, {}, {}, {})

  // ---- The invariant -------------------------------------------------------

  function EventsFor(outbox: seq<EffectiveEvent>, id: Id): nat {
    if outbox == [] then 0
    else EventsFor(outbox[..|outbox| - 1], id) + (if outbox[|outbox| - 1].promotionId == id then 1 else 0)
  }

  lemma EventsForAppend(outbox: seq<EffectiveEvent>, e: EffectiveEvent, id: Id)
    ensures EventsFor(outbox + [e], id) == EventsFor(outbox, id) + (if e.promotionId == id then 1 else 0)
  {
  }

  predicate IsEffective(t: Tables, id: Id) {
    id in t.promotions && t.promotions[id].status.Effective?
  }

  predicate IsDecided(t: Tables, id: Id) {
    id in t.promotions && (t.promotions[id].status.Approved? || t.promotions[id].status.Effective?)
  }

  ghost predicate OneEventPerEffect(t: Tables) {
    forall id :: EventsFor(t.outbox, id) == if IsEffective(t, id) then 1 else 0
  }

  /** An event carries its promotion's own move, staged on or after the day the move takes effect. */
  ghost predicate EventSound(t: Tables, e: EffectiveEvent) {
    && IsEffective(t, e.promotionId)
    && e.move == t.promotions[e.promotionId].move
    && e.promotionType == t.promotions[e.promotionId].promotionType
    && !Before(e.stagedOn, e.move.effectiveDate)
  }

  ghost predicate EventsSound(t: Tables) {
    forall e :: e in t.outbox ==> EventSound(t, e)
  }

  /** A link names a request filed for this promotion; past the gate, one that was granted. */
  ghost predicate GateSound(s: State, id: Id)
    requires id in s.tables.promotions
  {
    var row := s.tables.promotions[id];
    && row.status in {Pending, Approved, Rejected, Effective}
    && (row.requestId.Some? ==> (id, row.requestId.value) in s.filed)
    && (row.status in {Approved, Effective} ==> row.requestId.Some? && row.requestId.value in s.granted)
  }

  ghost predicate GatesSound(s: State) {
    forall id :: id in s.tables.promotions ==> GateSound(s, id)
  }

  /** A row is linked, or its create is in flight, or its create stranded it: exactly one of them. */
  ghost predicate CreateSound(s: State, id: Id)
    requires id in s.tables.promotions
  {
    var linked, inFlight, stranded := s.tables.promotions[id].requestId.Some?, id in s.creating, id in s.stranded;
    (linked || inFlight || stranded) && !(linked && inFlight) && !(linked && stranded) && !(inFlight && stranded)
  }

  ghost predicate CreatesSound(s: State) {
    && (forall id :: id in s.tables.promotions ==> CreateSound(s, id) && id in s.born)
    && (forall id :: id in s.creating ==> id in s.tables.promotions)
    && (forall id :: id in s.creating && s.creating[id].Answered? ==> (id, s.creating[id].requestId) in s.filed)
    && (forall id :: id in s.stranded ==> id in s.tables.promotions)
  }

  ghost predicate Inv(s: State) {
    CreatesSound(s) && GatesSound(s) && EventsSound(s.tables) && OneEventPerEffect(s.tables)
  }

  /** A step of a create stages nothing and leaves every effective promotion alone. */
  lemma CreatesKeepEvents(s: State, e: Event)
    requires Inv(s) && (e.DoInsert? || e.DoFile? || e.DoLink? || e.DoDelete? || e.DoDie?)
    ensures EventsSound(Next(s, e).tables) && OneEventPerEffect(Next(s, e).tables)
  {
    hide EventsFor, Before;
    var t' := Next(s, e).tables;
    assert t'.outbox == s.tables.outbox;
    forall id ensures IsEffective(t', id) == IsEffective(s.tables, id) {
      if id in s.tables.promotions { assert GateSound(s, id) && CreateSound(s, id); }
    }
    forall x | x in t'.outbox ensures EventSound(t', x) {
      assert EventSound(s.tables, x);
      assert GateSound(s, x.promotionId) && CreateSound(s, x.promotionId);
    }
  }

  lemma CreatesKeepInv(s: State, e: Event)
    requires Inv(s) && (e.DoInsert? || e.DoFile? || e.DoLink? || e.DoDelete? || e.DoDie?)
    ensures Inv(Next(s, e))
  {
    CreatesKeepEvents(s, e);
    hide EventsSound, OneEventPerEffect;
    var s' := Next(s, e);
    forall id | id in s'.tables.promotions ensures GateSound(s', id) && CreateSound(s', id) {
      if id in s.tables.promotions { assert GateSound(s, id) && CreateSound(s, id); }
    }
  }

  lemma GatesKeepInv(s: State, e: Event)
    requires Inv(s) && (e.DoApprove? || e.DoReject?)
    ensures Inv(Next(s, e))
  {
    hide EventsFor;
    var s' := Next(s, e);
    forall id ensures IsEffective(s'.tables, id) == IsEffective(s.tables, id) {}
    forall x | x in s'.tables.outbox ensures EventSound(s'.tables, x) {
      assert EventSound(s.tables, x);
    }
    forall id | id in s'.tables.promotions ensures GateSound(s', id) && CreateSound(s', id) {
      assert GateSound(s, id) && CreateSound(s, id);
    }
  }

  lemma EffectKeepsInv(s: State, e: Event)
    requires Inv(s) && e.DoEffect?
    ensures Inv(Next(s, e))
  {
    hide EventsFor, Before;
    var s' := Next(s, e);
    if s' != s {
      var x := s'.tables.outbox[|s.tables.outbox|];
      forall id ensures EventsFor(s'.tables.outbox, id) == if IsEffective(s'.tables, id) then 1 else 0 {
        EventsForAppend(s.tables.outbox, x, id);
      }
      forall y | y in s'.tables.outbox ensures EventSound(s'.tables, y) {
        if y in s.tables.outbox { assert EventSound(s.tables, y); }
      }
      forall id | id in s'.tables.promotions ensures GateSound(s', id) && CreateSound(s', id) {
        assert GateSound(s, id) && CreateSound(s, id);
      }
    }
  }

  lemma {:induction false} RunKeepsInv(s: State, events: seq<Event>)
    requires Inv(s)
    ensures Inv(Run(s, events))
  {
    hide Inv, Next;
    if events != [] {
      var before, e := Run(s, events[..|events| - 1]), events[|events| - 1];
      RunKeepsInv(s, events[..|events| - 1]);
      match e {
        case DoApprove(_, _, _) => GatesKeepInv(before, e);
        case DoReject(_) => GatesKeepInv(before, e);
        case DoEffect(_, _, _, _) => EffectKeepsInv(before, e);
        case _ => CreatesKeepInv(before, e);
      }
    }
  }

  lemma EveryRunIsSound(events: seq<Event>)
    ensures Inv(Run(EMPTY, events))
  {
    RunKeepsInv(EMPTY, events);
  }

  // ---- What every run keeps -------------------------------------------------

  /** A promotion is past the gate only when it is linked to a request that was filed for it and
      that an approve call read as approved. */
  lemma ApprovedOnlyOnItsVerdict(events: seq<Event>, id: Id)
    ensures var s := Run(EMPTY, events);
            IsDecided(s.tables, id) ==>
              && s.tables.promotions[id].requestId.Some?
              && (id, s.tables.promotions[id].requestId.value) in s.filed
              && s.tables.promotions[id].requestId.value in s.granted
  {
    hide Run;
    EveryRunIsSound(events);
    var s := Run(EMPTY, events);
    if id in s.tables.promotions { assert GateSound(s, id); }
  }

  /** A promotion is effective exactly when one handoff event names it; that event carries the row's
      own move and was staged no earlier than the move's effective date. */
  lemma EffectiveMeansOneEvent(events: seq<Event>, id: Id)
    ensures var t := Run(EMPTY, events).tables;
            && EventsFor(t.outbox, id) == (if IsEffective(t, id) then 1 else 0)
            && forall e :: e in t.outbox ==> EventSound(t, e)
  {
    hide Run;
    EveryRunIsSound(events);
  }

  /** How a row may move in one step: approved from pending, effective from approved, rejected from
      pending; what it is about never changes. */
  predicate MovesAlong(before: Row, after: Row) {
    && after.move == before.move && after.promotionType == before.promotionType
    && after.appraisalRating == before.appraisalRating
    && (before.requestId.Some? ==> after.requestId == before.requestId)
    && (after.status != before.status ==>
          (before.status, after.status) in {(Pending, Approved), (Pending, Rejected), (Approved, Effective)})
    && (before.status == Effective ==> after == before)
  }

  /** No step of a run deletes a promotion that is past the gate or even linked; a row that stays
      moves along. */
  lemma StepsSpareDecidedRows(events: seq<Event>, e: Event, id: Id)
    requires id in Run(EMPTY, events).tables.promotions
    ensures var (s, s') := (Run(EMPTY, events), Run(EMPTY, events + [e]));
            && (id !in s'.tables.promotions ==>
                  && e.DoDelete? && e.id == id
                  && s.tables.promotions[id].status in {Pending, Rejected}
                  && s.tables.promotions[id].requestId.None?)
            && (id in s'.tables.promotions ==> MovesAlong(s.tables.promotions[id], s'.tables.promotions[id]))
  {
    var s := Run(EMPTY, events);
    assert (events + [e])[..|events|] == events;
    assert Run(EMPTY, events + [e]) == Next(s, e);
    hide Run, Next, MovesAlong;
    EveryRunIsSound(events);
    StepSparesDecidedRow(s, e, id);
  }

  lemma StepSparesDecidedRow(s: State, e: Event, id: Id)
    requires Inv(s) && id in s.tables.promotions
    ensures var s' := Next(s, e);
            && (id !in s'.tables.promotions ==>
                  && e.DoDelete? && e.id == id
                  && s.tables.promotions[id].status in {Pending, Rejected}
                  && s.tables.promotions[id].requestId.None?)
            && (id in s'.tables.promotions ==> MovesAlong(s.tables.promotions[id], s'.tables.promotions[id]))
  {
    assert GateSound(s, id) && CreateSound(s, id);
    hide EventsSound, OneEventPerEffect, GatesSound, Before;
  }

  // ---- Half-made promotions ------------------------------------------------

  /** A row nobody will link: unlinked, with no create in flight for it. */
  predicate HalfMade(s: State, id: Id) {
    id in s.tables.promotions && s.tables.promotions[id].requestId.None? && id !in s.creating
  }

  /** A create leaves a half-made row exactly when it died or its link failed, met an unwired port, or
      its compensating delete failed. */
  lemma HalfMadeIffStranded(events: seq<Event>, id: Id)
    ensures var s := Run(EMPTY, events); HalfMade(s, id) <==> id in s.stranded
  {
    hide Run;
    EveryRunIsSound(events);
    var s := Run(EMPTY, events);
    if id in s.tables.promotions { assert CreateSound(s, id); }
  }

  lemma HalfMadeIsUndecided(s: State, id: Id)
    requires Inv(s) && HalfMade(s, id)
    ensures !IsDecided(s.tables, id)
  {
  }

  lemma HalfMadeStays(s: State, e: Event, id: Id)
    requires Inv(s) && HalfMade(s, id)
    ensures HalfMade(Next(s, e), id) && !IsDecided(Next(s, e).tables, id)
  {
  }

  lemma {:induction false} HalfMadeForever(s: State, later: seq<Event>, id: Id)
    requires Inv(s) && HalfMade(s, id)
    ensures HalfMade(Run(s, later), id) && !IsDecided(Run(s, later).tables, id)
    ensures Inv(Run(s, later))
  {
    hide Inv, Next, HalfMade;
    if later == [] {
      HalfMadeIsUndecided(s, id);
    } else {
      HalfMadeForever(s, later[..|later| - 1], id);
      RunKeepsInv(s, later);
      HalfMadeStays(Run(s, later[..|later| - 1]), later[|later| - 1], id);
    }
  }

  /** A half-made promotion is never approved and never takes effect, whatever happens later: not
      in a deployment without an approvals port, and not after a crash. */
  lemma HalfMadeIsNeverApproved(events: seq<Event>, later: seq<Event>, id: Id)
    requires HalfMade(Run(EMPTY, events), id)
    ensures !IsDecided(Run(Run(EMPTY, events), later).tables, id)
    ensures EventsFor(Run(Run(EMPTY, events), later).tables.outbox, id) == 0
  {
    hide Run, HalfMade, EventsFor;
    EveryRunIsSound(events);
    HalfMadeForever(Run(EMPTY, events), later, id);
  }

  /** What the insert refuses. */
  predicate Insertable(t: Tables, id: Id, n: NewPromotion) {
    && n.promotionType.Some? && id !in t.promotions
    && (n.move.proposedSalary.Some? ==> n.move.proposedSalary.value >= 0.0)
  }

  predicate AppraisalStands(n: NewPromotion, appraisal: AppraisalAnswer) {
    n.appraisalId.Some? ==> appraisal.AppraisalHolds?
  }

  /** A create without a type, or with a refused appraisal, leaves nothing behind. */
  lemma RefusedCreateLeavesNothing(
      t: Tables, id: Id, n: NewPromotion, appraisal: AppraisalAnswer, answer: FilingAnswer, links: bool, deletes: bool)
    requires n.promotionType.None? || (n.appraisalId.Some? && !appraisal.AppraisalHolds?)
    ensures Create(t, id, n, appraisal, answer, links, deletes).0 == t
    ensures Create(t, id, n, appraisal, answer, links, deletes).1.Failure?
  {
  }

  /** A create fails exactly when it is refused before its insert, its filing breaks or its link fails;
      and it then leaves the table as it was exactly when it was refused, or when its filing broke and
      the compensating delete worked. A failed link leaves the row, with its request on file. */
  lemma FailedCreateLeavesNothingIff(
      t: Tables, id: Id, n: NewPromotion, appraisal: AppraisalAnswer, answer: FilingAnswer, links: bool, deletes: bool)
    ensures var (t', r) := Create(t, id, n, appraisal, answer, links, deletes);
            var refused := !AppraisalStands(n, appraisal) || !Insertable(t, id, n);
            && (r.Failure? <==> refused || answer.Broken? || (answer.Filed? && !links))
            && (r.Failure? ==> (t' == t <==> refused || (answer.Broken? && deletes)))
            && (!refused && answer.Filed? && !links ==> id in t'.promotions && t'.promotions[id].requestId.None?)
  {
    if AppraisalStands(n, appraisal) && Insertable(t, id, n) {
      var rating := CheckAppraisal(n.appraisalId, appraisal).value;
      var row := Row(n.promotionType.value, n.move, Pending, None, None, rating);
      assert t.promotions[id := row] - {id} == t.promotions;
      assert id in t.promotions[id := row];
    }
  }

  // ---- A create on its own ------------------------------------------------

  /** A link that fails ends its create as a crash before it does. */
  function CreateSteps(
      id: Id, n: NewPromotion, appraisal: AppraisalAnswer, answer: FilingAnswer, links: bool, deletes: bool)
    : seq<Event>
  {
    [DoInsert(id, n, appraisal), DoFile(id, answer),
     if answer.Broken? then DoDelete(id, deletes) else if links then DoLink(id) else DoDie(id)]
  }

  /** The create call is its steps, one after the other. */
  lemma CreateIsItsSteps(
      s: State, id: Id, n: NewPromotion, appraisal: AppraisalAnswer, answer: FilingAnswer, links: bool, deletes: bool)
    requires Inv(s) && id !in s.born
    ensures var steps := CreateSteps(id, n, appraisal, answer, links, deletes);
            Next(Next(Next(s, steps[0]), steps[1]), steps[2]).tables
            == Create(s.tables, id, n, appraisal, answer, links, deletes).0
  {
  }
}
