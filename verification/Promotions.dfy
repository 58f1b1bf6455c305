/** The promotion table and its verbs, one transaction at a time. */
module Promotions {
  import opened Calendar
  import opened Wrappers

  type Id = nat

  datatype PromotionStatus = Draft | Pending | Approved | Rejected | Effective | Cancelled
  datatype PromotionType = Promotion | Transfer | Demotion | Lateral

  /** What changes for the employee, and from when. */
  datatype Move = Move(
    employeeId: Id,
    positionFrom: Option<Id>, positionTo: Option<Id>,
    levelFrom: Option<Id>, levelTo: Option<Id>,
    departmentFrom: Option<Id>, departmentTo: Option<Id>,
    proposedSalary: Option<real>, effectiveDate: NaiveDate)

  datatype Row = Row(
    promotionType: PromotionType, move: Move, status: PromotionStatus,
    requestId: Option<Id>, approvedBy: Option<Id>, appraisalRating: Option<real>)

  /** The handoff event: the move, as role and salary consumers read it. */
  datatype EffectiveEvent = EffectiveEvent(
    id: Id, promotionId: Id, companyId: Id, promotionType: PromotionType, move: Move, stagedOn: NaiveDate)

  datatype Tables = Tables(promotions: map<Id, Row>, outbox: seq<EffectiveEvent>)

  datatype NewPromotion = NewPromotion(promotionType: Option<PromotionType>, move: Move, appraisalId: Option<Id>)

  /** What the appraisal port says of a supplied appraisal. */
  datatype AppraisalAnswer = AppraisalPortUnwired | AppraisalRefused | AppraisalHolds(rating: Option<real>)

  /** What the approvals port says to a filing. */
  datatype FilingAnswer = Filed(requestId: Id) | Unwired | Broken

  datatype Verdict = VerdictPending | VerdictApproved | VerdictRejected

  datatype PromotionError =
    | AppraisalUnverified | NotFound | NoRequestBehind | NotGranted | LinkUnreadable
    | NotPending | NotApproved | NotYetEffective | NoCompanyScope | Database

  // ---- Create, phase by phase ----------------------------------------------

  function CheckAppraisal(appraisalId: Option<Id>, answer: AppraisalAnswer): Result<Option<real>, PromotionError> {
    if appraisalId.None? then Success(None)
    else if answer.AppraisalHolds? then Success(answer.rating)
    else Failure(AppraisalUnverified)
  }

  /** The row lands pending and unlinked. The statement names the type column outright, so a missing
      type is a null in a column that takes none. */
  function Insert(t: Tables, id: Id, n: NewPromotion, rating: Option<real>): (Tables, Result<(), PromotionError>) {
    if n.promotionType.None? || id in t.promotions
       || (n.move.proposedSalary.Some? && n.move.proposedSalary.value < 0.0)
    then
      (t, Failure(Database))
    else
      (t.(promotions := t.promotions[id := Row(n.promotionType.value, n.move, Pending, None, None, rating)]),
          Success(()))
  }

  function Link(t: Tables, id: Id, request: Id): Tables {
    if id in t.promotions
    then t.(promotions := t.promotions[id := t.promotions[id].(requestId := Some(request))])
    else t
  }

  /** The compensating delete: by id alone. */
  function Delete(t: Tables, id: Id): Tables {
    t.(promotions := t.promotions - {id})
  }

  /** A create that nothing interferes with and that does not die. `links` and `deletes` say whether
      its last transaction, the link or the compensating delete, works. */
  function Create(
      t: Tables, id: Id, n: NewPromotion, appraisal: AppraisalAnswer, answer: FilingAnswer, links: bool, deletes: bool)
    : (Tables, Result<Id, PromotionError>)
  {
    var rating := CheckAppraisal(n.appraisalId, appraisal);
    if rating.Failure? then (t, Failure(rating.error))
    else
      var (t', inserted) := Insert(t, id, n, rating.value);
      if inserted.Failure? then (t', Failure(inserted.error))
      else
        match answer
        case Filed(request) => if links then (Link(t', id, request), Success(id)) else (t', Failure(Database))
        case Unwired => (t', Success(id))
        case Broken => (if deletes then Delete(t', id) else t', Failure(Database))
  }

  // ---- The gates -----------------------------------------------------------

  /** `reading` is what the engine says of the linked request; None when it cannot be read. The
      verdict is read before the status is looked at. */
  function Approve(
      t: Tables, id: Id, approver: Option<Id>, reading: Option<Verdict>)
    : (Tables, Result<bool, PromotionError>)
  {
    if id !in t.promotions then (t, Failure(NotFound))
    else
      var row := t.promotions[id];
      if row.requestId.None? then (t, Failure(NoRequestBehind))
      else if reading.None? then (t, Failure(LinkUnreadable))
      else if !reading.value.VerdictApproved? then (t, Failure(NotGranted))
      else if row.status.Approved? then (t, Success(false))
      else if !row.status.Pending? then (t, Failure(NotPending))
      else (t.(promotions := t.promotions[id := row.(status := Approved, approvedBy := approver)]), Success(true))
  }

  /** Any pending row, linked or not. */
  function Reject(t: Tables, id: Id): (Tables, bool) {
    if id in t.promotions && t.promotions[id].status.Pending?
    then (t.(promotions := t.promotions[id := t.promotions[id].(status := Rejected)]), true)
    else (t, false)
  }

  function Effect(
      t: Tables, id: Id, company: Option<Id>, today: NaiveDate, eventId: Id)
    : (Tables, Result<Option<Id>, PromotionError>)
  {
    if company.None? then (t, Failure(NoCompanyScope))
    else if id !in t.promotions then (t, Failure(NotFound))
    else
      var row := t.promotions[id];
      if row.status.Effective? then (t, Success(None))
      else if !row.status.Approved? then (t, Failure(NotApproved))
      else if Before(today, row.move.effectiveDate) then (t, Failure(NotYetEffective))
      else
        (Tables(t.promotions[id := row.(status := Effective)],
                t.outbox + [EffectiveEvent(eventId, id, company.value, row.promotionType, row.move, today)]),
         Success(Some(eventId)))
  }
}
