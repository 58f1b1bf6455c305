/** The promotion write service over its tables. The ports' answers, the approver, the clock and
    the ambient company are parameters. */
module PromotionService {
  import opened Calendar
  import opened Promotions
  import opened Wrappers

  class PromotionWriteService {
    var promotions: map<Id, Row>
    var outbox: seq<EffectiveEvent>

    constructor ()
      ensures Rows() == Tables(map[], [])
    {
      promotions, outbox := map[], [];
    }

    ghost function Rows(): Tables
      reads this
    {
      Tables(promotions, outbox)
    }

    /** Three transactions: insert, then file, then link or take the row back. */
    method Create(id: Id, n: NewPromotion, appraisal: AppraisalAnswer, answer: FilingAnswer, links: bool, deletes: bool)
      returns (r: Result<Id, PromotionError>)
      modifies `promotions
      ensures (Rows(), r) == Promotions.Create(old(Rows()), id, n, appraisal, answer, links, deletes)
    {
      var rating: Option<real> := None;
      if n.appraisalId.Some? {
        if !appraisal.AppraisalHolds? {
          return Failure(AppraisalUnverified);
        }
        rating := appraisal.rating;
      }
      var badSalary := n.move.proposedSalary.Some? && n.move.proposedSalary.value < 0.0;
      if n.promotionType.None? || badSalary || id in promotions {
        return Failure(Database);
      }
      promotions := promotions[id := Row(n.promotionType.value, n.move, Pending, None, None, rating)];
      match answer {
        case Filed(request) =>
          if !links {
            return Failure(Database);
          }
          promotions := promotions[id := promotions[id].(requestId := Some(request))];
        case Unwired =>
        case Broken =>
          if deletes {
            promotions := promotions - {id};
          }
          return Failure(Database);
      }
      r := Success(id);
    }

    method Approve(id: Id, approver: Option<Id>, reading: Option<Verdict>) returns (r: Result<bool, PromotionError>)
      modifies `promotions
      ensures (Rows(), r) == Promotions.Approve(old(Rows()), id, approver, reading)
    {
      if id !in promotions {
        return Failure(NotFound);
      }
      var row := promotions[id];
      if row.requestId.None? {
        return Failure(NoRequestBehind);
      }
      if reading.None? {
        return Failure(LinkUnreadable);
      }
      if reading.value != VerdictApproved {
        return Failure(NotGranted);
      }
      if row.status == Approved {
        return Success(false);
      }
      if row.status != Pending {
        return Failure(NotPending);
      }
      promotions := promotions[id := row.(status := Approved, approvedBy := approver)];
      r := Success(true);
    }

    method Reject(id: Id) returns (moved: bool)
      modifies `promotions
      ensures (Rows(), moved) == Promotions.Reject(old(Rows()), id)
    {
      moved := id in promotions && promotions[id].status == Pending;
      if moved {
        promotions := promotions[id := promotions[id].(status := Rejected)];
      }
    }

    /** The flip and the staged event are committed together. */
    method Effect(
        id: Id, company: Option<Id>, today: NaiveDate, eventId: Id)
      returns (r: Result<Option<Id>, PromotionError>)
      modifies `promotions, `outbox
      ensures (Rows(), r) == Promotions.Effect(old(Rows()), id, company, today, eventId)
    {
      hide Before;
      if company.None? {
        return Failure(NoCompanyScope);
      }
      if id !in promotions {
        return Failure(NotFound);
      }
      var row := promotions[id];
      if row.status == Effective {
        return Success(None);
      }
      if row.status != Approved {
        return Failure(NotApproved);
      }
      if Before(today, row.move.effectiveDate) {
        return Failure(NotYetEffective);
      }
      promotions := promotions[id := row.(status := Effective)];
      outbox := outbox + [EffectiveEvent(eventId, id, company.value, row.promotionType, row.move, today)];
      r := Success(Some(eventId));
    }
  }
}
