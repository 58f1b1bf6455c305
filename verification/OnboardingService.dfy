/** The onboarding write service over its tables. Templates, the ambient company and the clock are
    parameters. */
module OnboardingService {
  import opened Calendar
  import opened Onboardings
  import opened Wrappers

  class OnboardingWriteService {
    var onboardings: map<Id, Onboarding>
    var tasks: seq<Task>
    var outbox: seq<HandoffEvent>

    constructor ()
      ensures Rows() == Tables(map[], [], [])
    {
      onboardings, tasks, outbox := map[], [], [];
    }

    ghost function Rows(): Tables
      reads this
    {
      Tables(onboardings, tasks, outbox)
    }

    method Create(templates: seq<Template>, steps: seq<TemplateTask>, id: Id, n: NewOnboarding)
      returns (r: Result<Id, OnboardingError>)
      modifies `onboardings, `tasks
      ensures (Rows(), r) == Onboardings.Create(old(Rows()), templates, steps, id, n)
    {
      hide Stamp, DefaultTemplate;
      if id in onboardings {
        return Failure(Database);
      }
      var template := n.templateId;
      if template.None? {
        template := DefaultTemplate(templates);
      }
      onboardings := onboardings[id :=
        Onboarding(n.employeeId, n.startDate, InProgress, None, n.probationEnd, None, template)];
      if template.Some? {
        tasks := tasks + Stamp(steps, template.value, id, n.startDate);
      }
      assert tasks + [] == tasks;
      r := Success(id);
    }

    /** The flip and the staged event are committed together. */
    method Complete(id: Id, company: Option<Id>, now: int, eventId: Id) returns (r: Result<Option<Id>, OnboardingError>)
      modifies `onboardings, `outbox
      ensures (Rows(), r) == Onboardings.Complete(old(Rows()), id, company, now, eventId)
    {
      hide OpenTasks;
      if company.None? {
        return Failure(NoCompanyScope);
      }
      if id !in onboardings {
        return Failure(NotFound);
      }
      var row := onboardings[id];
      if row.status == Completed {
        return Success(None);
      }
      if row.status != InProgress {
        return Failure(NotInProgress);
      }
      var open := OpenTasks(tasks, id);
      if open > 0 {
        return Failure(TasksOpen(open));
      }
      onboardings := onboardings[id := row.(status := Completed, completedAt := Some(now))];
      outbox := outbox + [OnboardingCompleted(eventId, id, company.value, row.employeeId)];
      r := Success(Some(eventId));
    }

    method Confirm(id: Id, company: Option<Id>, force: bool, today: NaiveDate, now: int, eventId: Id)
      returns (r: Result<Option<Id>, OnboardingError>)
      modifies `onboardings, `outbox
      ensures (Rows(), r) == Onboardings.Confirm(old(Rows()), id, company, force, today, now, eventId)
    {
      hide Before;
      if company.None? {
        return Failure(NoCompanyScope);
      }
      if id !in onboardings {
        return Failure(NotFound);
      }
      var row := onboardings[id];
      if row.confirmedAt.Some? {
        return Success(None);
      }
      if row.status != Completed {
        return Failure(NotCompleted);
      }
      if row.probationEnd.None? {
        return Failure(ProbationNotPlanned);
      }
      if !force && Before(today, row.probationEnd.value) {
        return Failure(ProbationNotEnded);
      }
      onboardings := onboardings[id := row.(confirmedAt := Some(now))];
      outbox := outbox + [ProbationConfirmed(eventId, id, company.value, row.employeeId, today)];
      r := Success(Some(eventId));
    }
  }
}
