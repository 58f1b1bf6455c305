/** Onboarding: the checklist stamped from a template, completion, and the probation's confirmation. */
module Onboardings {
  import opened Calendar
  import opened Wrappers

  type Id = nat

  datatype OnboardingStatus = NotStarted | InProgress | Completed | Abandoned
  datatype TaskStatus = Pending | Done | Skipped | Blocked
  datatype TaskCategory = Document | Equipment | AccountAccess | PolicyAck | Induction

  datatype Onboarding = Onboarding(
    employeeId: Id, startDate: NaiveDate, status: OnboardingStatus, completedAt: Option<int>,
    probationEnd: Option<NaiveDate>, confirmedAt: Option<int>, templateId: Option<Id>)

  /** The due date is kept as its day number. */
  datatype Task = Task(
    onboardingId: Id, title: string, category: Option<TaskCategory>, dueDay: int, status: TaskStatus, deleted: bool)

  datatype Template = Template(id: Id, isDefault: bool, isActive: bool, deleted: bool)
  datatype TemplateTask = TemplateTask(
    templateId: Id, title: string, category: Option<string>, dueDayOffset: int, deleted: bool)

  datatype HandoffEvent =
    | OnboardingCompleted(id: Id, onboardingId: Id, companyId: Id, employeeId: Id)
    | ProbationConfirmed(id: Id, onboardingId: Id, companyId: Id, employeeId: Id, confirmedOn: NaiveDate)

  datatype Tables = Tables(onboardings: map<Id, Onboarding>, tasks: seq<Task>, outbox: seq<HandoffEvent>)

  datatype NewOnboarding = NewOnboarding(
    employeeId: Id, startDate: NaiveDate, probationEnd: Option<NaiveDate>, templateId: Option<Id>)

  datatype OnboardingError =
    | NotFound | NotInProgress | TasksOpen(open: nat) | NotCompleted | ProbationNotPlanned | ProbationNotEnded
    | NoCompanyScope | Database

  // ---- Create ----------------------------------------------------------------

  /** A template's category is free text; only the names of the task categories carry over. */
  function CategoryOf(name: Option<string>): Option<TaskCategory> {
    match name
    case Some("document") => Some(Document)
    case Some("equipment") => Some(Equipment)
    case Some("account_access") => Some(AccountAccess)
    case Some("policy_ack") => Some(PolicyAck)
    case Some("induction") => Some(Induction)
    case _ => None
  }

  function TaskOf(step: TemplateTask, onboarding: Id, start: NaiveDate): Task {
    Task(onboarding, step.title, CategoryOf(step.category), DayNumber(start) + step.dueDayOffset, Pending, false)
  }

  predicate IsStep(step: TemplateTask, template: Id) {
    step.templateId == template && !step.deleted
  }

  /** The checklist: one pending task for each live step of the template. */
  function Stamp(steps: seq<TemplateTask>, template: Id, onboarding: Id, start: NaiveDate): seq<Task> {
    if steps == [] then []
    else
      var earlier := Stamp(steps[..|steps| - 1], template, onboarding, start);
      var last := steps[|steps| - 1];
      if IsStep(last, template) then earlier + [TaskOf(last, onboarding, start)] else earlier
  }

  predicate IsUsableDefault(t: Template) {
    t.isDefault && t.isActive && !t.deleted
  }

  function DefaultTemplate(templates: seq<Template>): Option<Id> {
    if templates == [] then None
    else if IsUsableDefault(templates[0]) then Some(templates[0].id)
    else DefaultTemplate(templates[1..])
  }

  function Create(t: Tables, templates: seq<Template>, steps: seq<TemplateTask>, id: Id, n: NewOnboarding)
    : (Tables, Result<Id, OnboardingError>)
  {
    if id in t.onboardings then (t, Failure(Database))
    else
      var template := if n.templateId.Some? then n.templateId else DefaultTemplate(templates);
      var row := Onboarding(n.employeeId, n.startDate, InProgress, None, n.probationEnd, None, template);
      var tasks := if template.Some? then Stamp(steps, template.value, id, n.startDate) else [];
      (t.(onboardings := t.onboardings[id := row], tasks := t.tasks + tasks), Success(id))
  }

  // ---- Complete and confirm ---------------------------------------------------

  predicate IsOpen(task: Task, onboarding: Id) {
    task.onboardingId == onboarding && task.status in {Pending, Blocked} && !task.deleted
  }

  function OpenTasks(tasks: seq<Task>, onboarding: Id): nat {
    if tasks == [] then 0
    else OpenTasks(tasks[..|tasks| - 1], onboarding) + (if IsOpen(tasks[|tasks| - 1], onboarding) then 1 else 0)
  }

  function Complete(
      t: Tables, id: Id, company: Option<Id>, now: int, eventId: Id)
    : (Tables, Result<Option<Id>, OnboardingError>)
  {
    if company.None? then (t, Failure(NoCompanyScope))
    else if id !in t.onboardings then (t, Failure(NotFound))
    else
      var row := t.onboardings[id];
      if row.status.Completed? then (t, Success(None))
      else if !row.status.InProgress? then (t, Failure(NotInProgress))
      else if OpenTasks(t.tasks, id) > 0 then (t, Failure(TasksOpen(OpenTasks(t.tasks, id))))
      else
        (t.(onboardings := t.onboardings[id := row.(status := Completed, completedAt := Some(now))],
            outbox := t.outbox + [OnboardingCompleted(eventId, id, company.value, row.employeeId)]),
         Success(Some(eventId)))
  }

  function Confirm(t: Tables, id: Id, company: Option<Id>, force: bool, today: NaiveDate, now: int, eventId: Id)
    : (Tables, Result<Option<Id>, OnboardingError>)
  {
    if company.None? then (t, Failure(NoCompanyScope))
    else if id !in t.onboardings then (t, Failure(NotFound))
    else
      var row := t.onboardings[id];
      if row.confirmedAt.Some? then (t, Success(None))
      else if !row.status.Completed? then (t, Failure(NotCompleted))
      else if row.probationEnd.None? then (t, Failure(ProbationNotPlanned))
      else if !force && Before(today, row.probationEnd.value) then (t, Failure(ProbationNotEnded))
      else
        (t.(onboardings := t.onboardings[id := row.(confirmedAt := Some(now))],
            outbox := t.outbox + [ProbationConfirmed(eventId, id, company.value, row.employeeId, today)]),
         Success(Some(eventId)))
  }

  // ---- The checklist matches the template -------------------------------------

  /** The steps that stamp out this very task. */
  function StepsFor(steps: seq<TemplateTask>, template: Id, onboarding: Id, start: NaiveDate, task: Task): set<int> {
    set j | 0 <= j < |steps| && IsStep(steps[j], template) && TaskOf(steps[j], onboarding, start) == task
  }

  /** The checklist holds each task as often as the template has live steps for it: no step is lost,
      none is stamped twice, and nothing else is added. */
  lemma {:induction false} ChecklistMatchesTemplate(
      steps: seq<TemplateTask>, template: Id, onboarding: Id, start: NaiveDate, task: Task)
    ensures multiset(Stamp(steps, template, onboarding, start))[task]
         == |StepsFor(steps, template, onboarding, start, task)|
  {
    hide TaskOf, DayNumber;
    if steps != [] {
      var n := |steps| - 1;
      ChecklistMatchesTemplate(steps[..n], template, onboarding, start, task);
      var earlier := StepsFor(steps[..n], template, onboarding, start, task);
      var all := StepsFor(steps, template, onboarding, start, task);
      if IsStep(steps[n], template) && TaskOf(steps[n], onboarding, start) == task {
        assert all == earlier + {n};
      } else {
        assert all == earlier;
      }
    }
  }

  lemma {:induction false} OpenTasksCounts(tasks: seq<Task>, onboarding: Id)
    ensures OpenTasks(tasks, onboarding) == 0 <==> forall k :: 0 <= k < |tasks| ==> !IsOpen(tasks[k], onboarding)
  {
    if tasks != [] {
      OpenTasksCounts(tasks[..|tasks| - 1], onboarding);
    }
  }

  /** Every live task of the onboarding is done or skipped. */
  ghost predicate NothingOpen(tasks: seq<Task>, onboarding: Id) {
    forall k :: 0 <= k < |tasks| && tasks[k].onboardingId == onboarding && !tasks[k].deleted ==>
      tasks[k].status == Done || tasks[k].status == Skipped
  }

  /** A fresh completion is granted exactly when a company is bound, the onboarding is in progress and
      every live task of it is done or skipped. */
  lemma CompletesIff(t: Tables, id: Id, company: Option<Id>, now: int, eventId: Id)
    ensures Complete(t, id, company, now, eventId).1 == Success(Some(eventId)) <==>
            && company.Some? && id in t.onboardings && t.onboardings[id].status.InProgress?
            && NothingOpen(t.tasks, id)
  {
    OpenTasksCounts(t.tasks, id);
    assert NothingOpen(t.tasks, id) <==> forall k :: 0 <= k < |t.tasks| ==> !IsOpen(t.tasks[k], id);
  }

  /** A journey opened from a template with no live steps, or from none, can be completed at once;
      one with a live step cannot until a task changes. */
  lemma FreshJourneyCompletesIff(
      t: Tables, templates: seq<Template>, steps: seq<TemplateTask>, id: Id, n: NewOnboarding, company: Id, now: int,
          eventId: Id)
    requires id !in t.onboardings && forall k :: 0 <= k < |t.tasks| ==> t.tasks[k].onboardingId != id
    ensures var t' := Create(t, templates, steps, id, n).0;
            var template := t'.onboardings[id].templateId;
            Complete(t', id, Some(company), now, eventId).1 == Success(Some(eventId)) <==>
            template.None? || forall j :: 0 <= j < |steps| ==> steps[j].templateId != template.value || steps[j].deleted
  {
    hide DayNumber, OpenTasks;
    var t' := Create(t, templates, steps, id, n).0;
    var template := t'.onboardings[id].templateId;
    CompletesIff(t', id, Some(company), now, eventId);
    if template.Some? {
      var stamped := Stamp(steps, template.value, id, n.startDate);
      StampedTasksAreOpen(steps, template.value, id, n.startDate);
      assert t'.tasks == t.tasks + stamped;
      if stamped != [] {
        assert IsOpen(t'.tasks[|t.tasks|], id);
      }
    }
  }

  lemma {:induction false} StampedTasksAreOpen(steps: seq<TemplateTask>, template: Id, onboarding: Id, start: NaiveDate)
    ensures forall k :: 0 <= k < |Stamp(steps, template, onboarding, start)| ==>
              IsOpen(Stamp(steps, template, onboarding, start)[k], onboarding)
    ensures Stamp(steps, template, onboarding, start) == [] <==>
            forall j :: 0 <= j < |steps| ==> !IsStep(steps[j], template)
  {
    hide DayNumber;
    if steps != [] {
      StampedTasksAreOpen(steps[..|steps| - 1], template, onboarding, start);
    }
  }
}
