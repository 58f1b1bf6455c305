/** What a journey's checklist is stamped from, and what its handoffs came from. */
module OnboardingOrigins {
  import opened Calendar
  import opened OnboardingRuns
  import opened Onboardings
  import opened Wrappers

  // ---- The checklist ---------------------------------------------------------------

  function NameOf(c: TaskCategory): string {
    match c
    case Document => "document"
    case Equipment => "equipment"
    case AccountAccess => "account_access"
    case PolicyAck => "policy_ack"
    case Induction => "induction"
  }

  /** A category is the one of that name; text that names none leaves the task without. */
  ghost predicate IsCategoryOf(name: Option<string>, category: Option<TaskCategory>) {
    match category
    case Some(c) => name == Some(NameOf(c))
    case None => forall c :: name != Some(NameOf(c))
  }

  /** The task is the step's: its title, its category, due so many days after the start, and waiting. */
  ghost predicate IsStamped(task: Task, step: TemplateTask, onboarding: Id, start: NaiveDate) {
    && task.onboardingId == onboarding && task.title == step.title && IsCategoryOf(step.category, task.category)
    && task.dueDay - DayNumber(start) == step.dueDayOffset
    && task.status == Pending && !task.deleted
  }

  lemma TaskIsStamped(step: TemplateTask, onboarding: Id, start: NaiveDate)
    ensures IsStamped(TaskOf(step, onboarding, start), step, onboarding, start)
  {
    hide DayNumber;
  }

  /** The live steps of the template, by position and in order, each with its task. */
  ghost predicate IsChecklist(
      tasks: seq<Task>, at: seq<nat>, steps: seq<TemplateTask>, template: Id, onboarding: Id, start: NaiveDate)
  {
    && |at| == |tasks|
    && (forall i, j :: 0 <= i < j < |at| ==> at[i] < at[j])
    && (forall j: nat :: j < |steps| && steps[j].templateId == template && !steps[j].deleted ==> j in at)
    && (forall k :: 0 <= k < |at| ==>
          && at[k] < |steps| && steps[at[k]].templateId == template && !steps[at[k]].deleted
          && IsStamped(tasks[k], steps[at[k]], onboarding, start))
  }

  /** The checklist is the live steps of the template, in order, each stamped once. */
  lemma {:induction false} ChecklistIsTheSteps(
      steps: seq<TemplateTask>, template: Id, onboarding: Id, start: NaiveDate)
    returns (at: seq<nat>)
    ensures IsChecklist(Stamp(steps, template, onboarding, start), at, steps, template, onboarding, start)
  {
    hide IsStamped, TaskOf;
    if steps == [] {
      at := [];
    } else {
      var n := |steps| - 1;
      at := ChecklistIsTheSteps(steps[..n], template, onboarding, start);
      TaskIsStamped(steps[n], onboarding, start);
      if steps[n].templateId == template && !steps[n].deleted {
        var before := at;
        at := at + [n];
        forall j: nat | j < |steps| && steps[j].templateId == template && !steps[j].deleted ensures j in at {
          if j < n { assert steps[..n][j] == steps[j] && j in before; }
        }
      } else {
        forall j: nat | j < |steps| && steps[j].templateId == template && !steps[j].deleted ensures j in at {
          assert j < n && steps[..n][j] == steps[j];
        }
      }
    }
  }

  /** The template followed: the one named, or else one that is the default, active and not deleted, and
      none only when no such template exists. */
  ghost predicate IsTemplateFor(named: Option<Id>, templates: seq<Template>, template: Option<Id>) {
    if named != None then template == named
    else
      match template
      case Some(id) => exists t :: t in templates && t.id == id && t.isDefault && t.isActive && !t.deleted
      case None => forall t :: t in templates ==> !t.isDefault || !t.isActive || t.deleted
  }

  lemma {:induction false} DefaultIsUsable(templates: seq<Template>)
    ensures IsTemplateFor(None, templates, DefaultTemplate(templates))
  {
    if templates != [] {
      assert templates == [templates[0]] + templates[1..];
      DefaultIsUsable(templates[1..]);
    }
  }

  /** The journey is for the employee, start and probation asked for, by the template that applies. */
  ghost predicate IsAsAsked(row: Onboarding, templates: seq<Template>, n: NewOnboarding) {
    && row.employeeId == n.employeeId && row.startDate == n.startDate && row.probationEnd == n.probationEnd
    && IsTemplateFor(n.templateId, templates, row.templateId)
  }

  /** A create stores the journey asked for, in progress and unconfirmed, with the checklist of its
      template and every other task as it was. */
  lemma JourneyIsAsAsked(t: Tables, templates: seq<Template>, steps: seq<TemplateTask>, id: Id, n: NewOnboarding)
    returns (at: seq<nat>)
    requires id !in t.onboardings
    ensures var (t', r) := Create(t, templates, steps, id, n);
            && r == Success(id) && id in t'.onboardings
            && var row := t'.onboardings[id];
               && IsAsAsked(row, templates, n)
               && row.status == InProgress && row.completedAt == None && row.confirmedAt == None
               && t' == Tables(t.onboardings[id := row], t'.tasks, t.outbox)
               && t.tasks <= t'.tasks
               && (row.templateId == None ==> t'.tasks == t.tasks)
               && (row.templateId != None ==>
                     IsChecklist(t'.tasks[|t.tasks|..], at, steps, row.templateId.value, id, n.startDate))
  {
    DefaultIsUsable(templates);
    hide DefaultTemplate, DayNumber, IsStamped;
    at := [];
    var template := Create(t, templates, steps, id, n).0.onboardings[id].templateId;
    if template.Some? {
      at := ChecklistIsTheSteps(steps, template.value, id, n.startDate);
      assert (t.tasks + Stamp(steps, template.value, id, n.startDate))[|t.tasks|..]
          == Stamp(steps, template.value, id, n.startDate);
    }
  }

  // ---- Complete and confirm ----------------------------------------------------------

  /** A probation is confirmed exactly when a company is bound, the journey is completed and not yet
      confirmed, an end was planned, and that day has come or the call is forced. */
  lemma ConfirmsIff(
      t: Tables, id: Id, company: Option<Id>, force: bool, today: NaiveDate, now: int, eventId: Id)
    ensures var (t', r) := Confirm(t, id, company, force, today, now, eventId);
            && (r == Success(Some(eventId)) <==>
                && company != None && id in t.onboardings
                && t.onboardings[id].confirmedAt == None && t.onboardings[id].status == Completed
                && t.onboardings[id].probationEnd.Some?
                && (force || DayNumber(t.onboardings[id].probationEnd.value) <= DayNumber(today)))
            && (r != Success(Some(eventId)) ==> t' == t)
  {
    hide DayNumber;
    if id in t.onboardings && t.onboardings[id].probationEnd.Some? {
      OrderIsDayNumberOrder(t.onboardings[id].probationEnd.value, today);
      OrderIsDayNumberOrder(today, t.onboardings[id].probationEnd.value);
    }
  }

  // ---- Every run -------------------------------------------------------------------

  ghost predicate WasAsked(events: seq<Event>, id: Id, row: Onboarding) {
    exists e :: e in events && e.DoCreate? && e.id == id && IsAsAsked(row, e.templates, e.n)
  }

  /** Step k completed the journey under the event: in progress until then, nothing of it left open. */
  ghost predicate CompletedAt(events: seq<Event>, x: HandoffEvent, k: int) {
    && 0 <= k < |events| && events[k].DoComplete? && x.OnboardingCompleted?
    && events[k].id == x.onboardingId && events[k].eventId == x.id && events[k].company == Some(x.companyId)
    && var t := Run(EMPTY, events[..k]);
       && x.onboardingId in t.onboardings && t.onboardings[x.onboardingId].status == InProgress
       && t.onboardings[x.onboardingId].employeeId == x.employeeId
       && NothingOpen(t.tasks, x.onboardingId)
  }

  /** Step k confirmed the probation under the event: completed and unconfirmed until then, on the day
      the event carries, and that day is not before the planned end unless the call was forced. */
  ghost predicate ConfirmedAt(events: seq<Event>, x: HandoffEvent, k: int) {
    && 0 <= k < |events| && events[k].DoConfirm? && x.ProbationConfirmed?
    && events[k].id == x.onboardingId && events[k].eventId == x.id && events[k].company == Some(x.companyId)
    && events[k].today == x.confirmedOn
    && var t := Run(EMPTY, events[..k]);
       && x.onboardingId in t.onboardings && t.onboardings[x.onboardingId].status == Completed
       && t.onboardings[x.onboardingId].confirmedAt == None
       && t.onboardings[x.onboardingId].employeeId == x.employeeId
       && t.onboardings[x.onboardingId].probationEnd.Some?
       && (events[k].force
           || DayNumber(t.onboardings[x.onboardingId].probationEnd.value) <= DayNumber(x.confirmedOn))
  }

  ghost predicate WasHandedOff(events: seq<Event>, x: HandoffEvent) {
    exists k :: CompletedAt(events, x, k) || ConfirmedAt(events, x, k)
  }

  ghost predicate Origins(events: seq<Event>, t: Tables) {
    && (forall id :: id in t.onboardings ==> WasAsked(events, id, t.onboardings[id]))
    && (forall x :: x in t.outbox ==> WasHandedOff(events, x))
  }

  lemma AskedStays(events: seq<Event>, e: Event)
    ensures forall id, row, row' :: WasAsked(events, id, row) && SameTerms(row, row') ==>
              WasAsked(events + [e], id, row')
  {
    forall id, row, row' | WasAsked(events, id, row) && SameTerms(row, row') ensures WasAsked(events + [e], id, row') {
      var x :| x in events && x.DoCreate? && x.id == id && IsAsAsked(row, x.templates, x.n);
      assert x in events + [e];
    }
  }

  predicate SameTerms(row: Onboarding, row': Onboarding) {
    row' == row.(status := row'.status, completedAt := row'.completedAt, confirmedAt := row'.confirmedAt)
  }

  lemma HandedOffStays(events: seq<Event>, e: Event)
    ensures forall x :: WasHandedOff(events, x) ==> WasHandedOff(events + [e], x)
  {
    hide DayNumber, NothingOpen, Run;
    forall x | WasHandedOff(events, x) ensures WasHandedOff(events + [e], x) {
      var k :| CompletedAt(events, x, k) || ConfirmedAt(events, x, k);
      assert (events + [e])[..k] == events[..k];
      assert CompletedAt(events + [e], x, k) || ConfirmedAt(events + [e], x, k);
    }
  }

  lemma StepMovesRow(t: Tables, e: Event, id: Id)
    requires id in Next(t, e).onboardings
    ensures var row' := Next(t, e).onboardings[id];
            if id in t.onboardings then SameTerms(t.onboardings[id], row')
            else e.DoCreate? && e.id == id && IsAsAsked(row', e.templates, e.n)
  {
    hide DayNumber, OpenTasks, Before, Stamp;
    if e.DoCreate? && e.id !in t.onboardings {
      var at := JourneyIsAsAsked(t, e.templates, e.steps, e.id, e.n);
    }
  }

  lemma StepHandsOff(events: seq<Event>, t: Tables, e: Event, x: HandoffEvent)
    requires t == Run(EMPTY, events) && x in Next(t, e).outbox && x !in t.outbox
    ensures WasHandedOff(events + [e], x)
  {
    hide DayNumber, OpenTasks, Before, Stamp, NothingOpen, Run;
    var k := |events|;
    assert (events + [e])[..k] == events;
    match e {
      case DoComplete(id, company, now, eventId) =>
        CompletesIff(t, id, company, now, eventId);
        assert CompletedAt(events + [e], x, k);
      case DoConfirm(id, company, force, today, now, eventId) =>
        ConfirmsIff(t, id, company, force, today, now, eventId);
        assert ConfirmedAt(events + [e], x, k);
      case _ =>
    }
  }

  lemma {:induction false} OriginsInRun(events: seq<Event>)
    ensures Origins(events, Run(EMPTY, events))
  {
    hide Next, WasHandedOff, SameTerms, IsAsAsked;
    if events != [] {
      var init, e := events[..|events| - 1], events[|events| - 1];
      assert events == init + [e];
      assert e in events;
      OriginsInRun(init);
      AskedStays(init, e);
      HandedOffStays(init, e);
      var t := Run(EMPTY, init);
      var t' := Next(t, e);
      forall id | id in t'.onboardings ensures WasAsked(events, id, t'.onboardings[id]) {
        StepMovesRow(t, e, id);
      }
      forall x | x in t'.outbox ensures WasHandedOff(events, x) {
        if x !in t.outbox { StepHandsOff(init, t, e, x); }
      }
    }
  }

  /** In every run every journey is as its create asked, by the template that applied then. */
  lemma JourneysAreAsAskedFor(events: seq<Event>, id: Id)
    requires id in Run(EMPTY, events).onboardings
    ensures WasAsked(events, id, Run(EMPTY, events).onboardings[id])
  {
    hide Run, WasAsked, WasHandedOff;
    OriginsInRun(events);
  }

  /** And every handoff was staged by its own call, with that call's company, day and id and the
      journey's employee: a completion at a step that left no task open, a confirmation at a step that
      found the journey completed and its probation over, or was forced. */
  lemma HandoffsAreEarned(events: seq<Event>, x: HandoffEvent)
    requires x in Run(EMPTY, events).outbox
    ensures WasHandedOff(events, x)
  {
    hide Run, WasAsked, WasHandedOff;
    OriginsInRun(events);
  }
}
