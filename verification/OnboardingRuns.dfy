/** Runs of the onboarding verbs, with the tasks and templates free to change between them. */
module OnboardingRuns {
  import opened Calendar
  import opened Onboardings
  import opened Wrappers

  datatype Event =
    | DoCreate(templates: seq<Template>, steps: seq<TemplateTask>, id: Id, n: NewOnboarding)
    | DoTasks(tasks: seq<Task>)
    | DoComplete(id: Id, company: Option<Id>, now: int, eventId: Id)
    | DoConfirm(id: Id, company: Option<Id>, force: bool, today: NaiveDate, now: int, eventId: Id)

  function Next(t: Tables, e: Event): Tables {
    match e
    case DoCreate(templates, steps, id, n) => Create(t, templates, steps, id, n).0
    case DoTasks(tasks) => t.(tasks := tasks)
    case DoComplete(id, company, now, eventId) => Complete(t, id, company, now, eventId).0
    case DoConfirm(id, company, force, today, now, eventId) => Confirm(t, id, company, force, today, now, eventId).0
  }

  function Run(t: Tables, events: seq<Event>): Tables {
    if events == [] then t else Next(Run(t, events[..|events| - 1]), events[|events| - 1])
  }

  const EMPTY: Tables := Tables(map[], [], [])

  function Completions(outbox: seq<HandoffEvent>, id: Id): nat {
    if outbox == [] then 0
    else
      var last := outbox[|outbox| - 1];
      Completions(outbox[..|outbox| - 1], id) + One(last.OnboardingCompleted? && last.onboardingId == id)
  }

  function Confirmations(outbox: seq<HandoffEvent>, id: Id): nat {
    if outbox == [] then 0
    else
      var last := outbox[|outbox| - 1];
      Confirmations(outbox[..|outbox| - 1], id) + One(last.ProbationConfirmed? && last.onboardingId == id)
  }

  lemma CountsAppend(outbox: seq<HandoffEvent>, e: HandoffEvent, id: Id)
    ensures Completions(outbox + [e], id)
         == Completions(outbox, id) + One(e.OnboardingCompleted? && e.onboardingId == id)
    ensures Confirmations(outbox + [e], id)
         == Confirmations(outbox, id) + One(e.ProbationConfirmed? && e.onboardingId == id)
  {
  }

  predicate IsCompleted(t: Tables, id: Id) {
    id in t.onboardings && t.onboardings[id].status.Completed?
  }

  predicate IsConfirmed(t: Tables, id: Id) {
    id in t.onboardings && t.onboardings[id].confirmedAt.Some?
  }

  ghost predicate CountsSound(t: Tables) {
    forall id :: && Completions(t.outbox, id) == One(IsCompleted(t, id))
                 && Confirmations(t.outbox, id) == One(IsConfirmed(t, id))
  }

  ghost predicate RowsSound(t: Tables) {
    forall id :: id in t.onboardings ==>
      && t.onboardings[id].status in {InProgress, Completed}
      && (t.onboardings[id].status.Completed? <==> t.onboardings[id].completedAt.Some?)
      && (t.onboardings[id].confirmedAt.Some? ==>
            t.onboardings[id].status.Completed? && t.onboardings[id].probationEnd.Some?)
  }

  ghost predicate CompletedBefore(outbox: seq<HandoffEvent>, j: int, id: Id) {
    exists i :: 0 <= i < j && i < |outbox| && outbox[i].OnboardingCompleted? && outbox[i].onboardingId == id
  }

  ghost predicate OrderSound(t: Tables) {
    && (forall j :: 0 <= j < |t.outbox| && t.outbox[j].ProbationConfirmed? ==>
          CompletedBefore(t.outbox, j, t.outbox[j].onboardingId))
    && (forall id :: IsCompleted(t, id) ==> CompletedBefore(t.outbox, |t.outbox|, id))
  }

  ghost predicate Inv(t: Tables) {
    CountsSound(t) && RowsSound(t) && OrderSound(t)
  }

  /** Staging an event for one onboarding moves no other counter, and keeps what came before. */
  lemma StagingKeepsOrder(outbox: seq<HandoffEvent>, e: HandoffEvent, j: int, id: Id)
    requires CompletedBefore(outbox, j, id)
    ensures CompletedBefore(outbox + [e], j, id)
  {
    var i :| 0 <= i < j && i < |outbox| && outbox[i].OnboardingCompleted? && outbox[i].onboardingId == id;
    assert (outbox + [e])[i] == outbox[i];
  }

  lemma QuietStepsKeepInv(t: Tables, e: Event)
    requires Inv(t) && (e.DoCreate? || e.DoTasks?)
    ensures Inv(Next(t, e))
  {
  }

  lemma StagingKeepsInv(t: Tables, e: Event)
    requires Inv(t) && (e.DoComplete? || e.DoConfirm?)
    ensures Inv(Next(t, e))
  {
    hide Completions, Confirmations, CompletedBefore, OpenTasks, Before;
    var t' := Next(t, e);
    if t' != t {
      var x := t'.outbox[|t.outbox|];
      assert t'.outbox == t.outbox + [x];
      forall id ensures && Completions(t'.outbox, id) == One(IsCompleted(t', id))
                        && Confirmations(t'.outbox, id) == One(IsConfirmed(t', id)) {
        CountsAppend(t.outbox, x, id);
      }
      forall id | IsCompleted(t', id) ensures CompletedBefore(t'.outbox, |t'.outbox|, id) {
        if IsCompleted(t, id) {
          LaterIsStillBefore(t.outbox, x, id);
        } else {
          JustCompleted(t.outbox, x);
        }
      }
      forall j | 0 <= j < |t'.outbox| && t'.outbox[j].ProbationConfirmed?
        ensures CompletedBefore(t'.outbox, j, t'.outbox[j].onboardingId)
      {
        StagingKeepsOrder(t.outbox, x, j, t'.outbox[j].onboardingId);
      }
    }
  }

  lemma LaterIsStillBefore(outbox: seq<HandoffEvent>, e: HandoffEvent, id: Id)
    requires CompletedBefore(outbox, |outbox|, id)
    ensures CompletedBefore(outbox + [e], |outbox| + 1, id)
  {
    var i :| 0 <= i < |outbox| && outbox[i].OnboardingCompleted? && outbox[i].onboardingId == id;
    assert (outbox + [e])[i] == outbox[i];
  }

  lemma JustCompleted(outbox: seq<HandoffEvent>, e: HandoffEvent)
    requires e.OnboardingCompleted?
    ensures CompletedBefore(outbox + [e], |outbox| + 1, e.onboardingId)
  {
    assert (outbox + [e])[|outbox|] == e;
  }

  lemma {:induction false} RunKeepsInv(t: Tables, events: seq<Event>)
    requires Inv(t)
    ensures Inv(Run(t, events))
  {
    hide Inv, Next;
    if events != [] {
      var before, e := Run(t, events[..|events| - 1]), events[|events| - 1];
      RunKeepsInv(t, events[..|events| - 1]);
      if e.DoCreate? || e.DoTasks? { QuietStepsKeepInv(before, e); } else { StagingKeepsInv(before, e); }
    }
  }

  /** In every run an onboarding is completed exactly when one completion event names it, and its
      probation confirmed exactly when one confirmation event does; a confirmation always comes
      after the completion. */
  lemma HandoffsExactlyOnce(events: seq<Event>, id: Id)
    ensures var t := Run(EMPTY, events);
            && Completions(t.outbox, id) == One(IsCompleted(t, id))
            && Confirmations(t.outbox, id) == One(IsConfirmed(t, id))
            && (IsConfirmed(t, id) ==> IsCompleted(t, id))
            && forall j :: 0 <= j < |t.outbox| && t.outbox[j].ProbationConfirmed? && t.outbox[j].onboardingId == id ==>
                 CompletedBefore(t.outbox, j, id)
  {
    RunKeepsInv(EMPTY, events);
    hide Run;
  }

  // ---- The probation date -----------------------------------------------------

  predicate NeverForced(events: seq<Event>) {
    forall e :: e in events && e.DoConfirm? ==> !e.force
  }

  ghost predicate DatesSound(t: Tables) {
    forall x :: x in t.outbox && x.ProbationConfirmed? ==>
      && x.onboardingId in t.onboardings
      && t.onboardings[x.onboardingId].probationEnd.Some?
      && !Before(x.confirmedOn, t.onboardings[x.onboardingId].probationEnd.value)
  }

  lemma NextKeepsDates(t: Tables, e: Event)
    requires DatesSound(t) && (e.DoConfirm? ==> !e.force)
    ensures DatesSound(Next(t, e))
  {
  }

  /** As long as nobody forces one, no probation is confirmed before its planned end. */
  lemma {:induction false} UnforcedConfirmationsWaitForTheDate(events: seq<Event>)
    requires NeverForced(events)
    ensures DatesSound(Run(EMPTY, events))
  {
    hide DatesSound, Next;
    if events != [] {
      assert NeverForced(events[..|events| - 1]);
      UnforcedConfirmationsWaitForTheDate(events[..|events| - 1]);
      assert events[|events| - 1] in events;
      NextKeepsDates(Run(EMPTY, events[..|events| - 1]), events[|events| - 1]);
    } else {
      NothingStaged();
    }
  }

  lemma NothingStaged()
    ensures DatesSound(EMPTY)
  {
  }
}
