/** Which contracts a tick reminds of, and when. */
module ReminderOrigins {
  import opened Calendar
  import opened Contracts
  import opened Reminders
  import opened Wrappers

  /** An active fixed term without a mark that ends at most so many days from today, and not before the
      start of the window. */
  predicate WantsReminder(c: Contract, w: Window) {
    && c.status == Active && c.contractType == Pkwt && c.reminderSentAt == None
    && c.endDate.Some? && DayNumber(c.endDate.value) - DayNumber(w.today) <= w.days
    && (w.start.Some? ==> DayNumber(w.start.value) <= DayNumber(c.endDate.value))
  }

  lemma DueWantsReminder(c: Contract, w: Window)
    ensures IsDue(c, w) <==> WantsReminder(c, w)
  {
    hide DayNumber;
    if w.start.Some? && c.endDate.Some? {
      OrderIsDayNumberOrder(w.start.value, c.endDate.value);
      OrderIsDayNumberOrder(c.endDate.value, w.start.value);
    }
  }

  /** The contract has an end, and it is this day number. */
  predicate EndsOn(c: Contract, day: int) {
    c.endDate.Some? && DayNumber(c.endDate.value) == day
  }

  /** What a tick takes and what it does to them: of the contracts nobody holds, those that want a
      reminder, earliest end first, at most a hundred; one left behind ends no earlier than any of the
      hundred taken. Exactly the taken ones are marked. */
  lemma TickReminds(contracts: seq<Contract>, w: Window, locked: set<Id>, batch: seq<Id>, now: int, id: Id)
    requires IsBatch(contracts, w, locked, batch) && id < |contracts|
    ensures |batch| <= 100
    ensures id in batch ==> id !in locked && WantsReminder(contracts[id], w)
    ensures id !in batch && id !in locked && WantsReminder(contracts[id], w) ==>
              && |batch| == 100
              && forall other, day, day' ::
                   other in batch && EndsOn(contracts[other], day) && EndsOn(contracts[id], day') ==> day <= day'
    ensures Stamped(contracts, batch, now)[id] ==
              contracts[id].(reminderSentAt := if id in batch then Some(now) else contracts[id].reminderSentAt)
    ensures forall i, j, day, day' ::
              && 0 <= i < j < |batch| && batch[i] < |contracts| && batch[j] < |contracts|
              && EndsOn(contracts[batch[i]], day) && EndsOn(contracts[batch[j]], day')
              ==> day <= day'
  {
    DueWantsReminder(contracts[id], w);
    hide IsDue, DayNumber, WantsReminder;
    if id !in batch && id !in locked && WantsReminder(contracts[id], w) {
      assert id in DueRows(contracts, w, locked);
    }
  }

  // ---- Every run --------------------------------------------------------------------

  /** Step k took the contract, which wanted a reminder then, for a tick at this instant. */
  ghost predicate TakenAt(contracts: seq<Contract>, events: seq<Event>, id: Id, now: int, k: int) {
    && 0 <= k < |events| && events[k].Begin? && events[k].now == now && id in events[k].batch
    && var s := Run(Initial(contracts), events[..k]);
       id < |s.contracts| && WantsReminder(s.contracts[id], events[k].w)
  }

  ghost predicate WasTaken(contracts: seq<Contract>, events: seq<Event>, id: Id, now: int) {
    exists k :: TakenAt(contracts, events, id, now, k)
  }

  ghost predicate Noticed(contracts: seq<Contract>, events: seq<Event>, id: Id) {
    exists now :: WasTaken(contracts, events, id, now)
  }

  ghost predicate Taken(contracts: seq<Contract>, events: seq<Event>, s: State) {
    && (forall t, id :: t in s.ticks && id in s.ticks[t].batch ==> WasTaken(contracts, events, id, s.ticks[t].now))
    && (forall id :: 0 <= id < |s.contracts| && s.contracts[id].reminderSentAt.Some? ==>
          WasTaken(contracts, events, id, s.contracts[id].reminderSentAt.value))
    && (forall id :: id in s.notices ==> Noticed(contracts, events, id))
  }

  lemma TakenStays(contracts: seq<Contract>, events: seq<Event>, e: Event)
    ensures forall id, now :: WasTaken(contracts, events, id, now) ==> WasTaken(contracts, events + [e], id, now)
  {
    hide WantsReminder, Run;
    forall id, now | WasTaken(contracts, events, id, now) ensures WasTaken(contracts, events + [e], id, now) {
      var k :| TakenAt(contracts, events, id, now, k);
      assert (events + [e])[..k] == events[..k];
      assert TakenAt(contracts, events + [e], id, now, k);
    }
  }

  lemma NoticedStays(contracts: seq<Contract>, events: seq<Event>, e: Event)
    ensures forall id :: Noticed(contracts, events, id) ==> Noticed(contracts, events + [e], id)
  {
    TakenStays(contracts, events, e);
    hide WasTaken;
  }

  lemma BeginTakes(contracts: seq<Contract>, events: seq<Event>, s: State, e: Event, id: Id)
    requires s == Run(Initial(contracts), events) && e.Begin? && Enabled(s, e) && id in e.batch
    ensures WasTaken(contracts, events + [e], id, e.now)
  {
    hide Run, WantsReminder, IsDue, NoRepeats, EndsNoLater;
    var locked :| IsLockedSet(s, locked) && IsBatch(s.contracts, e.w, locked, e.batch);
    assert id in DueRows(s.contracts, e.w, locked);
    DueWantsReminder(s.contracts[id], e.w);
    assert (events + [e])[..|events|] == events;
    assert TakenAt(contracts, events + [e], id, e.now, |events|);
  }

  lemma StepTakes(contracts: seq<Contract>, events: seq<Event>, s: State, e: Event)
    requires s == Run(Initial(contracts), events) && Taken(contracts, events, s)
    ensures Taken(contracts, events + [e], Next(s, e))
  {
    TakenStays(contracts, events, e);
    NoticedStays(contracts, events, e);
    var s' := Next(s, e);
    hide Run, WasTaken, IsBatch, IsLocked;
    if s' != s {
      match e {
        case Begin(t, batch, now, w) =>
          forall id | id in batch ensures WasTaken(contracts, events + [e], id, now) {
            BeginTakes(contracts, events, s, e, id);
          }
        case Send(t) =>
          var id := s.ticks[t].batch[s.ticks[t].sent];
          assert WasTaken(contracts, events, id, s.ticks[t].now);
          assert Noticed(contracts, events, id);
        case _ =>
      }
    }
  }

  lemma {:induction false} TakenInRun(contracts: seq<Contract>, events: seq<Event>)
    requires Unreminded(contracts)
    ensures Taken(contracts, events, Run(Initial(contracts), events))
  {
    hide Next, Taken;
    if events == [] {
      NothingTaken(contracts);
    } else {
      var init, e := events[..|events| - 1], events[|events| - 1];
      assert events == init + [e];
      TakenInRun(contracts, init);
      StepTakes(contracts, init, Run(Initial(contracts), init), e);
    }
  }

  lemma NothingTaken(contracts: seq<Contract>)
    requires Unreminded(contracts)
    ensures Taken(contracts, [], Initial(contracts))
  {
  }

  /** In every run of overlapping ticks a notice goes out only for a contract that a tick took while it
      was an active unmarked fixed term ending within that tick's window, and a mark carries the instant
      of such a tick. */
  lemma RemindersAreWanted(contracts: seq<Contract>, events: seq<Event>, id: Id)
    requires Unreminded(contracts)
    ensures var s := Run(Initial(contracts), events);
            && (id in s.notices ==> Noticed(contracts, events, id))
            && (id < |s.contracts| && s.contracts[id].reminderSentAt.Some? ==>
                  WasTaken(contracts, events, id, s.contracts[id].reminderSentAt.value))
  {
    hide Run, Noticed, WasTaken;
    TakenInRun(contracts, events);
  }
}
