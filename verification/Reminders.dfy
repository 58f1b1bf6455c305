/** The expiry reminder: what one tick takes, and what overlapping ticks that may die do. */
module Reminders {
  import opened Calendar
  import opened Contracts
  import opened Wrappers

  const BATCH_LIMIT := 100

  /** The window a tick looks through: contracts that end within `days` of `today`, and, when a
      start is given, not before the start day. */
  datatype Window = Window(today: NaiveDate, days: int, start: Option<NaiveDate>)

  predicate IsDue(c: Contract, w: Window) {
    && c.status.Active? && c.contractType.Pkwt? && c.endDate.Some?
    && DayNumber(c.endDate.value) <= DayNumber(w.today) + w.days
    && c.reminderSentAt.None?
    && (w.start.None? || AtOrBefore(w.start.value, c.endDate.value))
  }

  /** The due rows no other transaction holds. */
  function DueRows(contracts: seq<Contract>, w: Window, locked: set<Id>): set<Id> {
    set i: Id | 0 <= i < |contracts| && i !in locked && IsDue(contracts[i], w)
  }

  ghost predicate NoRepeats(ids: seq<Id>) {
    forall i, j :: 0 <= i < j < |ids| ==> ids[i] != ids[j]
  }

  /** `a` does not end after `b`. */
  predicate EndsNoLater(contracts: seq<Contract>, a: Id, b: Id) {
    a < |contracts| && b < |contracts| && contracts[a].endDate.Some? && contracts[b].endDate.Some?
    && DayNumber(contracts[a].endDate.value) <= DayNumber(contracts[b].endDate.value)
  }

  /** A batch: due unlocked rows, each once, by end date, as many as there are up to the limit, and
      none left behind that ends earlier than one taken. */
  ghost predicate IsBatch(contracts: seq<Contract>, w: Window, locked: set<Id>, batch: seq<Id>) {
    && NoRepeats(batch)
    && (forall id :: id in batch ==> id in DueRows(contracts, w, locked))
    && (forall i, j :: 0 <= i < j < |batch| ==> EndsNoLater(contracts, batch[i], batch[j]))
    && (forall id, other :: id in batch && other in DueRows(contracts, w, locked) && other !in batch ==>
          EndsNoLater(contracts, id, other))
    && |batch| <= BATCH_LIMIT
    && (|batch| < BATCH_LIMIT ==> forall id :: id in DueRows(contracts, w, locked) ==> id in batch)
  }

  function Stamped(contracts: seq<Contract>, batch: seq<Id>, now: int): seq<Contract> {
    seq(|contracts|, i requires 0 <= i < |contracts| =>
      if i in batch then contracts[i].(reminderSentAt := Some(now)) else contracts[i])
  }

  // ---- Ticks drain the window ----------------------------------------------

  function AsSet(ids: seq<Id>): set<Id> {
    set id | id in ids
  }

  lemma {:induction false} NoRepeatsSize(ids: seq<Id>)
    requires NoRepeats(ids)
    ensures |AsSet(ids)| == |ids|
  {
    if ids != [] {
      var init, last := ids[..|ids| - 1], ids[|ids| - 1];
      NoRepeatsSize(init);
      assert ids == init + [last];
      assert last !in init;
      assert AsSet(ids) == AsSet(init) + {last};
    }
  }

  /** A tick that nothing contends with lowers the number of due rows by a full batch, or to zero. */
  lemma TickShrinksDue(contracts: seq<Contract>, w: Window, batch: seq<Id>, now: int)
    requires IsBatch(contracts, w, {}, batch)
    ensures var left := |DueRows(contracts, w, {})| - BATCH_LIMIT;
            |DueRows(Stamped(contracts, batch, now), w, {})| == if left > 0 then left else 0
  {
    hide EndsNoLater;
    var due := DueRows(contracts, w, {});
    var due' := DueRows(Stamped(contracts, batch, now), w, {});
    NoRepeatsSize(batch);
    assert AsSet(batch) <= due;
    assert due' == due - AsSet(batch);
    assert |due'| == |due| - |batch|;
    if |batch| < BATCH_LIMIT {
      assert due <= AsSet(batch);
      assert due == AsSet(batch);
    }
  }

  /** One tick that nothing contends with. */
  ghost predicate IsTick(before: seq<Contract>, after: seq<Contract>, w: Window) {
    exists batch, now :: IsBatch(before, w, {}, batch) && after == Stamped(before, batch, now)
  }

  /** Tables after successive uncontended ticks at one fixed window. */
  ghost predicate Ticks(tables: seq<seq<Contract>>, w: Window) {
    forall k :: 0 < k < |tables| ==> IsTick(tables[k - 1], tables[k], w)
  }

  /** So ticking at a fixed window reaches a table with nothing due, after one tick for every full
      or partial batch. */
  lemma {:induction false} TicksDrain(tables: seq<seq<Contract>>, w: Window)
    requires |tables| > 0 && Ticks(tables, w)
    ensures var left := |DueRows(tables[0], w, {})| - BATCH_LIMIT * (|tables| - 1);
            |DueRows(tables[|tables| - 1], w, {})| == if left > 0 then left else 0
    decreases |tables|
  {
    hide IsBatch, DueRows, Stamped;
    var n := |tables|;
    if n > 1 {
      TicksDrain(tables[..n - 1], w);
      assert IsTick(tables[n - 2], tables[n - 1], w);
      var batch, now :| IsBatch(tables[n - 2], w, {}, batch) && tables[n - 1] == Stamped(tables[n - 2], batch, now);
      TickShrinksDue(tables[n - 2], w, batch, now);
    }
  }

  // ---- Overlapping ticks that may die ---------------------------------------

  /** A tick in flight: it holds its rows, and has sent notices for the first of them. The stamps
      become visible at the commit; the notices cannot be taken back. */
  datatype Tick = Tick(batch: seq<Id>, sent: nat, now: int)

  datatype State = State(contracts: seq<Contract>, ticks: map<nat, Tick>, notices: seq<Id>, lost: multiset<Id>)

  datatype Event =
    | Begin(t: nat, batch: seq<Id>, now: int, w: Window)
    | Send(t: nat)
    | Commit(t: nat)
    | Abort(t: nat)
    | Others(contracts: seq<Contract>)

  predicate IsLocked(s: State, id: Id) {
    exists t :: t in s.ticks && id in s.ticks[t].batch
  }

  /** What a tick may find held: the rows of the other ticks, and any rows the other verbs hold. */
  ghost predicate IsLockedSet(s: State, locked: set<Id>) {
    forall id :: IsLocked(s, id) ==> id in locked
  }

  /** What the other contract verbs may do meanwhile: append rows and change unlocked ones, but
      never the reminder mark. */
  ghost predicate OtherWrites(s: State, contracts: seq<Contract>) {
    && |s.contracts| <= |contracts|
    && (forall i :: 0 <= i < |s.contracts| ==> contracts[i].reminderSentAt == s.contracts[i].reminderSentAt)
    && (forall i :: 0 <= i < |s.contracts| && IsLocked(s, i) ==> contracts[i] == s.contracts[i])
    && (forall i :: |s.contracts| <= i < |contracts| ==> contracts[i].reminderSentAt.None?)
  }

  /** No row but this one changes, no mark does, and new rows carry none. */
  ghost predicate WritesOnly(before: seq<Contract>, id: Id, after: seq<Contract>) {
    && |before| <= |after|
    && (forall i :: 0 <= i < |before| && i != id ==> after[i] == before[i])
    && (id < |before| ==> after[id].reminderSentAt == before[id].reminderSentAt)
    && (forall i :: |before| <= i < |after| ==> after[i].reminderSentAt.None?)
  }

  lemma WritesOnlyIsOther(s: State, id: Id, contracts: seq<Contract>)
    requires WritesOnly(s.contracts, id, contracts) && !IsLocked(s, id)
    ensures OtherWrites(s, contracts)
  {
  }

  /** Every verb, on a contract no tick holds, is such a write. */
  lemma VerbsAreOtherWrites(
      s: State, rows: Store, n: NewContract, id: Id, outcome: Decision, newEnd: Option<NaiveDate>, today: NaiveDate,
          accepted: bool)
    requires rows.contracts == s.contracts && !IsLocked(s, id)
    ensures OtherWrites(s, Create(rows, n).0.contracts)
    ensures OtherWrites(s, FileDecision(rows, id, outcome, newEnd, today, accepted).0.contracts)
    ensures OtherWrites(s, ApplyDecision(rows, id, outcome, newEnd, today).0.contracts)
    ensures OtherWrites(s, RefuseDecision(rows, id).0.contracts)
  {
    hide OtherWrites, DayNumber, Months.RenewalStart, OwnMonths, Files, HasActive, Before, AtOrBefore;
    WritesOnlyIsOther(s, id, Create(rows, n).0.contracts);
    WritesOnlyIsOther(s, id, FileDecision(rows, id, outcome, newEnd, today, accepted).0.contracts);
    WritesOnlyIsOther(s, id, ApplyDecision(rows, id, outcome, newEnd, today).0.contracts);
    WritesOnlyIsOther(s, id, RefuseDecision(rows, id).0.contracts);
  }

  ghost predicate Enabled(s: State, e: Event) {
    match e
    case Begin(t, batch, now, w) =>
      t !in s.ticks && exists locked :: IsLockedSet(s, locked) && IsBatch(s.contracts, w, locked, batch)
    case Send(t) => t in s.ticks && s.ticks[t].sent < |s.ticks[t].batch|
    case Commit(t) => t in s.ticks && s.ticks[t].sent == |s.ticks[t].batch|
    case Abort(t) => t in s.ticks && s.ticks[t].sent <= |s.ticks[t].batch|
    case Others(contracts) => OtherWrites(s, contracts)
  }

  ghost function Next(s: State, e: Event): State {
    if !Enabled(s, e) then s
    else
      match e
      case Begin(t, batch, now, w) => s.(ticks := s.ticks[t := Tick(batch, 0, now)])
      case Send(t) =>
        var tick := s.ticks[t];
        s.(notices := s.notices + [tick.batch[tick.sent]], ticks := s.ticks[t := tick.(sent := tick.sent + 1)])
      case Commit(t) =>
        s.(contracts := Stamped(s.contracts, s.ticks[t].batch, s.ticks[t].now), ticks := s.ticks - {t})
      case Abort(t) =>
        s.(lost := s.lost + multiset(s.ticks[t].batch[..s.ticks[t].sent]), ticks := s.ticks - {t})
      case Others(contracts) => s.(contracts := contracts)
  }

  ghost function Run(s: State, events: seq<Event>): State {
    if events == [] then s else Next(Run(s, events[..|events| - 1]), events[|events| - 1])
  }

  predicate WasSentBy(s: State, t: nat, id: Id) {
    t in s.ticks && s.ticks[t].sent <= |s.ticks[t].batch| && id in s.ticks[t].batch[..s.ticks[t].sent]
  }

  ghost predicate SentInFlight(s: State, id: Id) {
    exists t :: WasSentBy(s, t, id)
  }

  predicate IsStamped(s: State, id: Id) {
    id < |s.contracts| && s.contracts[id].reminderSentAt.Some?
  }

  /** Rows in flight are unstamped, each held once. */
  ghost predicate TickSound(s: State, t: nat)
    requires t in s.ticks
  {
    && s.ticks[t].sent <= |s.ticks[t].batch| && NoRepeats(s.ticks[t].batch)
    && forall id :: id in s.ticks[t].batch ==> id < |s.contracts| && !IsStamped(s, id)
  }

  ghost predicate TicksSound(s: State) {
    && (forall t :: t in s.ticks ==> TickSound(s, t))
    && (forall t, u, id :: t in s.ticks && u in s.ticks && id in s.ticks[t].batch && id in s.ticks[u].batch ==> t == u)
  }

  /** Every notice is accounted for: the row is stamped, or its tick is still in flight, or its tick
      died. */
  ghost predicate Accounted(s: State, id: Id) {
    multiset(s.notices)[id] == One(IsStamped(s, id)) + One(SentInFlight(s, id)) + s.lost[id]
  }

  ghost predicate Inv(s: State) {
    TicksSound(s) && forall id :: Accounted(s, id)
  }

  // What a change of the ticks does to the notices in flight.

  lemma OtherTicksStay(s: State, s': State, id: Id)
    requires forall u :: WasSentBy(s, u, id) ==> WasSentBy(s', u, id)
    ensures SentInFlight(s, id) ==> SentInFlight(s', id)
  {
  }

  lemma TicksUnchanged(s: State, s': State, id: Id)
    requires s'.ticks == s.ticks
    ensures SentInFlight(s', id) == SentInFlight(s, id)
  {
    OtherTicksStay(s, s', id);
    OtherTicksStay(s', s, id);
  }

  lemma TickBegins(s: State, s': State, t: nat, tick: Tick, id: Id)
    requires t !in s.ticks && s'.ticks == s.ticks[t := tick] && tick.sent == 0
    ensures SentInFlight(s', id) == SentInFlight(s, id)
  {
    OtherTicksStay(s, s', id);
    OtherTicksStay(s', s, id);
  }

  lemma TickSends(s: State, s': State, t: nat, id: Id)
    requires TicksSound(s) && t in s.ticks && s.ticks[t].sent < |s.ticks[t].batch|
    requires s'.ticks == s.ticks[t := s.ticks[t].(sent := s.ticks[t].sent + 1)]
    ensures id == s.ticks[t].batch[s.ticks[t].sent] ==> !SentInFlight(s, id) && SentInFlight(s', id)
    ensures id != s.ticks[t].batch[s.ticks[t].sent] ==> SentInFlight(s', id) == SentInFlight(s, id)
  {
    var tick := s.ticks[t];
    var x := tick.batch[tick.sent];
    assert TickSound(s, t);
    assert tick.batch[..tick.sent + 1] == tick.batch[..tick.sent] + [x];
    if id == x {
      assert x in tick.batch && x !in tick.batch[..tick.sent];
      forall u ensures !WasSentBy(s, u, x) {
        assert u in s.ticks && x in s.ticks[u].batch ==> u == t;
      }
      assert WasSentBy(s', t, x);
    } else {
      OtherTicksStay(s, s', id);
      OtherTicksStay(s', s, id);
    }
  }

  /** Taking a tick out of flight takes exactly its own notices out of flight. */
  lemma TickEnds(s: State, s': State, t: nat, id: Id)
    requires TicksSound(s) && t in s.ticks && s'.ticks == s.ticks - {t}
    requires s.ticks[t].sent <= |s.ticks[t].batch|
    ensures id in s.ticks[t].batch[..s.ticks[t].sent] ==> SentInFlight(s, id) && !SentInFlight(s', id)
    ensures id !in s.ticks[t].batch[..s.ticks[t].sent] ==> SentInFlight(s', id) == SentInFlight(s, id)
  {
    if id in s.ticks[t].batch[..s.ticks[t].sent] {
      assert WasSentBy(s, t, id);
      assert id in s.ticks[t].batch;
      forall u ensures !WasSentBy(s', u, id) {
        assert u in s.ticks && id in s.ticks[u].batch ==> u == t;
      }
    } else {
      OtherTicksStay(s, s', id);
      OtherTicksStay(s', s, id);
    }
  }

  lemma BatchIsDue(contracts: seq<Contract>, w: Window, locked: set<Id>, batch: seq<Id>)
    requires IsBatch(contracts, w, locked, batch)
    ensures NoRepeats(batch)
    ensures forall id :: id in batch ==> id !in locked && id < |contracts| && contracts[id].reminderSentAt.None?
  {
  }

  lemma BeginKeepsInv(s: State, e: Event)
    requires Inv(s) && e.Begin?
    ensures Inv(Next(s, e))
  {
    hide IsBatch, IsDue, SentInFlight, WasSentBy, NoRepeats;
    var s' := Next(s, e);
    if s' != s {
      var locked :| IsLockedSet(s, locked) && IsBatch(s.contracts, e.w, locked, e.batch);
      BatchIsDue(s.contracts, e.w, locked, e.batch);
      forall u, id | u in s.ticks && id in s.ticks[u].batch ensures id !in e.batch {
        assert IsLocked(s, id);
      }
      forall t | t in s'.ticks ensures TickSound(s', t) {
        if t != e.t { assert TickSound(s, t); }
      }
      forall id ensures Accounted(s', id) {
        assert Accounted(s, id);
        TickBegins(s, s', e.t, s'.ticks[e.t], id);
      }
    }
  }

  lemma SendKeepsInv(s: State, e: Event)
    requires Inv(s) && e.Send?
    ensures Inv(Next(s, e))
  {
    hide SentInFlight, WasSentBy, NoRepeats;
    var s' := Next(s, e);
    if s' != s {
      forall t | t in s'.ticks ensures TickSound(s', t) {
        assert TickSound(s, t);
      }
      forall id ensures Accounted(s', id) {
        assert Accounted(s, id);
        TickSends(s, s', e.t, id);
      }
    }
  }

  lemma CommitKeepsTicks(s: State, e: Event)
    requires TicksSound(s) && e.Commit?
    ensures TicksSound(Next(s, e))
  {
  }

  lemma CommitKeepsInv(s: State, e: Event)
    requires Inv(s) && e.Commit?
    ensures Inv(Next(s, e))
  {
    hide SentInFlight, WasSentBy, NoRepeats, TicksSound;
    var s' := Next(s, e);
    CommitKeepsTicks(s, e);
    if s' != s {
      var batch := s.ticks[e.t].batch;
      assert batch[..|batch|] == batch;
      forall id ensures Accounted(s', id) {
        assert Accounted(s, id);
        TickEnds(s, s', e.t, id);
        if id in batch { HeldIsUnstamped(s, e.t, id); }
        assert IsStamped(s', id) == (IsStamped(s, id) || id in batch);
      }
    }
  }

  lemma HeldIsUnstamped(s: State, t: nat, id: Id)
    requires TicksSound(s) && t in s.ticks && id in s.ticks[t].batch
    ensures id < |s.contracts| && !IsStamped(s, id)
  {
  }

  lemma {:induction false} NoRepeatsCounts(ids: seq<Id>, id: Id)
    requires NoRepeats(ids)
    ensures multiset(ids)[id] == One(id in ids)
  {
    if ids != [] {
      var init, last := ids[..|ids| - 1], ids[|ids| - 1];
      NoRepeatsCounts(init, id);
      assert ids == init + [last];
    }
  }

  lemma AbortKeepsInv(s: State, e: Event)
    requires Inv(s) && e.Abort?
    ensures Inv(Next(s, e))
  {
    hide SentInFlight, WasSentBy;
    var s' := Next(s, e);
    if s' != s {
      var sent := s.ticks[e.t].batch[..s.ticks[e.t].sent];
      assert TickSound(s, e.t);
      forall t | t in s'.ticks ensures TickSound(s', t) {
        assert TickSound(s, t);
      }
      forall id ensures Accounted(s', id) {
        assert Accounted(s, id);
        NoRepeatsCounts(sent, id);
        TickEnds(s, s', e.t, id);
      }
    }
  }

  lemma OthersKeepInv(s: State, e: Event)
    requires Inv(s) && e.Others?
    ensures Inv(Next(s, e))
  {
    hide SentInFlight, WasSentBy, NoRepeats, IsLocked;
    var s' := Next(s, e);
    if s' != s {
      forall id: Id ensures IsStamped(s', id) == IsStamped(s, id) {
        if id < |s.contracts| { assert s'.contracts[id].reminderSentAt == s.contracts[id].reminderSentAt; }
      }
      forall t | t in s'.ticks ensures TickSound(s', t) {
        assert TickSound(s, t);
      }
      forall id ensures Accounted(s', id) {
        assert Accounted(s, id);
        TicksUnchanged(s, s', id);
      }
    }
  }

  lemma NextKeepsInv(s: State, e: Event)
    requires Inv(s)
    ensures Inv(Next(s, e))
  {
    hide Inv, Next;
    match e {
      case Begin(_, _, _, _) => BeginKeepsInv(s, e);
      case Send(_) => SendKeepsInv(s, e);
      case Commit(_) => CommitKeepsInv(s, e);
      case Abort(_) => AbortKeepsInv(s, e);
      case Others(_) => OthersKeepInv(s, e);
    }
  }

  lemma {:induction false} RunKeepsInv(s: State, events: seq<Event>)
    requires Inv(s)
    ensures Inv(Run(s, events))
  {
    if events != [] {
      RunKeepsInv(s, events[..|events| - 1]);
      NextKeepsInv(Run(s, events[..|events| - 1]), events[|events| - 1]);
    }
  }

  function Initial(contracts: seq<Contract>): State {
    State(contracts, map[], [], multiset{})
  }

  ghost predicate Unreminded(contracts: seq<Contract>) {
    forall i :: 0 <= i < |contracts| ==> contracts[i].reminderSentAt.None?
  }

  /** In every run of overlapping ticks: two ticks in flight never hold the same contract; and the
      notices sent for a contract are exactly one for its stamp, one for a tick still in flight, and
      one for every tick that sent one and died. */
  lemma NoticesInEveryRun(contracts: seq<Contract>, events: seq<Event>, id: Id)
    requires Unreminded(contracts)
    ensures var s := Run(Initial(contracts), events);
            && (forall t, u :: t in s.ticks && u in s.ticks && t != u ==>
                  AsSet(s.ticks[t].batch) * AsSet(s.ticks[u].batch) == {})
            && multiset(s.notices)[id] == One(IsStamped(s, id)) + One(SentInFlight(s, id)) + s.lost[id]
  {
    hide Run, SentInFlight;
    InitialInv(contracts);
    RunKeepsInv(Initial(contracts), events);
    assert Accounted(Run(Initial(contracts), events), id);
  }

  lemma InitialInv(contracts: seq<Contract>)
    requires Unreminded(contracts)
    ensures Inv(Initial(contracts))
  {
  }

  /** With no tick in flight a contract is notified exactly as often as it is marked if and only if no
      tick that notified it died; and reminded at most once if and only if none did, or one did and
      no tick came back to it. */
  lemma RemindedAtMostOnceIff(contracts: seq<Contract>, events: seq<Event>, id: Id)
    requires Unreminded(contracts)
    requires Run(Initial(contracts), events).ticks == map[]
    ensures var s := Run(Initial(contracts), events);
            var notices := multiset(s.notices)[id];
            && (notices == One(IsStamped(s, id)) <==> s.lost[id] == 0)
            && (notices <= 1 <==> s.lost[id] == 0 || (s.lost[id] == 1 && !IsStamped(s, id)))
  {
    hide Run;
    NoticesInEveryRun(contracts, events, id);
    assert forall t :: !WasSentBy(Run(Initial(contracts), events), t, id);
  }

  /** The mark itself is set once: no step changes it again. */
  lemma StampIsFinal(s: State, e: Event, id: Id)
    requires Inv(s) && IsStamped(s, id)
    ensures id < |Next(s, e).contracts| && Next(s, e).contracts[id].reminderSentAt == s.contracts[id].reminderSentAt
  {
  }

  /** A tick that dies after its first notice sends that notice again: the notices go out before the
      stamps are committed. */
  lemma DeadTickRepeatsItsNotice(s: State, t: nat, batch: seq<Id>, now: int, w: Window)
    requires s.ticks == map[] && batch != [] && IsBatch(s.contracts, w, {}, batch)
    ensures var once := Next(Next(s, Begin(t, batch, now, w)), Send(t));
            var again := Next(Next(Next(once, Abort(t)), Begin(t, batch, now, w)), Send(t));
            multiset(again.notices)[batch[0]] == multiset(s.notices)[batch[0]] + 2
  {
    hide IsBatch;
    assert IsLockedSet(s, {});
    var once := Next(Next(s, Begin(t, batch, now, w)), Send(t));
    assert once.notices == s.notices + [batch[0]];
    var dead := Next(once, Abort(t));
    assert dead.ticks == map[];
    assert IsLockedSet(dead, {});
    assert Next(Next(dead, Begin(t, batch, now, w)), Send(t)).notices == s.notices + [batch[0]] + [batch[0]];
  }
}
