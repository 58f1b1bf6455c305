/** Every interleaving of the exit verbs, the ledger's answers, crashes between the answer and
    the commit, and the consumers of a closed exit. */
module ExitRuns {
  import opened Calendar
  import Contracts
  import opened Exit
  import opened Inputs
  import opened Pesangon
  import opened Settlement
  import Settings
  import StatutoryTables
  import opened Wrappers

  /** A `confirm` call holding the row lock: what it sent, and the answer once it has one. */
  datatype Attempt = Attempt(envelope: Envelope, ack: Option<Ack>)

  datatype State = State(
    tables: Tables, ledger: seq<Post>, sources: Sources,
    drafting: seq<PendingDraft>, confirming: map<Id, Attempt>,
    lostAcks: multiset<Id>)

  datatype Event =
    | DoCreate(
        id: Id, employee: Id, reason: OffboardingReason, notice: NaiveDate, last: NaiveDate,
        contracts: seq<Contracts.Contract>)
    | DoClearance(items: seq<ClearanceItem>)
    | DoClear(id: Id)
    | DoClose(id: Id, eventId: Id)
    | DoDraftRead(offboardingId: Id)
    | DoDraftInsert(n: nat, id: Id)
    | DoDraftAbandon(n: nat)
    | DoBeginConfirm(id: Id, company: Id, accounts: Accounts)
    | DoSinkAccepts(id: Id, postId: Id, journalId: Id)
    | DoSinkRejects(id: Id)
    | DoStamp(id: Id)
    | DoCrash(id: Id)
    | DoMarkPaid(id: Id)
    | DoPayrollRecords(total: Compensation)
    | DoEmploymentStatus(n: nat, active: bool)
    | DoInputsChange(sources: Sources)

  /** One step. A step that is not possible (no such call in flight, the row is locked by a
      confirm in flight) changes nothing. */
  function Next(s: State, e: Event, parse: string -> Option<real>): State {
    match e
    case DoCreate(id, employee, reason, notice, last, contracts) =>
      s.(tables := CreateOffboarding(s.tables, id, employee, reason, notice, last, contracts).0)
    case DoClearance(items) => s.(tables := s.tables.(clearance := items))
    case DoClear(id) => s.(tables := Clear(s.tables, id).0)
    case DoClose(id, eventId) => s.(tables := Close(s.tables, s.sources, parse, id, eventId).0)
    case DoDraftRead(offboardingId) =>
      var d := DraftRead(s.tables, s.sources, parse, offboardingId);
      if d.Success? then s.(drafting := s.drafting + [d.value]) else s
    case DoDraftInsert(n, id) =>
      if n < |s.drafting| then
        s.(tables := DraftInsert(s.tables, s.drafting[n], id).0, drafting := s.drafting[..n] + s.drafting[n + 1..])
      else s
    case DoDraftAbandon(n) =>
      if n < |s.drafting| then s.(drafting := s.drafting[..n] + s.drafting[n + 1..]) else s
    case DoBeginConfirm(id, company, accounts) =>
      if id in s.confirming then s
      else
        var p := PrepareConfirm(s.tables, id, company, accounts);
        if p.Success? && p.value.Some? then s.(confirming := s.confirming[id := Attempt(p.value.value, None)]) else s
    case DoSinkAccepts(id, postId, journalId) =>
      if id in s.confirming && s.confirming[id].ack.None? then
        var (ledger, ack) := LedgerPost(s.ledger, s.confirming[id].envelope, postId, journalId);
        s.(ledger := ledger, confirming := s.confirming[id := s.confirming[id].(ack := Some(ack))])
      else s
    case DoSinkRejects(id) =>
      if id in s.confirming && s.confirming[id].ack.None? then s.(confirming := s.confirming - {id}) else s
    case DoStamp(id) =>
      if id in s.confirming && s.confirming[id].ack.Some? && id in s.tables.settlements then
        s.(tables := StampConfirmed(s.tables, id, s.confirming[id].ack.value), confirming := s.confirming - {id})
      else s
    case DoCrash(id) =>
      if id in s.confirming then
        s.(confirming := s.confirming - {id},
           lostAcks := if s.confirming[id].ack.Some? then s.lostAcks + multiset{id} else s.lostAcks)
      else s
    case DoMarkPaid(id) => if id in s.confirming then s else s.(tables := MarkPaid(s.tables, id).0)
    case DoPayrollRecords(total) =>
      if total.changeType.OffboardingTotal?
      then s.(sources := s.sources.(compensation := s.sources.compensation + [total]))
      else s
    case DoEmploymentStatus(n, active) =>
      if n < |s.sources.employments| then
        var employments := s.sources.employments;
        s.(sources := s.sources.(employments := employments[n := employments[n].(active := active)]))
      else s
    case DoInputsChange(sources) => s.(sources := sources)
  }

  function Run(s: State, events: seq<Event>, parse: string -> Option<real>): State {
    if events == [] then s else Next(Run(s, events[..|events| - 1], parse), events[|events| - 1], parse)
  }

  function Initial(sources: Sources): State {
    State(Tables(map[], [], map[], []), [], sources, [], map[], multiset{})
  }

  // ---- Exactly-once close -------------------------------------------------

  function EventsFor(outbox: seq<ClosedEvent>, offboarding: Id): nat {
    if outbox == [] then 0
    else EventsFor(outbox[..|outbox| - 1],
        offboarding) + (if outbox[|outbox| - 1].offboardingId == offboarding then 1 else 0)
  }

  lemma EventsForAppend(outbox: seq<ClosedEvent>, e: ClosedEvent, offboarding: Id)
    ensures EventsFor(outbox + [e], offboarding)
         == EventsFor(outbox, offboarding) + (if e.offboardingId == offboarding then 1 else 0)
  {
  }

  ghost predicate IsClosed(t: Tables, id: Id) {
    id in t.offboardings && t.offboardings[id].status.Closed?
  }

  /** Closed means one event, and anything else means none. */
  ghost predicate OneEventPerClose(t: Tables) {
    forall id :: EventsFor(t.outbox, id) == if IsClosed(t, id) then 1 else 0
  }

  // ---- One settlement per offboarding -------------------------------------

  /** A settlement and its offboarding name each other. */
  ghost predicate LinksAgree(t: Tables) {
    && (forall id :: id in t.settlements ==>
          var o := t.settlements[id].offboardingId;
          && o in t.offboardings
          && t.offboardings[o].finalSettlementId == Some(id)
          && t.offboardings[o].employeeId == t.settlements[id].employeeId)
    && (forall o :: o in t.offboardings && t.offboardings[o].finalSettlementId.Some? ==>
          IsSettlementOf(t.settlements, t.offboardings[o].finalSettlementId.value, o))
  }

  ghost predicate DraftsKnown(t: Tables, drafting: seq<PendingDraft>) {
    forall d :: d in drafting ==>
      && d.offboardingId in t.offboardings
      && t.offboardings[d.offboardingId].employeeId == d.employeeId
      && SoundBreakdown(d.breakdown)
  }

  /** What every computed breakdown satisfies. */
  ghost predicate SoundBreakdown(b: Breakdown) {
    b.netPayable == b.severanceTotal + b.unusedLeavePayout
  }

  // ---- The ledger ---------------------------------------------------------

  /** The row as drafted, whatever its status: no withholding, and the amounts add up. */
  ghost predicate SoundRow(r: SettlementRow) {
    && r.pesangonAmount == Some(r.audit.severanceTotal)
    && r.unusedLeavePayout == Some(r.audit.unusedLeavePayout)
    && r.basePay == r.audit.lastPay.amount
    && r.taxDeduction.None?
    && r.netPayable == r.audit.netPayable == r.pesangonAmount.value + r.unusedLeavePayout.value
    && (r.accountingPostId.Some? <==> r.status in {Confirmed, Paid})
    && !r.status.Disputed?
  }

  predicate Payable(r: SettlementRow) {
    r.pesangonAmount.GetOr(0.0) != 0.0 || r.unusedLeavePayout.GetOr(0.0) != 0.0
  }

  /** Lines that book a settlement row: balanced, and crediting exactly its net payable. */
  ghost predicate Books(lines: seq<Line>, r: SettlementRow) {
    Balanced(lines) && Credits(lines) == r.netPayable && Payable(r)
  }

  ghost predicate Holds(ledger: seq<Post>, key: PostKey, postId: Id, journalId: Id) {
    exists p :: p in ledger && p.key == key && p.postId == postId && p.journalId == journalId
  }

  ghost predicate HoldsPostOf(ledger: seq<Post>, settlement: Id, postId: Id, journal: Option<Id>) {
    exists p :: p in ledger && p.key.settlement == settlement && p.postId == postId && journal == Some(p.journalId)
  }

  ghost predicate KeysDistinct(ledger: seq<Post>) {
    forall i, j :: 0 <= i < j < |ledger| ==> ledger[i].key != ledger[j].key
  }

  ghost predicate LedgerSound(t: Tables, ledger: seq<Post>) {
    && KeysDistinct(ledger)
    && (forall p :: p in ledger ==>
          p.key.settlement in t.settlements && Books(p.lines, t.settlements[p.key.settlement]))
  }

  ghost predicate RowsSound(t: Tables, ledger: seq<Post>) {
    forall id :: id in t.settlements ==>
      && SoundRow(t.settlements[id])
      && (t.settlements[id].accountingPostId.Some? ==>
            HoldsPostOf(ledger, id, t.settlements[id].accountingPostId.value, t.settlements[id].journalId))
  }

  ghost predicate AttemptsSound(t: Tables, ledger: seq<Post>, confirming: map<Id, Attempt>) {
    forall id :: id in confirming ==>
      var a := confirming[id];
      && id in t.settlements && t.settlements[id].status.Draft?
      && a.envelope.key.settlement == id
      && Books(a.envelope.lines, t.settlements[id])
      && (a.ack.Some? ==> Holds(ledger, a.envelope.key, a.ack.value.postId, a.ack.value.journalId))
  }

  function PostsOf(ledger: seq<Post>, settlement: Id): nat {
    if ledger == [] then 0
    else PostsOf(ledger[..|ledger| - 1],
        settlement) + (if ledger[|ledger| - 1].key.settlement == settlement then 1 else 0)
  }

  /** Acknowledgements of a settlement that reached a stamp or may still reach one. */
  ghost function KeptAcks(s: State, id: Id): nat {
    if id in s.tables.settlements && s.tables.settlements[id].accountingPostId.Some? then 1
    else if id in s.confirming && s.confirming[id].ack.Some? then 1
    else 0
  }

  /** No more posts than acknowledgements, kept or lost in a crash. */
  ghost predicate PostsAccounted(s: State) {
    forall id :: PostsOf(s.ledger, id) <= s.lostAcks[id] + KeptAcks(s, id)
  }

  ghost predicate ExitsInv(s: State) {
    OneEventPerClose(s.tables) && LinksAgree(s.tables) && DraftsKnown(s.tables, s.drafting)
  }

  ghost predicate LedgerInv(s: State) {
    && LedgerSound(s.tables, s.ledger)
    && RowsSound(s.tables, s.ledger)
    && AttemptsSound(s.tables, s.ledger, s.confirming)
    && PostsAccounted(s)
  }

  ghost predicate Inv(s: State) {
    ExitsInv(s) && LedgerInv(s)
  }

  // ---- Preservation -------------------------------------------------------

  lemma InitialInv(sources: Sources)
    ensures Inv(Initial(sources))
  {
  }

  lemma ComputedIsSound(
      src: Sources, parse: string -> Option<real>, employee: Id, reason: OffboardingReason, last: NaiveDate)
    ensures var r := ComputeForOffboarding(src, parse, employee, reason, last);
            r.Success? ==> SoundBreakdown(r.value)
  {
    var r := ComputeForOffboarding(src, parse, employee, reason, last);
    if r.Success? {
      var settings := Settings.AllApplied(DEFAULT_SETTINGS, src.settings, parse).value;
      var leave := UnusedLeaveDays(src.balances, employee, settings.leaveTypeCodes, last);
      var params := StatutoryTables.SeveranceParamsAsOf(src.statutory, SEVERANCE_COUNTRY, last).value;
      NetPayableIsTheSumOfItems(
        SettlementInputs(reason, JoinDate(src.employments, employee).value, last,
                         CurrentSalary(src.compensation, employee).value.newAmount.GetOr(0.0), leave),
        params, settings);
    }
  }

  /** The ledger's half looks at no table but the settlements. */
  lemma SameSettlementsKeepLedger(s: State, s': State)
    requires LedgerInv(s) && s'.tables.settlements == s.tables.settlements
    requires s'.ledger == s.ledger && s'.confirming == s.confirming && s'.lostAcks == s.lostAcks
    ensures LedgerInv(s')
  {
  }

  lemma CreateKeepsInv(s: State, e: Event, parse: string -> Option<real>)
    requires Inv(s) && e.DoCreate?
    ensures Inv(Next(s, e, parse))
  {
    hide LedgerInv, SoundBreakdown, EventsFor;
    SameSettlementsKeepLedger(s, Next(s, e, parse));
  }

  lemma ClearKeepsInv(s: State, e: Event, parse: string -> Option<real>)
    requires Inv(s) && (e.DoClear? || e.DoClearance?)
    ensures Inv(Next(s, e, parse))
  {
    hide LedgerInv, SoundBreakdown, EventsFor, OpenItems;
    SameSettlementsKeepLedger(s, Next(s, e, parse));
  }

  lemma CloseKeepsInv(s: State, e: Event, parse: string -> Option<real>)
    requires Inv(s) && e.DoClose?
    ensures Inv(Next(s, e, parse))
  {
    hide LedgerInv, SoundBreakdown, EventsFor, ComputeForOffboarding;
    var t := Next(s, e, parse).tables;
    SameSettlementsKeepLedger(s, Next(s, e, parse));
    if t != s.tables {
      forall id ensures EventsFor(t.outbox, id) == if IsClosed(t, id) then 1 else 0 {
        EventsForAppend(s.tables.outbox, t.outbox[|s.tables.outbox|], id);
      }
    }
  }

  lemma DraftReadKeepsInv(s: State, e: Event, parse: string -> Option<real>)
    requires Inv(s) && (e.DoDraftRead? || e.DoDraftAbandon?)
    ensures Inv(Next(s, e, parse))
  {
    hide LedgerInv, OneEventPerClose, LinksAgree, SoundBreakdown, ComputeForOffboarding;
    SameSettlementsKeepLedger(s, Next(s, e, parse));
    if e.DoDraftRead? && e.offboardingId in s.tables.offboardings {
      var o := s.tables.offboardings[e.offboardingId];
      ComputedIsSound(s.sources, parse, o.employeeId, o.reason, o.lastWorkingDay);
    }
  }

  lemma DraftInsertKeepsInv(s: State, e: Event, parse: string -> Option<real>)
    requires Inv(s) && e.DoDraftInsert?
    ensures Inv(Next(s, e, parse))
  {
    hide LedgerInv, OneEventPerClose, LinksAgree, SoundBreakdown, DraftInsert;
    var s' := Next(s, e, parse);
    if e.n < |s.drafting| {
      var d := s.drafting[e.n];
      assert d in s.drafting;
      InsertedLinksAgree(s.tables, d, e.id);
      InsertedEvents(s.tables, d, e.id);
      InsertedExitsStay(s.tables, d, e.id);
      InsertedLedger(s, s', d, e.id);
    }
  }

  lemma InsertedExitsStay(t: Tables, d: PendingDraft, id: Id)
    ensures forall o :: o in t.offboardings ==>
              && o in DraftInsert(t, d, id).0.offboardings
              && DraftInsert(t, d, id).0.offboardings[o].employeeId == t.offboardings[o].employeeId
  {
  }

  /** A fresh draft is booked nowhere and acknowledged nowhere. */
  lemma InsertedLedger(s: State, s': State, d: PendingDraft, id: Id)
    requires LedgerInv(s) && SoundBreakdown(d.breakdown)
    requires s'.tables == DraftInsert(s.tables, d, id).0
    requires s'.ledger == s.ledger && s'.confirming == s.confirming && s'.lostAcks == s.lostAcks
    ensures LedgerInv(s')
  {
    hide Books, Holds, HoldsPostOf, PostsOf, KeysDistinct;
    var settlements := s.tables.settlements;
    assert forall x :: x in settlements ==> x in s'.tables.settlements && s'.tables.settlements[x] == settlements[x];
    assert SoundRow(RowOf(d));
    assert LedgerSound(s'.tables, s'.ledger);
    assert RowsSound(s'.tables, s'.ledger);
    forall x ensures PostsOf(s'.ledger, x) <= s'.lostAcks[x] + KeptAcks(s', x) {
      assert KeptAcks(s', x) >= KeptAcks(s, x);
    }
  }

  lemma InsertedLinksAgree(t: Tables, d: PendingDraft, id: Id)
    requires LinksAgree(t)
    requires d.offboardingId in t.offboardings && t.offboardings[d.offboardingId].employeeId == d.employeeId
    ensures LinksAgree(DraftInsert(t, d, id).0)
  {
  }

  lemma InsertedEvents(t: Tables, d: PendingDraft, id: Id)
    requires OneEventPerClose(t)
    ensures OneEventPerClose(DraftInsert(t, d, id).0)
  {
  }

  lemma PreparedBooks(t: Tables, id: Id, company: Id, accounts: Accounts)
    requires var p := PrepareConfirm(t, id, company, accounts); p.Success? && p.value.Some?
    requires SoundRow(t.settlements[id])
    ensures var e := PrepareConfirm(t, id, company, accounts).value.value;
            && t.settlements[id].status.Draft? && t.settlements[id].accountingPostId.None?
            && e.key == PostKey(company, id) && Books(e.lines, t.settlements[id])
  {
    hide EnvelopeLines, Credits, Debits;
    var r := t.settlements[id];
    EnvelopeBalances(r.pesangonAmount.GetOr(0.0), r.unusedLeavePayout.GetOr(0.0), r.employeeId, accounts);
  }

  lemma AttemptBegins(s: State, s': State, id: Id, e: Envelope)
    requires LedgerInv(s) && id !in s.confirming && s' == s.(confirming := s.confirming[id := Attempt(e, None)])
    requires id in s.tables.settlements && s.tables.settlements[id].status.Draft?
    requires e.key.settlement == id && Books(e.lines, s.tables.settlements[id])
    ensures LedgerInv(s')
  {
    hide Books, SoundRow, Holds, HoldsPostOf, PostsOf, LedgerSound, RowsSound;
    forall x ensures PostsOf(s'.ledger, x) <= s'.lostAcks[x] + KeptAcks(s', x) {
      assert KeptAcks(s', x) == KeptAcks(s, x);
    }
  }

  lemma BeginKeepsInv(s: State, e: Event, parse: string -> Option<real>)
    requires Inv(s) && e.DoBeginConfirm?
    ensures Inv(Next(s, e, parse))
  {
    hide SoundRow, ExitsInv, LedgerInv, Books, PrepareConfirm;
    var s' := Next(s, e, parse);
    SameTablesKeepExits(s, s');
    if s' != s {
      PrepareNeedsRow(s, e.id, e.company, e.accounts);
      PreparedBooks(s.tables, e.id, e.company, e.accounts);
      AttemptBegins(s, s', e.id, s'.confirming[e.id].envelope);
    }
  }

  lemma PrepareNeedsRow(s: State, id: Id, company: Id, accounts: Accounts)
    requires LedgerInv(s) && PrepareConfirm(s.tables, id, company, accounts).Success?
    ensures id in s.tables.settlements && SoundRow(s.tables.settlements[id])
  {
  }

  lemma SameTablesKeepExits(s: State, s': State)
    requires ExitsInv(s) && s'.tables == s.tables && s'.drafting == s.drafting
    ensures ExitsInv(s')
  {
  }

  lemma PostsOfAppend(ledger: seq<Post>, p: Post, id: Id)
    ensures PostsOf(ledger + [p], id) == PostsOf(ledger, id) + (if p.key.settlement == id then 1 else 0)
  {
  }

  /** The ledger's answer adds at most one post, keeps every other, and holds what it acknowledges. */
  lemma LedgerAnswers(ledger: seq<Post>, e: Envelope, postId: Id, journalId: Id)
    ensures var (ledger', ack) := LedgerPost(ledger, e, postId, journalId);
            && Holds(ledger', e.key, ack.postId, ack.journalId)
            && (KeysDistinct(ledger) ==> KeysDistinct(ledger'))
            && (forall p :: p in ledger ==> p in ledger')
            && (forall p :: p in ledger' ==> p in ledger || p == Post(e.key, postId, journalId, e.lines))
            && (forall id :: PostsOf(ledger', id) <= PostsOf(ledger, id) + (if id == e.key.settlement then 1 else 0))
            && (forall id :: PostsOf(ledger', id) >= PostsOf(ledger, id))
  {
  }

  lemma AcceptKeepsInv(s: State, e: Event, parse: string -> Option<real>)
    requires Inv(s) && e.DoSinkAccepts?
    ensures Inv(Next(s, e, parse))
  {
    hide Books, LedgerPost, LedgerInv, ExitsInv, SoundRow;
    var s' := Next(s, e, parse);
    SameTablesKeepExits(s, s');
    if s' != s {
      AttemptAccepted(s, s', e.id, e.postId, e.journalId);
    }
  }

  lemma AttemptAccepted(s: State, s': State, id: Id, postId: Id, journalId: Id)
    requires LedgerInv(s) && id in s.confirming && s.confirming[id].ack.None?
    requires var (ledger, ack) := LedgerPost(s.ledger, s.confirming[id].envelope, postId, journalId);
             s' == s.(ledger := ledger, confirming := s.confirming[id := s.confirming[id].(ack := Some(ack))])
    ensures LedgerInv(s')
  {
    hide Books, PostsOf, LedgerPost, KeysDistinct, SoundRow, Holds, HoldsPostOf;
    var attempt := s.confirming[id];
    LedgerAnswers(s.ledger, attempt.envelope, postId, journalId);
    assert LedgerSound(s'.tables, s'.ledger);
    MorePostsHeld(s.ledger, s'.ledger);
    DraftIsUnstamped(s, id);
    forall x ensures PostsOf(s'.ledger, x) <= s'.lostAcks[x] + KeptAcks(s', x) {
      assert KeptAcks(s', x) == if x == id then 1 else KeptAcks(s, x);
      assert KeptAcks(s, id) == 0;
    }
  }

  lemma MorePostsHeld(ledger: seq<Post>, ledger': seq<Post>)
    requires forall p :: p in ledger ==> p in ledger'
    ensures forall key, post, journal :: Holds(ledger, key, post, journal) ==> Holds(ledger', key, post, journal)
    ensures forall settlement, post, journal ::
              HoldsPostOf(ledger, settlement, post, journal) ==> HoldsPostOf(ledger', settlement, post, journal)
  {
  }

  lemma DraftIsUnstamped(s: State, id: Id)
    requires LedgerInv(s) && id in s.confirming
    ensures id in s.tables.settlements && s.tables.settlements[id].accountingPostId.None?
  {
  }

  lemma EndKeepsInv(s: State, e: Event, parse: string -> Option<real>)
    requires Inv(s) && (e.DoSinkRejects? || e.DoCrash?)
    ensures Inv(Next(s, e, parse))
  {
    hide Books, SoundRow, Holds, HoldsPostOf, PostsOf, ExitsInv, LedgerSound, RowsSound;
    SameTablesKeepExits(s, Next(s, e, parse));
  }

  /** A row that changes status only, with its post ids, keeps its links and what books it. */
  ghost predicate SameAmounts(r: SettlementRow, r': SettlementRow) {
    r' == r.(status := r'.status, accountingPostId := r'.accountingPostId, journalId := r'.journalId)
  }

  lemma StatusChangeKeepsLinks(t: Tables, t': Tables, id: Id)
    requires id in t.settlements && id in t'.settlements && SameAmounts(t.settlements[id], t'.settlements[id])
    requires t' == t.(settlements := t.settlements[id := t'.settlements[id]])
    ensures LinksAgree(t) ==> LinksAgree(t')
    ensures OneEventPerClose(t) ==> OneEventPerClose(t')
    ensures forall drafting :: DraftsKnown(t, drafting) ==> DraftsKnown(t', drafting)
  {
  }

  lemma StatusChangeKeepsLedger(t: Tables, t': Tables, id: Id, ledger: seq<Post>)
    requires id in t.settlements && id in t'.settlements && SameAmounts(t.settlements[id], t'.settlements[id])
    requires t' == t.(settlements := t.settlements[id := t'.settlements[id]])
    requires LedgerSound(t, ledger)
    ensures LedgerSound(t', ledger)
  {
  }

  lemma StampKeepsInv(s: State, e: Event, parse: string -> Option<real>)
    requires Inv(s) && e.DoStamp?
    ensures Inv(Next(s, e, parse))
  {
    hide LinksAgree, OneEventPerClose, DraftsKnown, LedgerInv;
    var s' := Next(s, e, parse);
    if s' != s {
      StatusChangeKeepsLinks(s.tables, s'.tables, e.id);
      AttemptStamped(s, s', e.id);
    }
  }

  lemma AttemptStamped(s: State, s': State, id: Id)
    requires LedgerInv(s) && id in s.confirming && s.confirming[id].ack.Some? && id in s.tables.settlements
    requires s' == s.(tables := StampConfirmed(s.tables, id, s.confirming[id].ack.value),
                      confirming := s.confirming - {id})
    ensures LedgerInv(s')
  {
    hide PostsOf, LedgerSound, Books, Holds, HoldsPostOf;
    StatusChangeKeepsLedger(s.tables, s'.tables, id, s.ledger);
    var a := s.confirming[id];
    HeldBySettlement(s.ledger, a.envelope.key, a.ack.value.postId, a.ack.value.journalId);
    BooksStay(s.tables, s'.tables, id);
    forall x ensures PostsOf(s'.ledger, x) <= s'.lostAcks[x] + KeptAcks(s', x) {
      assert KeptAcks(s', x) == KeptAcks(s, x);
    }
  }

  lemma HeldBySettlement(ledger: seq<Post>, key: PostKey, post: Id, journal: Id)
    requires Holds(ledger, key, post, journal)
    ensures HoldsPostOf(ledger, key.settlement, post, Some(journal))
  {
  }

  lemma BooksStay(t: Tables, t': Tables, id: Id)
    requires id in t.settlements && id in t'.settlements && SameAmounts(t.settlements[id], t'.settlements[id])
    requires t' == t.(settlements := t.settlements[id := t'.settlements[id]])
    ensures forall x, lines :: x in t.settlements && Books(lines, t.settlements[x]) ==> Books(lines, t'.settlements[x])
  {
  }

  lemma PaidKeepsInv(s: State, e: Event, parse: string -> Option<real>)
    requires Inv(s) && e.DoMarkPaid?
    ensures Inv(Next(s, e, parse))
  {
    hide LinksAgree, OneEventPerClose, DraftsKnown, LedgerInv;
    var s' := Next(s, e, parse);
    if s' != s {
      StatusChangeKeepsLinks(s.tables, s'.tables, e.id);
      RowPaid(s, s', e.id);
    }
  }

  lemma RowPaid(s: State, s': State, id: Id)
    requires LedgerInv(s) && id !in s.confirming
    requires id in s.tables.settlements && s.tables.settlements[id].status.Confirmed?
    requires s' == s.(tables := MarkPaid(s.tables, id).0)
    ensures LedgerInv(s')
  {
    hide PostsOf, LedgerSound, Books, Holds, HoldsPostOf;
    StatusChangeKeepsLedger(s.tables, s'.tables, id, s.ledger);
    BooksStay(s.tables, s'.tables, id);
    forall x ensures PostsOf(s'.ledger, x) <= s'.lostAcks[x] + KeptAcks(s', x) {
      assert KeptAcks(s', x) == KeptAcks(s, x);
    }
  }

  lemma NextKeepsInv(s: State, e: Event, parse: string -> Option<real>)
    requires Inv(s)
    ensures Inv(Next(s, e, parse))
  {
    hide Inv;
    match e {
      case DoCreate(_, _, _, _, _, _) => CreateKeepsInv(s, e, parse);
      case DoClearance(_) => ClearKeepsInv(s, e, parse);
      case DoClear(_) => ClearKeepsInv(s, e, parse);
      case DoClose(_, _) => CloseKeepsInv(s, e, parse);
      case DoDraftRead(_) => DraftReadKeepsInv(s, e, parse);
      case DoDraftInsert(_, _) => DraftInsertKeepsInv(s, e, parse);
      case DoDraftAbandon(_) => DraftReadKeepsInv(s, e, parse);
      case DoBeginConfirm(_, _, _) => BeginKeepsInv(s, e, parse);
      case DoSinkAccepts(_, _, _) => AcceptKeepsInv(s, e, parse);
      case DoSinkRejects(_) => EndKeepsInv(s, e, parse);
      case DoStamp(_) => StampKeepsInv(s, e, parse);
      case DoCrash(_) => EndKeepsInv(s, e, parse);
      case DoMarkPaid(_) => PaidKeepsInv(s, e, parse);
      case DoPayrollRecords(_) => SourcesKeepInv(s, Next(s, e, parse));
      case DoEmploymentStatus(_, _) => SourcesKeepInv(s, Next(s, e, parse));
      case DoInputsChange(_) => SourcesKeepInv(s, Next(s, e, parse));
    }
  }

  lemma SourcesKeepInv(s: State, s': State)
    requires Inv(s) && s' == s.(sources := s'.sources)
    ensures Inv(s')
  {
  }

  lemma {:induction false} RunKeepsInv(s: State, events: seq<Event>, parse: string -> Option<real>)
    requires Inv(s)
    ensures Inv(Run(s, events, parse))
  {
    if events != [] {
      RunKeepsInv(s, events[..|events| - 1], parse);
      NextKeepsInv(Run(s, events[..|events| - 1], parse), events[|events| - 1], parse);
    }
  }

  // ---- What every run keeps -----------------------------------------------

  lemma ReachableInv(sources: Sources, events: seq<Event>, parse: string -> Option<real>)
    ensures Inv(Run(Initial(sources), events, parse))
  {
    InitialInv(sources);
    RunKeepsInv(Initial(sources), events, parse);
  }

  /** In every run an offboarding is closed exactly when one `offboarding.closed` event exists for
      it; otherwise none does. */
  lemma ClosedMeansOneEvent(sources: Sources, events: seq<Event>, parse: string -> Option<real>, id: Id)
    ensures var t := Run(Initial(sources), events, parse).tables;
            && (IsClosed(t, id) <==> EventsFor(t.outbox, id) == 1)
            && (!IsClosed(t, id) <==> EventsFor(t.outbox, id) == 0)
  {
    ReachableInv(sources, events, parse);
  }

  /** In every run, racing drafts included, a settlement belongs to an offboarding exactly when the
      offboarding names it: there is at most one, and the name is right. */
  lemma OneSettlementPerOffboarding(
      sources: Sources, events: seq<Event>, parse: string -> Option<real>, o: Id, a: Id, b: Id)
    ensures var t := Run(Initial(sources), events, parse).tables;
            && (IsSettlementOf(t.settlements, a, o) <==>
                  o in t.offboardings && t.offboardings[o].finalSettlementId == Some(a))
            && (IsSettlementOf(t.settlements, a, o) && IsSettlementOf(t.settlements, b, o) ==> a == b)
  {
    ReachableInv(sources, events, parse);
  }

  /** In every run, whatever the sink answers and wherever a call dies: a settlement carries a post
      id exactly when it is confirmed or paid, and then accounting holds a post of it under that id and
      that journal; every post belongs to a settlement, balances, and credits exactly that settlement's
      net payable; and no idempotency key is posted twice. */
  lemma LedgerAgreesWithSettlements(sources: Sources, events: seq<Event>, parse: string -> Option<real>)
    ensures var s := Run(Initial(sources), events, parse);
            && (forall id :: id in s.tables.settlements ==>
                  var r := s.tables.settlements[id];
                  && (r.accountingPostId.Some? <==> r.status in {Confirmed, Paid})
                  && (r.accountingPostId.Some? ==> HoldsPostOf(s.ledger, id, r.accountingPostId.value, r.journalId)))
            && (forall p :: p in s.ledger ==>
                  && p.key.settlement in s.tables.settlements
                  && Debits(p.lines) == Credits(p.lines) == s.tables.settlements[p.key.settlement].netPayable)
            && KeysDistinct(s.ledger)
  {
    hide Debits, Credits, HoldsPostOf;
    ReachableInv(sources, events, parse);
  }

  lemma {:induction false} PostOfIsCounted(ledger: seq<Post>, id: Id)
    ensures PostsOf(ledger, id) > 0 <==> exists p :: p in ledger && p.key.settlement == id
  {
    if ledger != [] {
      PostOfIsCounted(ledger[..|ledger| - 1], id);
      assert ledger == ledger[..|ledger| - 1] + [ledger[|ledger| - 1]];
    }
  }

  /** A settlement with nothing to pay never reaches the ledger and never leaves draft. */
  lemma NothingToPayNeverPosts(sources: Sources, events: seq<Event>, parse: string -> Option<real>, id: Id)
    requires id in Run(Initial(sources), events, parse).tables.settlements
    requires !Payable(Run(Initial(sources), events, parse).tables.settlements[id])
    ensures var s := Run(Initial(sources), events, parse);
            s.tables.settlements[id].status.Draft? && PostsOf(s.ledger, id) == 0
  {
    hide Debits, Credits, PostsOf;
    ReachableInv(sources, events, parse);
    PostOfIsCounted(Run(Initial(sources), events, parse).ledger, id);
  }

  /** No settlement is booked more often than once plus the number of its acknowledgements lost in
      a crash: without such a crash it is booked at most once. */
  lemma PostsBoundedByLostAcks(sources: Sources, events: seq<Event>, parse: string -> Option<real>, id: Id)
    ensures var s := Run(Initial(sources), events, parse);
            PostsOf(s.ledger, id) <= s.lostAcks[id] + 1
  {
    hide PostsOf;
    ReachableInv(sources, events, parse);
  }
}
