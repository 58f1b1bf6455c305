/** The exit of an employee: the offboarding, its clearance, the settlement row, the outbox and
    the general ledger, one database transaction at a time. */
module Exit {
  import opened Calendar
  import Contracts
  import opened Inputs
  import opened Pesangon
  import opened Settlement
  import opened Wrappers

  // ---- Rows --------------------------------------------------------------

  datatype OffboardingStatus = Initiated | InProgress | Cleared | Closed

  datatype Offboarding = Offboarding(
    employeeId: Id, reason: OffboardingReason, noticeDate: NaiveDate, lastWorkingDay: NaiveDate,
    status: OffboardingStatus, finalSettlementId: Option<Id>)

  datatype ClearanceStatus = ItemPending | ItemBlocked | ItemCleared

  datatype ClearanceItem = ClearanceItem(offboardingId: Id, status: ClearanceStatus, deleted: bool)

  datatype SettlementStatus = Draft | Confirmed | Paid | Disputed

  datatype SettlementRow = SettlementRow(
    employeeId: Id, offboardingId: Id, audit: Breakdown,
    basePay: real, unusedLeavePayout: Option<real>, pesangonAmount: Option<real>,
    taxDeduction: Option<real>, netPayable: real,
    status: SettlementStatus, accountingPostId: Option<Id>, journalId: Option<Id>)

  /** An `offboarding.closed` event as staged in the outbox. */
  datatype ClosedEvent = ClosedEvent(eventId: Id, offboardingId: Id, employeeId: Id, breakdown: Breakdown)

  datatype Tables = Tables(
    offboardings: map<Id, Offboarding>, clearance: seq<ClearanceItem>,
    settlements: map<Id, SettlementRow>, outbox: seq<ClosedEvent>)

  datatype ExitError =
    | NotFound | NotInProgress | ClearanceOpen | NotCleared | NeedsContract | CannotCompute(error: ComputeError)
    | AlreadyDrafted(winner: Id) | NotDraft | TaxRequiresAccount | NothingToPost | Unbalanced
    | GlRejected | Interrupted | DuplicateId

  // ---- Offboarding verbs -------------------------------------------------

  /** An end-of-contract exit needs a fixed term of the employee behind it. */
  function CreateOffboarding(
      t: Tables, id: Id, employee: Id, reason: OffboardingReason, notice: NaiveDate, last: NaiveDate,
      contracts: seq<Contracts.Contract>)
    : (Tables, Result<Id, ExitError>)
  {
    if reason.EndOfContract? && !Contracts.HasFixedTerm(contracts, employee) then (t, Failure(NeedsContract))
    else if id in t.offboardings then (t, Failure(DuplicateId))
    else
      (t.(offboardings := t.offboardings[id := Offboarding(employee, reason, notice, last, InProgress, None)]),
       Success(id))
  }

  predicate IsOpen(item: ClearanceItem, offboarding: Id) {
    item.offboardingId == offboarding && item.status in {ItemPending, ItemBlocked} && !item.deleted
  }

  function OpenItems(items: seq<ClearanceItem>, offboarding: Id): nat {
    if items == [] then 0
    else OpenItems(items[..|items| - 1], offboarding) + (if IsOpen(items[|items| - 1], offboarding) then 1 else 0)
  }

  function WithStatus(t: Tables, id: Id, status: OffboardingStatus): Tables
    requires id in t.offboardings
  {
    t.(offboardings := t.offboardings[id := t.offboardings[id].(status := status)])
  }

  /** True on a fresh clear, false when already cleared or closed. */
  function Clear(t: Tables, id: Id): (Tables, Result<bool, ExitError>) {
    if id !in t.offboardings then (t, Failure(NotFound))
    else
      match t.offboardings[id].status
      case Cleared => (t, Success(false))
      case Closed => (t, Success(false))
      case Initiated => (t, Failure(NotInProgress))
      case InProgress =>
        if OpenItems(t.clearance, id) > 0 then (t, Failure(ClearanceOpen))
        else (WithStatus(t, id, Cleared), Success(true))
  }

  /** The settlement is computed before anything is written; the flip and the event are one
      transaction. None when already closed. */
  function Close(t: Tables, src: Sources, parse: string -> Option<real>, id: Id, eventId: Id)
    : (Tables, Result<Option<Id>, ExitError>)
  {
    if id !in t.offboardings then (t, Failure(NotFound))
    else
      var o := t.offboardings[id];
      if o.status.Closed? then (t, Success(None))
      else if !o.status.Cleared? then (t, Failure(NotCleared))
      else
        match ComputeForOffboarding(src, parse, o.employeeId, o.reason, o.lastWorkingDay)
        case Failure(e) => (t, Failure(CannotCompute(e)))
        case Success(b) =>
          (WithStatus(t, id, Closed).(outbox := t.outbox + [ClosedEvent(eventId, id, o.employeeId, b)]),
           Success(Some(eventId)))
  }

  // ---- Drafting the settlement -------------------------------------------

  /** What a draft call holds between its reads and its insert. */
  datatype PendingDraft = PendingDraft(offboardingId: Id, employeeId: Id, breakdown: Breakdown)

  function DraftRead(t: Tables, src: Sources, parse: string -> Option<real>, offboardingId: Id)
    : Result<PendingDraft, ExitError>
  {
    if offboardingId !in t.offboardings then Failure(NotFound)
    else
      var o := t.offboardings[offboardingId];
      match ComputeForOffboarding(src, parse, o.employeeId, o.reason, o.lastWorkingDay)
      case Failure(e) => Failure(CannotCompute(e))
      case Success(b) => Success(PendingDraft(offboardingId, o.employeeId, b))
  }

  function RowOf(d: PendingDraft): SettlementRow {
    SettlementRow(d.employeeId, d.offboardingId, d.breakdown,
      d.breakdown.lastPay.amount, Some(d.breakdown.unusedLeavePayout), Some(d.breakdown.severanceTotal),
      None, d.breakdown.netPayable, Draft, None, None)
  }

  ghost predicate IsSettlementOf(settlements: map<Id, SettlementRow>, id: Id, offboardingId: Id) {
    id in settlements && settlements[id].offboardingId == offboardingId
  }

  /** The live settlement of an offboarding, found by the unique index. */
  function SettlementFor(settlements: map<Id, SettlementRow>, offboardingId: Id): (r: Option<Id>)
    ensures r.Some? ==> IsSettlementOf(settlements, r.value, offboardingId)
    ensures r.None? ==> forall id :: id in settlements ==> settlements[id].offboardingId != offboardingId
  {
    var ids := set id | id in settlements && settlements[id].offboardingId == offboardingId;
    if ids == {} then
      assert forall id :: id in settlements ==> (settlements[id].offboardingId == offboardingId <==> id in ids);
      None
    else Some(Least(ids))
  }

  /** The smallest member: sets have no order of their own. */
  function Least(ids: set<Id>): (m: Id)
    requires ids != {}
    ensures m in ids
    ensures forall x :: x in ids ==> m <= x
  {
    assert exists m :: m in ids && forall x :: x in ids ==> m <= x by {
      var m := LeastExists(ids);
    }
    var m :| m in ids && forall x :: x in ids ==> m <= x;
    m
  }

  lemma {:induction false} LeastExists(ids: set<Id>) returns (m: Id)
    requires ids != {}
    ensures m in ids && forall x :: x in ids ==> m <= x
    decreases |ids|
  {
    m :| m in ids;
    var rest := ids - {m};
    assert ids == rest + {m};
    if rest != {} {
      var least := LeastExists(rest);
      if least < m { m := least; }
    }
  }

  /** Insert unless the offboarding already has a settlement, and let the offboarding name it. */
  function DraftInsert(t: Tables, d: PendingDraft, id: Id): (Tables, Result<Id, ExitError>) {
    var winner := SettlementFor(t.settlements, d.offboardingId);
    if winner.Some? then (t, Failure(AlreadyDrafted(winner.value)))
    else if id in t.settlements then (t, Failure(DuplicateId))
    else if d.offboardingId !in t.offboardings then (t, Failure(NotFound))
    else
      (t.(settlements := t.settlements[id := RowOf(d)],
          offboardings := t.offboardings[d.offboardingId :=
            t.offboardings[d.offboardingId].(finalSettlementId := Some(id))]),
       Success(id))
  }

  // ---- The ledger --------------------------------------------------------

  datatype Accounts = Accounts(severanceExpense: Id, leaveExpense: Id, employeePayable: Id)

  datatype Line = Line(account: Id, debit: real, credit: real, party: Option<Id>)

  /** The idempotency key names the company and the settlement. */
  datatype PostKey = PostKey(company: Id, settlement: Id)

  datatype Envelope = Envelope(key: PostKey, lines: seq<Line>)

  datatype Post = Post(key: PostKey, postId: Id, journalId: Id, lines: seq<Line>)

  datatype Ack = Ack(postId: Id, journalId: Id, duplicate: bool)

  function Debits(lines: seq<Line>): real {
    if lines == [] then 0.0 else lines[0].debit + Debits(lines[1..])
  }

  function Credits(lines: seq<Line>): real {
    if lines == [] then 0.0 else lines[0].credit + Credits(lines[1..])
  }

  predicate Balanced(lines: seq<Line>) {
    Debits(lines) == Credits(lines)
  }

  /** Debit the expense accounts that carry an amount, credit the leaver's payable for the sum;
      only the credit names the party. */
  function EnvelopeLines(severance: real, leave: real, employee: Id, accounts: Accounts): seq<Line> {
    (if severance != 0.0 then [Line(accounts.severanceExpense, severance, 0.0, None)] else [])
    + (if leave != 0.0 then [Line(accounts.leaveExpense, leave, 0.0, None)] else [])
    + [Line(accounts.employeePayable, 0.0, severance + leave, Some(employee))]
  }

  function FindPost(ledger: seq<Post>, key: PostKey): (r: Option<Post>)
    ensures r.Some? ==> r.value in ledger && r.value.key == key
    ensures r.None? ==> forall p :: p in ledger ==> p.key != key
  {
    if ledger == [] then None
    else if ledger[|ledger| - 1].key == key then Some(ledger[|ledger| - 1])
    else FindPost(ledger[..|ledger| - 1], key)
  }

  /** Accounting answers a key it has seen with the post it already holds. */
  function LedgerPost(ledger: seq<Post>, e: Envelope, postId: Id, journalId: Id): (seq<Post>, Ack) {
    match FindPost(ledger, e.key)
    case Some(p) => (ledger, Ack(p.postId, p.journalId, true))
    case None => (ledger + [Post(e.key, postId, journalId, e.lines)], Ack(postId, journalId, false))
  }

  // ---- Confirming and paying ---------------------------------------------

  /** The guards and the envelope of `confirm`, up to the moment it is sent. None when the
      settlement is already confirmed. */
  function PrepareConfirm(t: Tables, id: Id, company: Id, accounts: Accounts): Result<Option<Envelope>, ExitError> {
    if id !in t.settlements then Failure(NotFound)
    else
      var row := t.settlements[id];
      var severance := row.pesangonAmount.GetOr(0.0);
      var leave := row.unusedLeavePayout.GetOr(0.0);
      if row.accountingPostId.Some? then Success(None)
      else if !row.status.Draft? then Failure(NotDraft)
      else if row.taxDeduction.GetOr(0.0) > 0.0 then Failure(TaxRequiresAccount)
      else if severance == 0.0 && leave == 0.0 then Failure(NothingToPost)
      else
        var lines := EnvelopeLines(severance, leave, row.employeeId, accounts);
        if !Balanced(lines) then Failure(Unbalanced)
        else Success(Some(Envelope(PostKey(company, id), lines)))
  }

  function StampConfirmed(t: Tables, id: Id, ack: Ack): Tables
    requires id in t.settlements
  {
    t.(settlements := t.settlements[id :=
      t.settlements[id].(status := Confirmed, accountingPostId := Some(ack.postId), journalId := Some(ack.journalId))])
  }

  function MarkPaid(t: Tables, id: Id): (Tables, Result<bool, ExitError>) {
    if id !in t.settlements then (t, Failure(NotFound))
    else
      match t.settlements[id].status
      case Paid => (t, Success(false))
      case Confirmed => (t.(settlements := t.settlements[id := t.settlements[id].(status := Paid)]), Success(true))
      case _ => (t, Failure(NotDraft))
  }

  // ---- What the envelope says --------------------------------------------

  lemma {:induction false} TotalsAdd(a: seq<Line>, b: seq<Line>)
    ensures Debits(a + b) == Debits(a) + Debits(b)
    ensures Credits(a + b) == Credits(a) + Credits(b)
  {
    if a == [] {
      assert a + b == b;
    } else {
      TotalsAdd(a[1..], b);
      assert (a + b)[1..] == a[1..] + b;
    }
  }

  /** The envelope always balances, the payable credit is the whole of it, and the party rides on
      that credit and nowhere else. */
  lemma EnvelopeBalances(severance: real, leave: real, employee: Id, accounts: Accounts)
    ensures var lines := EnvelopeLines(severance, leave, employee, accounts);
            && Balanced(lines) && Credits(lines) == severance + leave
            && lines[|lines| - 1] == Line(accounts.employeePayable, 0.0, severance + leave, Some(employee))
            && forall i :: 0 <= i < |lines| - 1 ==> lines[i].party == None && lines[i].credit == 0.0
  {
    var s := if severance != 0.0 then [Line(accounts.severanceExpense, severance, 0.0, None)] else [];
    var l := if leave != 0.0 then [Line(accounts.leaveExpense, leave, 0.0, None)] else [];
    var p := [Line(accounts.employeePayable, 0.0, severance + leave, Some(employee))];
    TotalsAdd(s + l, p);
    TotalsAdd(s, l);
    assert p[1..] == [] && (s != [] ==> s[1..] == []) && (l != [] ==> l[1..] == []);
  }

  /** `OpenItems` counts: it is zero exactly when no live item is pending or blocked. */
  lemma {:induction false} OpenItemsCounts(items: seq<ClearanceItem>, offboarding: Id)
    ensures OpenItems(items, offboarding) == 0 <==> forall i :: i in items ==> !IsOpen(i, offboarding)
  {
    if items != [] {
      OpenItemsCounts(items[..|items| - 1], offboarding);
      assert items == items[..|items| - 1] + [items[|items| - 1]];
    }
  }
}
