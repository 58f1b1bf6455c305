/** The exit write services over a shared database: each verb is one transaction that updates
    rows in place, and each is held to the transition it is specified by. */
module ExitService {
  import opened Assembly
  import opened Calendar
  import Contracts
  import opened Exit
  import opened ExitEnvelopes
  import opened ExitOrigins
  import opened ExitRuns
  import opened Inputs
  import opened Pesangon
  import opened Wrappers

  /** The lifecycle tables of an exit. */
  class Database {
    var offboardings: map<Id, Offboarding>
    var clearance: seq<ClearanceItem>
    var settlements: map<Id, SettlementRow>
    var outbox: seq<ClosedEvent>

    function Rows(): Tables
      reads this
    {
      Tables(offboardings, clearance, settlements, outbox)
    }

    constructor ()
      ensures Rows() == Tables(map[], [], map[], [])
    {
      offboardings := map[];
      clearance := [];
      settlements := map[];
      outbox := [];
    }
  }

  /** What accounting answers: it books the envelope under new ids, or rejects it. */
  datatype Verdict = Accepts(postId: Id, journalId: Id) | Rejects

  /** Accounting's side of the posting port, deduplicating on the idempotency key. */
  class GlSink {
    var posts: seq<Post>

    constructor ()
      ensures posts == []
    {
      posts := [];
    }

    method Post(e: Envelope, verdict: Verdict) returns (r: Option<Ack>)
      modifies this
      ensures verdict.Rejects? ==> r == None && posts == old(posts)
      ensures verdict.Accepts? ==>
                var (ledger, ack) := LedgerPost(old(posts), e, verdict.postId, verdict.journalId);
                posts == ledger && r == Some(ack)
    {
      if verdict.Rejects? { return None; }
      var held := FindPost(posts, e.key);
      if held.Some? {
        return Some(Ack(held.value.postId, held.value.journalId, true));
      }
      posts := posts + [Exit.Post(e.key, verdict.postId, verdict.journalId, e.lines)];
      return Some(Ack(verdict.postId, verdict.journalId, false));
    }
  }

  class OffboardingWriteService {
    const db: Database

    constructor (db: Database)
      ensures this.db == db
    {
      this.db := db;
    }

    /** `contracts` is the contract table as this transaction reads it. */
    method Create(
        id: Id, employee: Id, reason: OffboardingReason, notice: NaiveDate, last: NaiveDate,
        contracts: seq<Contracts.Contract>)
      returns (r: Result<Id, ExitError>)
      modifies db
      ensures (db.Rows(), r) == CreateOffboarding(old(db.Rows()), id, employee, reason, notice, last, contracts)
    {
      if reason.EndOfContract? && !Contracts.HasFixedTerm(contracts, employee) { return Failure(NeedsContract); }
      if id in db.offboardings { return Failure(DuplicateId); }
      db.offboardings := db.offboardings[id := Offboarding(employee, reason, notice, last, InProgress, None)];
      return Success(id);
    }

    /** A fresh clear happens only when no live item of the offboarding is pending or blocked. */
    method Clear(id: Id) returns (r: Result<bool, ExitError>)
      modifies db
      ensures (db.Rows(), r) == Exit.Clear(old(db.Rows()), id)
      ensures r == Success(true) ==> forall i :: i in db.clearance ==> !IsOpen(i, id)
    {
      if id !in db.offboardings { return Failure(NotFound); }
      var o := db.offboardings[id];
      if o.status == Cleared || o.status == Closed { return Success(false); }
      if o.status != InProgress { return Failure(NotInProgress); }
      OpenItemsCounts(db.clearance, id);
      if OpenItems(db.clearance, id) > 0 { return Failure(ClearanceOpen); }
      db.offboardings := db.offboardings[id := o.(status := Cleared)];
      return Success(true);
    }

    /** The settlement is computed first; the flip and the staged event are committed together. */
    method Close(
        src: Sources, parse: string -> Option<real>, id: Id, eventId: Id)
      returns (r: Result<Option<Id>, ExitError>)
      modifies db
      ensures (db.Rows(), r) == Exit.Close(old(db.Rows()), src, parse, id, eventId)
      ensures r == Success(Some(eventId)) ==>
                && id in old(db.offboardings) && |db.outbox| == |old(db.outbox)| + 1
                && var o, x := old(db.offboardings)[id], db.outbox[|old(db.outbox)|];
                   WasAssembled(src, parse, o.employeeId, o.reason, o.lastWorkingDay, x.breakdown)
    {
      hide WasAssembled, ComputeForOffboarding;
      if id !in db.offboardings { return Failure(NotFound); }
      var o := db.offboardings[id];
      if o.status == Closed { return Success(None); }
      if o.status != Cleared { return Failure(NotCleared); }
      var computed := ComputeForOffboarding(src, parse, o.employeeId, o.reason, o.lastWorkingDay);
      if computed.Failure? { return Failure(CannotCompute(computed.error)); }
      ComputedWasAssembled(src, parse, o.employeeId, o.reason, o.lastWorkingDay);
      db.offboardings := db.offboardings[id := o.(status := Closed)];
      db.outbox := db.outbox + [ClosedEvent(eventId, id, o.employeeId, computed.value)];
      return Success(Some(eventId));
    }
  }

  class FinalSettlementWriteService {
    const db: Database
    const gl: GlSink

    constructor (db: Database, gl: GlSink)
      ensures this.db == db && this.gl == gl
    {
      this.db := db;
      this.gl := gl;
    }

    method DraftFromOffboarding(src: Sources, parse: string -> Option<real>, offboardingId: Id, id: Id)
      returns (r: Result<Id, ExitError>)
      modifies db
      ensures var read := DraftRead(old(db.Rows()), src, parse, offboardingId);
              && (read.Failure? ==> db.Rows() == old(db.Rows()) && r == Failure(read.error))
              && (read.Success? ==> (db.Rows(), r) == DraftInsert(old(db.Rows()), read.value, id))
      ensures r.Success? ==>
                && offboardingId in old(db.offboardings) && id in db.settlements
                && var o := old(db.offboardings)[offboardingId];
                   WasAssembled(src, parse, o.employeeId, o.reason, o.lastWorkingDay, db.settlements[id].audit)
    {
      hide WasAssembled, ComputeForOffboarding;
      if offboardingId !in db.offboardings { return Failure(NotFound); }
      var o := db.offboardings[offboardingId];
      var computed := ComputeForOffboarding(src, parse, o.employeeId, o.reason, o.lastWorkingDay);
      if computed.Failure? { return Failure(CannotCompute(computed.error)); }
      ComputedWasAssembled(src, parse, o.employeeId, o.reason, o.lastWorkingDay);
      var winner := SettlementFor(db.settlements, offboardingId);
      if winner.Some? { return Failure(AlreadyDrafted(winner.value)); }
      if id in db.settlements { return Failure(DuplicateId); }
      db.settlements := db.settlements[id := RowOf(PendingDraft(offboardingId, o.employeeId, computed.value))];
      db.offboardings := db.offboardings[offboardingId := o.(finalSettlementId := Some(id))];
      return Success(id);
    }

    /** Post first, stamp after the acknowledgement. `dies` is a crash between the two: accounting
        keeps the post and the row stays a draft. */
    method Confirm(id: Id, company: Id, accounts: Accounts, verdict: Verdict, dies: bool)
      returns (r: Result<Option<Ack>, ExitError>)
      modifies db, gl
      ensures var p := PrepareConfirm(old(db.Rows()), id, company, accounts);
              if p.Failure? then r == Failure(p.error) && db.Rows() == old(db.Rows()) && gl.posts == old(gl.posts)
              else if p.value.None? then r == Success(None) && db.Rows() == old(db.Rows()) && gl.posts == old(gl.posts)
              else if verdict.Rejects? then
                r == Failure(GlRejected) && db.Rows() == old(db.Rows()) && gl.posts == old(gl.posts)
              else
                var (ledger, ack) := LedgerPost(old(gl.posts), p.value.value, verdict.postId, verdict.journalId);
                && gl.posts == ledger
                && db.Rows() == (if dies then old(db.Rows()) else StampConfirmed(old(db.Rows()), id, ack))
                && r == (if dies then Failure(Interrupted) else Success(Some(ack)))
      ensures forall p :: p in gl.posts && p !in old(gl.posts) ==>
                && p.key == PostKey(company, id) && id in old(db.settlements)
                && var row := old(db.settlements)[id];
                   Itemises(p.lines, AmountOf(row.pesangonAmount), AmountOf(row.unusedLeavePayout), row.employeeId,
                            accounts)
    {
      hide Itemises, Balanced;
      ConfirmSendsIff(db.Rows(), id, company, accounts);
      if id !in db.settlements { return Failure(NotFound); }
      var row := db.settlements[id];
      if row.accountingPostId.Some? { return Success(None); }
      if row.status != Draft { return Failure(NotDraft); }
      var severance := row.pesangonAmount.GetOr(0.0);
      var leave := row.unusedLeavePayout.GetOr(0.0);
      if row.taxDeduction.GetOr(0.0) > 0.0 { return Failure(TaxRequiresAccount); }
      if severance == 0.0 && leave == 0.0 { return Failure(NothingToPost); }
      var lines: seq<Line> := [];
      if severance != 0.0 { lines := lines + [Line(accounts.severanceExpense, severance, 0.0, None)]; }
      if leave != 0.0 { lines := lines + [Line(accounts.leaveExpense, leave, 0.0, None)]; }
      lines := lines + [Line(accounts.employeePayable, 0.0, severance + leave, Some(row.employeeId))];
      assert lines == EnvelopeLines(severance, leave, row.employeeId, accounts);
      if !Balanced(lines) { return Failure(Unbalanced); }
      var ack := gl.Post(Envelope(PostKey(company, id), lines), verdict);
      if ack.None? { return Failure(GlRejected); }
      if dies { return Failure(Interrupted); }
      db.settlements := db.settlements[id :=
        row.(status := Confirmed, accountingPostId := Some(ack.value.postId), journalId := Some(ack.value.journalId))];
      return Success(Some(ack.value));
    }

    method MarkPaid(id: Id) returns (r: Result<bool, ExitError>)
      modifies db
      ensures (db.Rows(), r) == Exit.MarkPaid(old(db.Rows()), id)
    {
      if id !in db.settlements { return Failure(NotFound); }
      var row := db.settlements[id];
      if row.status == Paid { return Success(false); }
      if row.status != Confirmed { return Failure(NotDraft); }
      db.settlements := db.settlements[id := row.(status := Paid)];
      return Success(true);
    }
  }

  /** A confirm call that runs to its end undisturbed is the run of its three steps: what `Confirm`
      promises of the rows and the ledger is where those steps lead. */
  lemma ConfirmIsItsSteps(
      s: State, id: Id, company: Id, accounts: Accounts, postId: Id, journalId: Id, parse: string -> Option<real>)
    requires id !in s.confirming
    requires var p := PrepareConfirm(s.tables, id, company, accounts); p.Success? && p.value.Some?
    ensures var s' := Next(Next(Next(s, DoBeginConfirm(id, company, accounts), parse),
                                DoSinkAccepts(id, postId, journalId), parse), DoStamp(id), parse);
            var e := PrepareConfirm(s.tables, id, company, accounts).value.value;
            var (ledger, ack) := LedgerPost(s.ledger, e, postId, journalId);
            && s'.ledger == ledger
            && s'.tables == StampConfirmed(s.tables, id, ack)
            && s'.confirming == s.confirming && s'.lostAcks == s.lostAcks
  {
    hide EnvelopeLines, Balanced;
  }
}
