/** What accounting is sent for a settlement, account by account, and how a settlement row moves. */
module ExitEnvelopes {
  import opened Exit
  import opened ExitAgreement
  import opened ExitRuns
  import opened Inputs
  import opened Wrappers

  // ---- Account by account ----------------------------------------------------------

  function DebitTo(lines: seq<Line>, account: Id): real {
    if lines == [] then 0.0
    else (if lines[0].account == account then lines[0].debit else 0.0) + DebitTo(lines[1..], account)
  }

  function CreditTo(lines: seq<Line>, account: Id): real {
    if lines == [] then 0.0
    else (if lines[0].account == account then lines[0].credit else 0.0) + CreditTo(lines[1..], account)
  }

  lemma {:induction false} AccountTotalsAdd(a: seq<Line>, b: seq<Line>, account: Id)
    ensures DebitTo(a + b, account) == DebitTo(a, account) + DebitTo(b, account)
    ensures CreditTo(a + b, account) == CreditTo(a, account) + CreditTo(b, account)
  {
    if a == [] {
      assert a + b == b;
    } else {
      AccountTotalsAdd(a[1..], b, account);
      assert (a + b)[1..] == a[1..] + b;
    }
  }

  /** The lines debit the severance to the severance expense and the leave to the leave expense, credit
      both to the payable, and touch no other account; only credits name the leaver. */
  ghost predicate Itemises(lines: seq<Line>, severance: real, leave: real, employee: Id, a: Accounts) {
    && (forall account :: DebitTo(lines, account) ==
          (if account == a.severanceExpense then severance else 0.0)
          + (if account == a.leaveExpense then leave else 0.0))
    && (forall account :: CreditTo(lines, account) ==
          if account == a.employeePayable then severance + leave else 0.0)
    && (forall l :: l in lines ==> l.party == if l.debit != 0.0 then None else Some(employee))
    && (forall l :: l in lines ==> l.debit == 0.0 || l.credit == 0.0)
  }

  lemma EnvelopeItemises(severance: real, leave: real, employee: Id, accounts: Accounts)
    ensures Itemises(EnvelopeLines(severance, leave, employee, accounts), severance, leave, employee, accounts)
  {
    var s := if severance != 0.0 then [Line(accounts.severanceExpense, severance, 0.0, None)] else [];
    var l := if leave != 0.0 then [Line(accounts.leaveExpense, leave, 0.0, None)] else [];
    var p := [Line(accounts.employeePayable, 0.0, severance + leave, Some(employee))];
    assert EnvelopeLines(severance, leave, employee, accounts) == s + l + p;
    forall account
      ensures DebitTo(s + l + p, account) ==
                (if account == accounts.severanceExpense then severance else 0.0)
                + (if account == accounts.leaveExpense then leave else 0.0)
      ensures CreditTo(s + l + p, account) == if account == accounts.employeePayable then severance + leave else 0.0
    {
      AccountTotalsAdd(s + l, p, account);
      AccountTotalsAdd(s, l, account);
      assert p[1..] == [] && (s != [] ==> s[1..] == []) && (l != [] ==> l[1..] == []);
    }
  }

  // ---- When an envelope is sent ------------------------------------------------------

  predicate IsZero(amount: Option<real>) {
    amount.None? || amount.value == 0.0
  }

  function AmountOf(amount: Option<real>): real {
    match amount
    case None => 0.0
    case Some(x) => x
  }

  /** Confirming sends an envelope exactly for an unposted draft without withholding that has something
      to pay: the severance and the leave of that row, under that company and settlement. A settlement
      already posted is answered without one, and everything else is refused. */
  lemma ConfirmSendsIff(t: Tables, id: Id, company: Id, accounts: Accounts)
    ensures var p := PrepareConfirm(t, id, company, accounts);
            && (p.Success? && p.value.Some? <==>
                && id in t.settlements
                && t.settlements[id].accountingPostId == None && t.settlements[id].status == Draft
                && (t.settlements[id].taxDeduction.Some? ==> t.settlements[id].taxDeduction.value <= 0.0)
                && !(IsZero(t.settlements[id].pesangonAmount) && IsZero(t.settlements[id].unusedLeavePayout)))
            && (p == Success(None) <==> id in t.settlements && t.settlements[id].accountingPostId != None)
            && (p.Success? && p.value.Some? ==>
                  var row := t.settlements[id];
                  && p.value.value.key == PostKey(company, id)
                  && Itemises(p.value.value.lines, AmountOf(row.pesangonAmount), AmountOf(row.unusedLeavePayout),
                              row.employeeId, accounts))
  {
    hide EnvelopeLines, Balanced, Itemises;
    if id in t.settlements {
      var row := t.settlements[id];
      EnvelopeItemises(row.pesangonAmount.GetOr(0.0), row.unusedLeavePayout.GetOr(0.0), row.employeeId, accounts);
      EnvelopeBalances(row.pesangonAmount.GetOr(0.0), row.unusedLeavePayout.GetOr(0.0), row.employeeId, accounts);
    }
  }

  // ---- How a settlement row moves ------------------------------------------------------

  /** The answer a confirm holds, and not yet stamped. */
  ghost predicate IsAnswered(s: State, id: Id, ack: Ack) {
    id in s.confirming && s.confirming[id].ack == Some(ack)
  }

  /** A step changes a settlement row in two ways alone: a stamp confirms it with the post and journal
      accounting answered, and a remittance turns a confirmed one paid. The amounts stay. */
  lemma SettlementMoves(s: State, e: Event, parse: string -> Option<real>, id: Id)
    requires Inv(s) && id in s.tables.settlements
    ensures id in Next(s, e, parse).tables.settlements
    ensures var r, r' := s.tables.settlements[id], Next(s, e, parse).tables.settlements[id];
            || r' == r
            || (e == DoStamp(id) && r.status == Draft
                && exists ack :: IsAnswered(s, id, ack)
                                 && r' == r.(status := Confirmed, accountingPostId := Some(ack.postId),
                                             journalId := Some(ack.journalId)))
            || (e == DoMarkPaid(id) && r.status == Confirmed && r' == r.(status := Paid))
  {
    hide PrepareConfirm, LedgerPost, SettlementFor, OpenItems, DraftRead, ComputeForOffboarding, ExitsInv, LedgerSound,
      RowsSound, PostsAccounted, Books, Holds;
  }

  lemma PaidIff(t: Tables, id: Id)
    ensures var (t', r) := MarkPaid(t, id);
            && (r == Success(true) <==> id in t.settlements && t.settlements[id].status == Confirmed)
            && (r == Success(false) <==> id in t.settlements && t.settlements[id].status == Paid)
            && (if r == Success(true)
                then id in t'.settlements && t' == t.(settlements := t'.settlements)
                     && t'.settlements == t.settlements[id := t.settlements[id].(status := Paid)]
                else t' == t)
  {
  }

  // ---- Every post of every run -----------------------------------------------------------

  /** A confirm of that settlement under that company sent these lines for the amounts of the row. */
  ghost predicate WasSent(events: seq<Event>, key: PostKey, lines: seq<Line>, r: SettlementRow) {
    && r.pesangonAmount.Some? && r.unusedLeavePayout.Some?
    && exists e :: e in events && e.DoBeginConfirm? && e.id == key.settlement && e.company == key.company
                   && Itemises(lines, r.pesangonAmount.value, r.unusedLeavePayout.value, r.employeeId, e.accounts)
  }

  ghost predicate PostsSent(events: seq<Event>, s: State) {
    forall p :: p in s.ledger ==>
      p.key.settlement in s.tables.settlements
      && WasSent(events, p.key, p.lines, s.tables.settlements[p.key.settlement])
  }

  ghost predicate AttemptsSent(events: seq<Event>, s: State) {
    forall id :: id in s.confirming ==>
      var sent := s.confirming[id].envelope;
      && sent.key.settlement == id && id in s.tables.settlements
      && WasSent(events, sent.key, sent.lines, s.tables.settlements[id])
  }

  lemma SentStays(events: seq<Event>, e: Event, key: PostKey, lines: seq<Line>, r: SettlementRow, r': SettlementRow)
    requires WasSent(events, key, lines, r) && SameAmounts(r, r')
    ensures WasSent(events + [e], key, lines, r')
  {
    hide Itemises;
    var x :| x in events && x.DoBeginConfirm? && x.id == key.settlement && x.company == key.company
             && Itemises(lines, r.pesangonAmount.value, r.unusedLeavePayout.value, r.employeeId, x.accounts);
    assert x in events + [e];
  }

  lemma BegunIsSent(events: seq<Event>, s: State, e: Event)
    requires LedgerInv(s) && e.DoBeginConfirm?
    requires var p := PrepareConfirm(s.tables, e.id, e.company, e.accounts); p.Success? && p.value.Some?
    ensures e.id in s.tables.settlements
    ensures var sent := PrepareConfirm(s.tables, e.id, e.company, e.accounts).value.value;
            sent.key.settlement == e.id && WasSent(events + [e], sent.key, sent.lines, s.tables.settlements[e.id])
  {
    ConfirmSendsIff(s.tables, e.id, e.company, e.accounts);
    hide PrepareConfirm, Itemises, LedgerSound, AttemptsSound, PostsAccounted, HoldsPostOf;
    assert e in events + [e];
  }

  lemma StepSends(events: seq<Event>, s: State, e: Event, parse: string -> Option<real>)
    requires LedgerInv(s) && PostsSent(events, s) && AttemptsSent(events, s)
    ensures PostsSent(events + [e], Next(s, e, parse)) && AttemptsSent(events + [e], Next(s, e, parse))
  {
    var s' := Next(s, e, parse);
    StepKeepsHistory(s, e, parse);
    hide LedgerInv, WasSent, SameAmounts;
    forall p | p in s'.ledger
      ensures p.key.settlement in s'.tables.settlements
              && WasSent(events + [e], p.key, p.lines, s'.tables.settlements[p.key.settlement])
    {
      StepPosts(s, e, parse, p);
      var lines := p.lines;
      if p in s.ledger {
        SentStays(events, e, p.key, lines, s.tables.settlements[p.key.settlement],
          s'.tables.settlements[p.key.settlement]);
      } else {
        SentStays(events, e, p.key, lines, s.tables.settlements[e.id], s'.tables.settlements[e.id]);
      }
    }
    forall id | id in s'.confirming
      ensures var sent := s'.confirming[id].envelope;
              && sent.key.settlement == id && id in s'.tables.settlements
              && WasSent(events + [e], sent.key, sent.lines, s'.tables.settlements[id])
    {
      StepAttempts(s, e, parse, id);
      if id in s.confirming {
        var sent := s.confirming[id].envelope;
        SentStays(events, e, sent.key, sent.lines, s.tables.settlements[id], s'.tables.settlements[id]);
      } else {
        BegunIsSent(events, s, e);
      }
    }
  }

  /** What a step posts is the envelope of its own attempt. */
  lemma StepPosts(s: State, e: Event, parse: string -> Option<real>, p: Post)
    requires p in Next(s, e, parse).ledger
    ensures p in s.ledger
         || (e.DoSinkAccepts? && e.id in s.confirming && p.key == s.confirming[e.id].envelope.key
             && p.lines == s.confirming[e.id].envelope.lines)
  {
    hide PrepareConfirm, SettlementFor, OpenItems, DraftRead, ComputeForOffboarding, LedgerPost, HoldsPostOf;
    if e.DoSinkAccepts? && e.id in s.confirming {
      LedgerAnswers(s.ledger, s.confirming[e.id].envelope, e.postId, e.journalId);
    }
  }

  lemma StepAttempts(s: State, e: Event, parse: string -> Option<real>, id: Id)
    requires id in Next(s, e, parse).confirming
    ensures var sent := Next(s, e, parse).confirming[id].envelope;
            if id in s.confirming then sent == s.confirming[id].envelope
            else
              && e.DoBeginConfirm? && e.id == id && Next(s, e, parse).tables == s.tables
              && PrepareConfirm(s.tables, id, e.company, e.accounts) == Success(Some(sent))
  {
    hide PrepareConfirm, SettlementFor, OpenItems, DraftRead, ComputeForOffboarding, LedgerPost;
  }

  lemma {:induction false} SentInRun(sources: Sources, events: seq<Event>, parse: string -> Option<real>)
    ensures var s := Run(Initial(sources), events, parse); PostsSent(events, s) && AttemptsSent(events, s)
  {
    hide Next, WasSent;
    if events != [] {
      var init, e := events[..|events| - 1], events[|events| - 1];
      assert events == init + [e];
      SentInRun(sources, init, parse);
      ReachableInv(sources, init, parse);
      StepSends(init, Run(Initial(sources), init, parse), e, parse);
    }
  }

  /** In every run, whatever is retried and wherever a call dies, every post was sent by a confirm of its
      settlement under its company, and debits that confirm's severance expense account with exactly the
      row's severance and its leave expense account with exactly the row's leave payout, credits both to
      its payable account in the leaver's name, and touches no other account. */
  lemma PostsAreItemised(sources: Sources, events: seq<Event>, parse: string -> Option<real>, p: Post)
    requires p in Run(Initial(sources), events, parse).ledger
    ensures var s := Run(Initial(sources), events, parse);
            && p.key.settlement in s.tables.settlements
            && WasSent(events, p.key, p.lines, s.tables.settlements[p.key.settlement])
  {
    hide Run, WasSent;
    SentInRun(sources, events, parse);
  }
}
