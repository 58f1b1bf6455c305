/** How often a settlement is booked, and when a post is left without a stamp. */
module ExitBooking {
  import opened Exit
  import opened ExitRuns
  import opened Inputs
  import opened Wrappers

  // ---- One company ---------------------------------------------------------

  /** Every confirm of the settlement ran under one of the companies. */
  ghost predicate UnderCompanies(events: seq<Event>, id: Id, companies: set<Id>) {
    forall e :: e in events && e.DoBeginConfirm? && e.id == id ==> e.company in companies
  }

  ghost predicate OneCompanyInv(s: State, id: Id, company: Id) {
    && (forall p :: p in s.ledger && p.key.settlement == id ==> p.key.company == company)
    && (id in s.confirming ==> s.confirming[id].envelope.key.company == company)
  }

  lemma OneCompanyStep(s: State, e: Event, parse: string -> Option<real>, id: Id, company: Id)
    requires Inv(s) && OneCompanyInv(s, id, company)
    requires e.DoBeginConfirm? && e.id == id ==> e.company == company
    ensures OneCompanyInv(Next(s, e, parse), id, company)
  {
    hide LinksAgree, OneEventPerClose, DraftsKnown, LedgerSound, RowsSound, PostsAccounted, KeysDistinct, PostsOf,
        EnvelopeLines;
    if e.DoSinkAccepts? && e.id in s.confirming {
      LedgerAnswers(s.ledger, s.confirming[e.id].envelope, e.postId, e.journalId);
    }
  }

  lemma {:induction false} OneCompanyRun(
      s: State, events: seq<Event>, parse: string -> Option<real>, id: Id, company: Id)
    requires Inv(s) && OneCompanyInv(s, id, company) && UnderCompanies(events, id, {company})
    ensures OneCompanyInv(Run(s, events, parse), id, company)
  {
    hide Inv, OneCompanyInv, Next;
    if events != [] {
      var init, e := events[..|events| - 1], events[|events| - 1];
      assert events == init + [e];
      assert e in events && forall x :: x in init ==> x in events;
      OneCompanyRun(s, init, parse, id, company);
      RunKeepsInv(s, init, parse);
      OneCompanyStep(Run(s, init, parse), e, parse, id, company);
    }
  }

  /** With distinct keys, a settlement is booked at most once exactly when all its posts carry one
      company. */
  lemma {:induction false} OnePostIffOneCompany(ledger: seq<Post>, id: Id)
    requires KeysDistinct(ledger)
    ensures PostsOf(ledger, id) <= 1 <==>
              forall p, q :: p in ledger && q in ledger && p.key.settlement == q.key.settlement == id ==>
                  p.key.company == q.key.company
  {
    if ledger != [] {
      var init, last := ledger[..|ledger| - 1], ledger[|ledger| - 1];
      OnePostIffOneCompany(init, id);
      PostOfIsCounted(init, id);
      assert ledger == init + [last];
      assert forall p :: p in ledger <==> p in init || p == last;
      if last.key.settlement == id {
        forall p | p in init && p.key.settlement == id
          ensures p.key.company != last.key.company
        {
          assert p.key != last.key;
        }
      }
    }
  }

  lemma OneCompanyBooksOnceFrom(s: State, events: seq<Event>, parse: string -> Option<real>, id: Id, company: Id)
    requires Inv(s) && OneCompanyInv(s, id, company) && UnderCompanies(events, id, {company})
    ensures PostsOf(Run(s, events, parse).ledger, id) <= 1
  {
    hide PostsOf, ExitsInv, RowsSound, AttemptsSound, PostsAccounted;
    OneCompanyRun(s, events, parse, id, company);
    RunKeepsInv(s, events, parse);
    OnePostIffOneCompany(Run(s, events, parse).ledger, id);
  }

  /** Under one company scope a settlement is booked at most once, through any interleaving of
      confirms, rejections, crashes between the acknowledgement and the commit, and retries. */
  lemma OneCompanyBooksOnce(sources: Sources, events: seq<Event>, parse: string -> Option<real>, id: Id, company: Id)
    requires UnderCompanies(events, id, {company})
    ensures PostsOf(Run(Initial(sources), events, parse).ledger, id) <= 1
  {
    hide Inv, PostsOf;
    InitialInv(sources);
    OneCompanyBooksOnceFrom(Initial(sources), events, parse, id, company);
  }

  // ---- More than one company -------------------------------------------------

  /** A payable draft that no confirm holds: accounting may have booked it already, in a confirm that
      died before its stamp. */
  ghost predicate AwaitsConfirm(s: State, id: Id) {
    && id in s.tables.settlements && s.tables.settlements[id].status.Draft? && Payable(s.tables.settlements[id])
    && id !in s.confirming
  }

  /** The company is part of the key, so the one-company condition is needed: from any reachable
      draft with something to pay, a crash after the first company's acknowledgement and a retry
      under a second company book the settlement twice. */
  lemma TwoCompaniesBookTwice(
      s: State, id: Id, a: Id, b: Id, accounts: Accounts, post: Id, post': Id, parse: string -> Option<real>)
    requires Inv(s) && a != b && AwaitsConfirm(s, id) && PostsOf(s.ledger, id) == 0
    ensures var events := [DoBeginConfirm(id, a, accounts), DoSinkAccepts(id, post, 0), DoCrash(id),
                           DoBeginConfirm(id, b, accounts), DoSinkAccepts(id, post', 0), DoStamp(id)];
            PostsOf(Run(s, events, parse).ledger, id) == 2
  {
    hide Inv, Next, PostsOf, EnvelopeLines, RowsSound, Payable, LedgerPost;
    var events := [DoBeginConfirm(id, a, accounts), DoSinkAccepts(id, post, 0), DoCrash(id),
                   DoBeginConfirm(id, b, accounts), DoSinkAccepts(id, post', 0), DoStamp(id)];
    PostOfIsCounted(s.ledger, id);
    var p := AcceptedAttempt(s, id, a, accounts, post, parse);
    var s2 := Next(Next(s, events[0], parse), events[1], parse);
    var s3 := Next(s2, events[2], parse);
    EndsWithSameLedger(s2, id, parse);
    NextKeepsInv(s, events[0], parse);
    NextKeepsInv(Next(s, events[0], parse), events[1], parse);
    NextKeepsInv(s2, events[2], parse);
    var q := AcceptedAttempt(s3, id, b, accounts, post', parse);
    EndsWithSameLedger(Next(Next(s3, events[3], parse), events[4], parse), id, parse);
    PostsOfAppend(s.ledger, p, id);
    PostsOfAppend(s.ledger + [p], q, id);
    RunSix(s, events, parse);
  }

  /** A confirm of an unlocked payable draft, accepted under a key accounting has not seen. */
  lemma AcceptedAttempt(
      s: State, id: Id, company: Id, accounts: Accounts, post: Id, parse: string -> Option<real>)
    returns (p: Post)
    requires Inv(s)
    requires id in s.tables.settlements && s.tables.settlements[id].status.Draft? && Payable(s.tables.settlements[id])
    requires id !in s.confirming && forall x :: x in s.ledger ==> x.key != PostKey(company, id)
    ensures p.key == PostKey(company, id)
    ensures var s' := Next(Next(s, DoBeginConfirm(id, company, accounts), parse), DoSinkAccepts(id, post, 0), parse);
            s'.ledger == s.ledger + [p] && s'.tables == s.tables && id in s'.confirming
  {
    hide LinksAgree, OneEventPerClose, DraftsKnown, LedgerSound, PostsAccounted, AttemptsSound, EnvelopeLines, Balanced;
    var r := s.tables.settlements[id];
    EnvelopeBalances(r.pesangonAmount.GetOr(0.0), r.unusedLeavePayout.GetOr(0.0), r.employeeId, accounts);
    var lines := EnvelopeLines(r.pesangonAmount.value, r.unusedLeavePayout.value, r.employeeId, accounts);
    p := Post(PostKey(company, id), post, 0, lines);
  }

  lemma EndsWithSameLedger(s: State, id: Id, parse: string -> Option<real>)
    ensures Next(s, DoCrash(id), parse).ledger == Next(s, DoStamp(id), parse).ledger == s.ledger
    ensures Next(s, DoCrash(id), parse).tables == s.tables && id !in Next(s, DoCrash(id), parse).confirming
  {
  }

  lemma RunSix(s: State, events: seq<Event>, parse: string -> Option<real>)
    requires |events| == 6
    ensures Run(s, events, parse) ==
      Next(Next(Next(
        Next(Next(Next(s, events[0], parse), events[1], parse), events[2], parse),
        events[3], parse), events[4], parse), events[5], parse)
  {
    hide Next;
    assert events[..5][..4] == events[..4] && events[..4][..3] == events[..3];
    assert events[..3][..2] == events[..2] && events[..2][..1] == events[..1];
    assert Run(s, events[..1], parse) == Next(s, events[0], parse);
    assert Run(s, events[..2], parse) == Next(Run(s, events[..1], parse), events[1], parse);
    assert Run(s, events[..3], parse) == Next(Run(s, events[..2], parse), events[2], parse);
    assert Run(s, events[..4], parse) == Next(Run(s, events[..3], parse), events[3], parse);
    assert Run(s, events[..5], parse) == Next(Run(s, events[..4], parse), events[4], parse);
  }

  // ---- Which companies may confirm -------------------------------------------

  /** The companies under which accounting holds a post of the settlement. */
  function BookedUnder(ledger: seq<Post>, id: Id): set<Id> {
    set p | p in ledger && p.key.settlement == id :: p.key.company
  }

  ghost predicate BooksAtMostOnce(s: State, id: Id, companies: set<Id>, parse: string -> Option<real>) {
    forall events :: UnderCompanies(events, id, companies) ==> PostsOf(Run(s, events, parse).ledger, id) <= 1
  }

  lemma OnlyCompany(companies: set<Id>) returns (company: Id)
    requires |companies| <= 1
    ensures companies <= {company}
  {
    if companies == {} {
      company := 0;
    } else {
      company :| company in companies;
      assert |companies - {company}| == 0;
    }
  }

  /** A confirm under a company that has not booked the settlement adds a post to those there are. */
  lemma NewCompanyBooksAgain(s: State, id: Id, company: Id, parse: string -> Option<real>) returns (events: seq<Event>)
    requires Inv(s) && AwaitsConfirm(s, id) && company !in BookedUnder(s.ledger, id)
    ensures UnderCompanies(events, id, {company})
    ensures PostsOf(Run(s, events, parse).ledger, id) == PostsOf(s.ledger, id) + 1
  {
    hide Inv, Next, PostsOf, Payable;
    var accounts := Accounts(0, 0, 0);
    var begin, accept := DoBeginConfirm(id, company, accounts), DoSinkAccepts(id, 0, 0);
    events := [begin, accept];
    var p := AcceptedAttempt(s, id, company, accounts, 0, parse);
    PostsOfAppend(s.ledger, p, id);
    assert events[..1] == [begin] && events[..1][..0] == [];
    assert Run(s, events[..1], parse) == Next(s, begin, parse);
    assert Run(s, events, parse) == Next(Next(s, begin, parse), accept, parse);
  }

  lemma ManyCompaniesManyPosts(s: State, id: Id)
    requires Inv(s)
    ensures PostsOf(s.ledger, id) <= 1 <==> |BookedUnder(s.ledger, id)| <= 1
    ensures PostsOf(s.ledger, id) == 0 <==> BookedUnder(s.ledger, id) == {}
  {
    hide PostsOf, ExitsInv, RowsSound, AttemptsSound, PostsAccounted, Books;
    OnePostIffOneCompany(s.ledger, id);
    PostOfIsCounted(s.ledger, id);
    var booked := BookedUnder(s.ledger, id);
    if PostsOf(s.ledger, id) > 0 {
      var p :| p in s.ledger && p.key.settlement == id;
      assert p.key.company in booked;
    }
    if |booked| <= 1 {
      var company := OnlyCompany(booked);
      forall p | p in s.ledger && p.key.settlement == id ensures p.key.company == company {
        assert p.key.company in booked;
      }
    }
    if PostsOf(s.ledger, id) <= 1 && booked != {} {
      var company :| company in booked;
      assert booked == {company};
    }
  }

  lemma BookedIsOneCompany(s: State, id: Id, company: Id)
    requires AwaitsConfirm(s, id) && BookedUnder(s.ledger, id) <= {company}
    ensures OneCompanyInv(s, id, company)
  {
    forall p | p in s.ledger && p.key.settlement == id ensures p.key.company == company {
      assert p.key.company in BookedUnder(s.ledger, id);
    }
  }

  /** Which companies may confirm a settlement. From any reachable state with a payable draft that no
      confirm holds, before its first booking or after an acknowledgement was lost, every continuation
      books it at most once if and only if the companies its confirms run under, with those that have
      booked it already, are at most one. */
  lemma BooksOnceIffOneCompany(s: State, id: Id, companies: set<Id>, parse: string -> Option<real>)
    requires Inv(s) && AwaitsConfirm(s, id)
    ensures BooksAtMostOnce(s, id, companies, parse) <==> |companies + BookedUnder(s.ledger, id)| <= 1
  {
    hide Inv, Next, PostsOf, OneCompanyInv, BookedUnder, AwaitsConfirm;
    var booked := BookedUnder(s.ledger, id);
    ManyCompaniesManyPosts(s, id);
    if |companies + booked| <= 1 {
      var company := OnlyCompany(companies + booked);
      BookedIsOneCompany(s, id, company);
      forall events | UnderCompanies(events, id, companies) ensures PostsOf(Run(s, events, parse).ledger, id) <= 1 {
        OneCompanyBooksOnceFrom(s, events, parse, id, company);
      }
    } else {
      var events := BooksTwice(s, id, companies, parse);
      assert UnderCompanies(events, id, companies);
    }
  }

  lemma BooksTwice(s: State, id: Id, companies: set<Id>, parse: string -> Option<real>) returns (events: seq<Event>)
    requires Inv(s) && AwaitsConfirm(s, id) && |companies + BookedUnder(s.ledger, id)| > 1
    ensures UnderCompanies(events, id, companies) && PostsOf(Run(s, events, parse).ledger, id) > 1
  {
    hide Inv, Next, PostsOf, BookedUnder, AwaitsConfirm;
    var booked := BookedUnder(s.ledger, id);
    ManyCompaniesManyPosts(s, id);
    if |booked| > 1 {
      events := [];
    } else if booked == {} {
      assert companies + booked == companies;
      var a :| a in companies;
      assert |companies - {a}| > 0;
      var b :| b in companies - {a};
      var accounts := Accounts(0, 0, 0);
      TwoCompaniesBookTwice(s, id, a, b, accounts, 0, 0, parse);
      events := [DoBeginConfirm(id, a, accounts), DoSinkAccepts(id, 0, 0), DoCrash(id),
                 DoBeginConfirm(id, b, accounts), DoSinkAccepts(id, 0, 0), DoStamp(id)];
    } else {
      assert companies <= booked ==> companies + booked == booked;
      var b :| b in companies && b !in booked;
      events := NewCompanyBooksAgain(s, id, b, parse);
    }
  }

  // ---- Posts without a stamp ---------------------------------------------------

  /** An acknowledgement that was given, and then lost, was of a post. */
  ghost predicate LostWerePosted(s: State) {
    forall id :: s.lostAcks[id] > 0 ==> PostsOf(s.ledger, id) > 0
  }

  lemma AcknowledgedIsPosted(s: State, id: Id)
    requires LedgerInv(s) && id in s.confirming && s.confirming[id].ack.Some?
    ensures PostsOf(s.ledger, id) > 0
  {
    hide PostsOf, Books, LedgerSound, RowsSound, PostsAccounted;
    var a := s.confirming[id];
    assert Holds(s.ledger, a.envelope.key, a.ack.value.postId, a.ack.value.journalId);
    PostOfIsCounted(s.ledger, id);
  }

  lemma StepKeepsLostPosted(s: State, e: Event, parse: string -> Option<real>)
    requires Inv(s) && LostWerePosted(s)
    ensures LostWerePosted(Next(s, e, parse))
  {
    hide PostsOf, ExitsInv, LedgerInv, LedgerPost, CreateOffboarding, Clear, Close, DraftRead, DraftInsert,
      PrepareConfirm, StampConfirmed, MarkPaid;
    if e.DoCrash? && e.id in s.confirming && s.confirming[e.id].ack.Some? {
      AcknowledgedIsPosted(s, e.id);
    }
    if e.DoSinkAccepts? && e.id in s.confirming {
      LedgerAnswers(s.ledger, s.confirming[e.id].envelope, e.postId, e.journalId);
    }
  }

  lemma {:induction false} LostPostedInRun(sources: Sources, events: seq<Event>, parse: string -> Option<real>)
    ensures LostWerePosted(Run(Initial(sources), events, parse))
  {
    hide Next;
    if events != [] {
      LostPostedInRun(sources, events[..|events| - 1], parse);
      ReachableInv(sources, events[..|events| - 1], parse);
      StepKeepsLostPosted(Run(Initial(sources), events[..|events| - 1], parse), events[|events| - 1], parse);
    }
  }

  /** When a post is left without a stamp. In every run, for a settlement that no confirm holds:
      accounting has booked it and the row carries no post id if and only if an acknowledgement of it
      was lost in a crash and it is still a draft. */
  lemma PostedWithoutStampIff(sources: Sources, events: seq<Event>, parse: string -> Option<real>, id: Id)
    requires id in Run(Initial(sources), events, parse).tables.settlements
    requires id !in Run(Initial(sources), events, parse).confirming
    ensures var s := Run(Initial(sources), events, parse);
            (PostsOf(s.ledger, id) > 0 && s.tables.settlements[id].accountingPostId.None?) <==>
            (s.lostAcks[id] > 0 && s.tables.settlements[id].status.Draft?)
  {
    hide Run, PostsOf, ExitsInv, LedgerSound, AttemptsSound;
    ReachableInv(sources, events, parse);
    LostPostedInRun(sources, events, parse);
    var s := Run(Initial(sources), events, parse);
    assert SoundRow(s.tables.settlements[id]);
    assert PostsOf(s.ledger, id) <= s.lostAcks[id] + KeptAcks(s, id);
  }
}
