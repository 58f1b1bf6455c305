# Employee lifecycle: a verified model

This project models the hand-written services of an Indonesian HR lifecycle module and proves
properties of the model. It covers the final-settlement calculation (tenure, severance scales,
last pay, rounding, effective-dated statutory tables, company settings), the exit protocol around
it (offboarding, clearance, settlement draft, general-ledger posting, payment), the chain of
fixed-term contracts with its approvals verdicts and its month ledger, the expiry reminders, the
promotion saga, the warning-letter records and onboarding.

## How it is built

Each service comes in up to three modules.

- A *table* module (`Exit`, `Contracts`, `Promotions`, `Discipline`, `Onboardings`) holds the rows
  and one function per verb: the tables and arguments of one transaction in, the new tables and the
  answer out, with the errors the verb gives. A verb that reads and then writes without holding a
  lock, or that works in several transactions, is cut into its parts.
- A *service* module (`ExitService`, `ContractService`, `PromotionService`, `DisciplineService`,
  `OnboardingService`) holds a class whose methods update the rows in place, branch by branch, and
  are proved to compute that function.
- A *runs* module (`ExitRuns`, `ContractRuns`, `Reminders`, `PromotionRuns`, `DisciplineRuns`,
  `OnboardingRuns`) makes the verbs steps of a state machine: any interleaving, crashes between
  commits, answers that arrive late or twice. Its main lemmas speak of every run from empty tables.
  `ExitBooking`, `ExitEnvelopes` and `ExitAgreement` carry on from `ExitRuns`, `ContractLedger` and
  `ContractVerdicts` from `ContractRuns`, and `TermEnds` runs the contract verbs and the recording of
  exits over one contract table.
- An *origins* module (`ExitOrigins`, `ContractOrigins`, `ReminderOrigins`, `PromotionOrigins`,
  `DisciplineOrigins`, `OnboardingOrigins`) says of every row and event of every run which call it came
  from, what that call asked for and what the tables held when it was made. It also says, verb by verb
  and without the verb's own function, exactly when a call is granted and what it then leaves.

The calculation itself (`Calendar`, `Money`, `Tenure`, `Pesangon`, `Settlement`, `Inputs`,
`StatutoryTables`, `Months`) is functions, as in the source; `Settings` is a reader object updated
row by row. `SettlementItems` says what each item of a settlement is on its own, and `Assembly` which
rows of which tables it was computed from.

Dates are proleptic Gregorian triples with a day number; `OrderIsDayNumberOrder` ties the two.
Decimals are exact reals, sen are integers, instants are integers. Ids drawn at random in the
source are parameters, or positions in a table that only grows, and are taken to be fresh. Clocks,
ports, approvals answers, the ledger's verdict and the rows other transactions lock are parameters.

## Where the code does less than it says

Each point is a lemma with an input that shows it, beside the exact condition under which the promise
holds.

- *Reminded once.* The reminder tick sends its notices before it commits the marks, so a tick that
  dies sends them again (`Reminders.DeadTickRepeatsItsNotice`). A contract is notified as often as it
  is marked if and only if no tick that notified it died (`Reminders.RemindedAtMostOnceIff`).
- *Never posted without a stamp, booked once.* A confirm that dies between the ledger's
  acknowledgement and its commit leaves a post without a stamp. With no confirm in flight that is so
  if and only if an acknowledgement was lost and the settlement is still a draft
  (`ExitBooking.PostedWithoutStampIff`). The retry is absorbed by the idempotency key only under the
  same company, which is part of the key (`ExitBooking.TwoCompaniesBookTwice`). Every continuation
  books a payable draft that no confirm holds at most once if and only if the companies its confirms
  run under, together with those that have booked it already, are at most one
  (`ExitBooking.BooksOnceIffOneCompany`).
- *The outcome applies on its verdict.* Nothing ties a verdict to the filing a contract waits for: an
  approval of a filing that was lost (`ContractVerdicts.OrphanFilingIsApplied`), refused
  (`ContractVerdicts.RefusedFilingIsApplied`) or reopened by a repeated refusal
  (`ContractVerdicts.ReplayedRefusalDecidesWrongly`) decides it. Every decided contract was decided by
  the filing it waited for if and only if every approval that found its contract ready to be decided
  was the one awaited when it was delivered (`ContractVerdicts.DecidedAsAwaitedIff`). The comment on
  the refused verdict says the filing never touched the row; the filing sets it pending.
- *The months ledger.* A term is counted up to its last day, not through it: the renewal that a
  comment calls twelve months counts eleven, and 61 whole months read 60
  (`ContractLedger.CapCanBeMissed`). Against the months its terms last the ledger loses exactly one
  for each term that ends on a whole month; against a stretch without gaps, besides, one for each
  renewal that cuts off part of a month. It is right if and only if there is none
  (`ContractLedger.LedgerLosesExactly`, `Months.TermLosesAMonthIff`, `Months.CutLosesAMonthIff`).
- *A fixed term behind every end-of-contract exit.* The guard on recording an exit keeps this
  (`TermEnds.RecordedExitsAreLawful`). The exits that approved ends open keep it if and only if no
  approval of an end finds an indefinite contract with an end date pending
  (`TermEnds.RunIsLawfulIff`). A policy on what may be created keeps it in every run if and only if it
  allows no such contract, and the create verb does (`TermEnds.PolicyIsLawfulIff`).
- *The stored figures reproduce the amounts.* Daily wage times days is the last pay of a part month if
  and only if it does not pass the month's wage, and of a full month if and only if it is that wage
  (`Settlement.LastPayReproducesIff`). It is the leave payout if and only if it comes to a whole
  number of sen, as it does for any whole number of days (`Settlement.LeaveReproducesIff`,
  `Settlement.WholeDaysReproduce`) and half a day need not (`Settlement.HalfDayIsNotReproduced`).
- *The earlier approve verb.* An unwired approvals port is said to keep it; the code refuses every
  unlinked promotion, so one created without a port is never approved
  (`PromotionRuns.HalfMadeIsNeverApproved`). A promotion without a type is said to take the default
  type; the insert names the column and its NULL is refused
  (`PromotionRuns.RefusedCreateLeavesNothing`). A failed filing is said to take the promotion with
  it, which it does if and only if the compensating delete works; a failed link leaves the row
  (`PromotionRuns.FailedCreateLeavesNothingIff`, `PromotionRuns.HalfMadeIffStranded`).
- *The discipline lifecycle.* A contest verdict's write checks only that the record is not cancelled,
  so a verdict that was overtaken breaks it (`DisciplineRuns.StaleRefusalUndoesAcknowledgement`,
  `DisciplineRuns.WriteFollowsTheLifecycleIff`).

## Model

| member | source | states |
|---|---|---|
| Calendar.OrderIsDayNumberOrder | src/application/service/pesangon.rs:417-431 | Comparing dates as triples and counting days agree: earlier, no later and equal mean the same on both, so a date is determined by its day number. |
| Calendar.AnniversaryGap | src/application/service/pesangon.rs:404-409 | Consecutive anniversaries of any start, 29 February included, are 365 or 366 days apart. |
| Calendar.AnniversaryKeepsOrder | src/application/service/pesangon.rs:404-409 | An earlier start never has a later anniversary, whichever of the two falls on 29 February. |
| Calendar.AnniversaryFallsOn | src/application/service/pesangon.rs:404-409 | An anniversary falls on the start's own month and day, or on 1 March when that is 29 February of a common year. |
| Calendar.PredIsPreviousDay | src/application/service/pesangon.rs:473-476 | Stepping back goes one day down the line of days, through month and year ends, and stepping forward again returns. |
| Calendar.MonthEndIsLastDay | src/application/service/pesangon.rs:473-476 | A month later and a day back is the last day of the month, leap Februaries included, and the month encloses each of its days. |
| Calendar.WeekdayAnchor | src/application/service/pesangon.rs:354-360 | The weekday count is the calendar's, across centuries: 1 January 1900 is a Monday, 1 January 2000 a Saturday and 1 October 2026 a Thursday. |
| Money.RoundIsNearest | src/application/service/pesangon.rs:65-67 | An amount of sen is the rounded amount exactly when it is within half a sen, ties away from zero. |
| Money.RoundKeepsOrder | src/application/service/pesangon.rs:65-67 | Rounding never swaps two amounts. |
| Money.RoundOfSum | src/application/service/pesangon.rs:612-614 | Rounding a sum of already rounded amounts is the identity. |
| Tenure.CompletedYearsCountsAnniversaries | src/application/service/pesangon.rs:417-437 | For join <= last, n completed years are counted if and only if the n-th anniversary is at or before the day after the last working day; the truncated fraction never reaches the next year. |
| Tenure.TenureIsServedYears | src/application/service/pesangon.rs:417-437 | For join <= last, the tenure is the anniversaries reached by the day after the last day plus the share of the next service year served, cut to four decimals, and the scale key is those anniversaries. |
| Tenure.TenureGrows | src/application/service/pesangon.rs:417-437 | A later end or an earlier join never lowers the stamped tenure nor the scale key, across service years of 365 and 366 days and the case of an employee who never started. |
| Pesangon.LookupIsTheBandInForce | src/application/service/pesangon.rs:183-222 | On a checked scale the lookup returns the one band whose bound is the greatest reached; the zero default is never used. |
| Pesangon.ScaleMonthsGrow | src/application/service/pesangon.rs:205-222 | On a checked scale with non-decreasing months, more years never look up fewer months. |
| Pesangon.WorkingDaysClosedForm | src/application/service/pesangon.rs:354-360 | The day-by-day count of working days equals a closed-form count by whole weeks and remainder. |
| Pesangon.WorkingDaysAreScheduledDays | src/application/service/pesangon.rs:467-472 | The day-by-day count is the size of the set of scheduled days between the two dates. |
| Pesangon.LastPayCountsItsDays | src/application/service/pesangon.rs:457-484 | The last pay counts exactly the scheduled days of the last month on or after the join date, each at the daily wage up to the month's wage, and nothing for an employee who never started. |
| Settlement.SevenDaysHoldAWorkWeek | src/application/service/pesangon.rs:335-360 | Any seven consecutive days hold exactly five or six working days. |
| Settlement.LastPayBounds | src/application/service/pesangon.rs:457-484 | The last pay lies between zero and the rounded monthly wage, and a full calendar month pays exactly that wage. |
| Settlement.LastPayGrowsWithinMonth | src/application/service/pesangon.rs:457-489 | Within one month a later last day never lowers the last pay, through the switch from day counting to the full month. |
| Settlement.RefusesOnlyTermination | src/application/service/pesangon.rs:183-203 | On a checked set the calculation refuses if and only if the reason is the unspecific termination. |
| Settlement.FixedTermEndPaysOnlyLeave | src/application/service/pesangon.rs:563-645 | The end of a fixed term never refuses and pays the leave and no severance, whatever the set and the settings. |
| Settlement.NetPayableIsTheSumOfItems | src/application/service/pesangon.rs:597-643 | The net payable is exactly severance pay plus service pay plus separation pay plus leave payout, in whole sen: the outer roundings change nothing. |
| Settlement.RoundingErrorIsBounded | src/application/service/pesangon.rs:563-643 | The net payable lies within (4 + leave days) half-sen of the formula without any rounding. |
| Settlement.NetPayableIsItemSum | src/application/service/pesangon.rs:563-643 | The net payable of a started employee is the items at the scale months of the service, and zero for one who never started. |
| Settlement.LastPayReproducesIff | src/application/service/pesangon.rs:457-489 | For a started employee, daily wage times paid days is the stored last pay if and only if, in a part month, it does not pass the month's wage, and, in a full month, it is that wage. |
| Settlement.LeaveReproducesIff | src/application/service/pesangon.rs:487-489 | Daily wage times leave days is the stored leave payout if and only if it comes to a whole number of sen. |
| Settlement.WholeDaysReproduce | src/application/service/pesangon.rs:487-489 | Any whole number of days does. |
| Settlement.HalfDayIsNotReproduced | src/application/service/pesangon.rs:487-489 | Half a day at 100.01 is stored as 50.01, not 50.005. |
| Settlement.NetPayableGrows | src/application/service/pesangon.rs:552-645 | For a checked set with non-decreasing months, non-negative opening months and non-negative multipliers, a later last day, an earlier join, a higher wage or more leave never lowers the net payable, and never turns an answer into a refusal. |
| SettlementItems.SettlesUnderItsCase | src/application/service/pesangon.rs:284-320 | A statutory reason is settled under its own case: its own article, multipliers and stamp from its own row of the set, and the stamped date is the latest of the three. |
| SettlementItems.EarlierLabelSettlesAsItsCase | src/application/service/pesangon.rs:289-292 | Each of the four earlier labels settles exactly as the case it stands for. |
| SettlementItems.ItemsAreTheirOwn | src/application/service/pesangon.rs:563-645 | For a started employee under a case, each of severance pay, service pay and separation pay is the nearest sen of its own months times its own multiplier times the wage, with the months of the band in force for the anniversaries reached; the leave payout is the leave days at the rounded daily wage, and the last pay that of the days of the last month. |
| SettlementItems.LastPayIs | src/application/service/pesangon.rs:457-489 | From the first of the month or a later join through the last day: a whole calendar month pays the wage, anything less the rounded daily wage for each day of the work week there, never more than the wage. |
| SettlementItems.FixedTermEndItems | src/application/service/pesangon.rs:563-645 | The end of a fixed term is under no case and every severance item is zero, while leave and last pay are as under any case. |
| SettlementItems.NeverStartedOwesNothing | src/application/service/pesangon.rs:563-645 | One whose last day is before the join date is owed nothing, item by item. |
| StatutoryTables.EffectiveAtIsGreatest | src/infrastructure/persistence/severance_params_repository.rs:91-109 | The date resolved is the greatest effective date not after the day, and there is none if and only if no row of the country is in force. |
| StatutoryTables.ScaleIsOneWholeSet | src/infrastructure/persistence/severance_params_repository.rs:111-136 | The scale is every row of that one date, each as often as stored, ascending, and no row of another date; its date is not after the day. |
| StatutoryTables.CasesAreOneWholeSet | src/infrastructure/persistence/severance_params_repository.rs:59-78 | The case parameters are those of the one date in force: a case is there if and only if a row of that date names it, with such a row's parameters, and under the primary key every row of the date is there with its own. |
| StatutoryTables.ScalesAreWholeSets | src/infrastructure/persistence/severance_params_repository.rs:53-88 | On success the resolved severance-pay scale and its date are those of the severance-pay table, the whole ascending set of its greatest date in force, and the service-pay scale and its date likewise those of its own table. |
| StatutoryTables.MonthsAreOfARow | src/infrastructure/persistence/severance_params_repository.rs:111-136 | The months looked up on a resolved scale are those of the row of that table and date with the greatest bound reached. |
| StatutoryTables.LaterRowsAreInvisible | src/infrastructure/persistence/severance_params_repository.rs:48-136 | Two databases that agree on the rows dated up to a day resolve the same set, or refuse alike, on that day. |
| StatutoryTables.InsertingLaterKeepsView | src/infrastructure/persistence/severance_params_repository.rs:97-103 | Publishing later-dated rows anywhere in a table leaves the earlier days' view as it was. |
| StatutoryTables.ResolvesExactlyWhenWhole | src/infrastructure/persistence/severance_params_repository.rs:48-88 | A day resolves if and only if each table has a set in force, both scales open at zero with distinct bounds and every known case has a row; the stamped date is not after the day. |
| StatutoryTables.ResolutionIgnoresOrder | src/infrastructure/persistence/severance_params_repository.rs:48-136 | With one row per case and date, what a day resolves to, the set or the refusal, does not depend on the order the rows are stored in. |
| Settings.SettingsReader.ApplySetting | src/infrastructure/persistence/severance_params_repository.rs:161-192 | One row either updates the settings it names or is refused, and a refused row leaves the settings as they were. |
| Settings.ReadSettings | src/infrastructure/persistence/severance_params_repository.rs:139-158 | The loop over the stored rows yields the fold of the rows over the defaults, or the first refusal. |
| Settings.SettingsIgnoreOrder | src/infrastructure/persistence/severance_params_repository.rs:139-192 | Over rows with distinct keys every order gives the same settings, or every order refuses. |
| Settings.SettingsReadAs | src/infrastructure/persistence/severance_params_repository.rs:139-192 | Accepted rows of distinct keys mean what each of the three keys says, and a setting no row names stays at no separation pay, a five-day week and annual leave. |
| Settings.WorkWeekIsWritten | src/infrastructure/persistence/severance_params_repository.rs:171-177 | A work week is read if and only if the text is a 5 or a 6, zeros and one plus sign aside. |
| Settings.CodeListRoundTrip | src/infrastructure/persistence/severance_params_repository.rs:178-188 | Any non-empty list of trimmed, non-empty, comma-free codes joined with commas parses back to itself. |
| Settings.AcceptedCodesAreClean | src/infrastructure/persistence/severance_params_repository.rs:178-188 | Every accepted value names clean codes only, and storing what was read reads the same again. |
| Inputs.JoinDateIsEarliest | src/application/service/offboarding_ports.rs:133-153 | The join date is the earliest of a live employment, and none if and only if the employee has no live employment. |
| Inputs.CurrentSalarySortsFirst | src/application/service/offboarding_ports.rs:155-178 | The salary is a salary row that no other sorts ahead of, and none if and only if the employee has no salary row. |
| Inputs.SalaryIgnoresOtherRows | src/application/service/offboarding_ports.rs:155-178 | A row that is no salary of the employee, recorded anywhere, leaves the salary read as it was. |
| Inputs.LeaveAddsUp | src/application/service/offboarding_ports.rs:180-210 | A balance row, recorded anywhere, adds what is left of it if and only if it is a live balance of the employee, of a paid-out type, that outlives the last working day. |
| Inputs.ConsumersChangeNoSettlement | src/application/service/settlement_computation.rs:47-84 | After payroll records the settlement total and the employment is flipped, the same breakdown, or the same refusal, is computed. |
| Assembly.AssembledFromItsRows | src/application/service/settlement_computation.rs:55-84 | A computed settlement is that of the earliest live join date, the amount of the latest live salary, the leave that outlives the last day under the types the settings name, and the statutory set of the last working day. |
| Assembly.FiguresStandInTheTables | src/application/service/settlement_computation.rs:55-84 | Its figures stand in the tables: multipliers, article and eligibility in a row of the case at the greatest date in force, and the months of each scale in the row of its own table, at its own greatest date in force, with the greatest bound reached. |
| Assembly.ComputesIff | src/application/service/settlement_computation.rs:55-84 | It is computed if and only if the reason is specific, a live employment and a salary exist, the settings are usable and the set resolves; the first three are refused in that order, each with its own error. |
| Exit.EnvelopeBalances | src/application/service/final_settlement_write_service.rs:465-513 | Every envelope balances; the payable credit is the last line, equals severance plus leave, and alone carries the party. |
| ExitEnvelopes.EnvelopeItemises | src/application/service/final_settlement_write_service.rs:465-486 | Account by account: the envelope debits the severance expense with exactly the severance and the leave expense with exactly the leave, credits both to the payable in the leaver's name, and touches no other account. |
| ExitEnvelopes.ConfirmSendsIff | src/application/service/final_settlement_write_service.rs:417-511 | An envelope is sent if and only if the settlement is an unposted draft without withholding that has something to pay, and it itemises that row under that company and settlement; a posted settlement, and no other, is answered without one. |
| Exit.OpenItemsCounts | src/application/service/offboarding_write_service.rs:343-362 | The open count is zero if and only if no live item of the offboarding is pending or blocked. |
| ExitService.OffboardingWriteService.Create | src/application/service/offboarding_write_service.rs:227-292 | An end-of-contract exit whose employee has no running or pending fixed term in the contract table is refused with nothing written; otherwise the row lands in progress. |
| ExitService.OffboardingWriteService.Clear | src/application/service/offboarding_write_service.rs:307-377 | A fresh clear happens only with no open live item; repeats and refusals write nothing. |
| ExitService.OffboardingWriteService.Close | src/application/service/offboarding_write_service.rs:393-510 | The settlement is computed before any write; the flip and its one event are committed together, or nothing is. The event carries the settlement assembled from the sources' own rows. |
| ExitService.GlSink.Post | src/application/service/final_settlement_write_service.rs:488-521 | The ledger's side as the idempotency key asks for it: a key already held is answered with its post and adds none. |
| ExitService.FinalSettlementWriteService.DraftFromOffboarding | src/application/service/final_settlement_write_service.rs:254-378 | The insert, arbitrated by the one-live-settlement index, and the back-link are one transaction; a losing draft writes nothing and names the winner. The row carries the settlement assembled from the sources' own rows. |
| ExitService.FinalSettlementWriteService.Confirm | src/application/service/final_settlement_write_service.rs:392-540 | The row is stamped only after the acknowledgement; a rejection changes nothing; a crash between the two leaves the post and the draft. What is posted itemises the row, account by account. |
| ExitService.FinalSettlementWriteService.MarkPaid | src/application/service/final_settlement_write_service.rs:552-593 | Only a confirmed settlement turns paid; a repeat answers that it already is. |
| ExitService.ConfirmIsItsSteps | src/application/service/final_settlement_write_service.rs:392-539 | A confirm that runs undisturbed leads where its three protocol steps lead, rows and ledger. |
| ExitRuns.ClosedMeansOneEvent | src/application/service/offboarding_write_service.rs:434-509 | In every run an offboarding is closed if and only if exactly one closed event names it, and otherwise none does. |
| ExitRuns.OneSettlementPerOffboarding | src/application/service/final_settlement_write_service.rs:304-378 | In every run, racing drafts included, a settlement belongs to an offboarding if and only if the offboarding names it, so there is at most one. |
| ExitRuns.LedgerAgreesWithSettlements | src/application/service/final_settlement_write_service.rs:392-539 | In every run a post id is stamped if and only if the settlement is confirmed or paid, and accounting then holds a post of it under that id and journal; every post balances and credits its settlement's net payable; no key is posted twice. |
| ExitRuns.NothingToPayNeverPosts | src/application/service/final_settlement_write_service.rs:454-457 | A settlement with nothing to pay stays a draft and is never booked, in every run. |
| ExitRuns.PostsBoundedByLostAcks | src/application/service/final_settlement_write_service.rs:515-538 | A settlement is booked at most once plus once for each acknowledgement lost in a crash. |
| ExitEnvelopes.PostsAreItemised | src/application/service/final_settlement_write_service.rs:392-540 | In every run every post was sent by a confirm of its settlement under its company and itemises, account by account, exactly the severance and the leave payout its row carries. |
| ExitEnvelopes.SettlementMoves | src/application/service/final_settlement_write_service.rs:512-593 | In every reachable state a settlement row changes in two ways alone: a stamp confirms a draft with the post and journal its own confirm was answered, and a remittance turns a confirmed row paid. |
| ExitEnvelopes.PaidIff | src/application/service/final_settlement_write_service.rs:572-593 | A remittance is recorded if and only if the row is confirmed; a paid row answers that it already is; the status alone changes. |
| ExitOrigins.ClearsIff | src/application/service/offboarding_write_service.rs:307-377 | A fresh clear happens if and only if the row is in progress and every live item of it is cleared, and it changes the status alone. |
| ExitOrigins.ClosesIff | src/application/service/offboarding_write_service.rs:393-510 | A close stages its event if and only if the row is cleared and its settlement can be computed; the flip and the event are both made, or neither. |
| ExitOrigins.DraftsIff | src/application/service/final_settlement_write_service.rs:304-378 | A draft is stored if and only if its offboarding has no settlement, as a draft with the amounts of its breakdown; a collision names the settlement that won. |
| ExitOrigins.ClosedWasCleared | src/application/service/offboarding_write_service.rs:227-445 | In every run every offboarding is as its create asked, with a running fixed term of the employee behind an end of contract, and one that is past progress, so every closed one, was cleared at a step that found it in progress with no live item pending or blocked. |
| ExitOrigins.ClosedEventIsAssembled | src/application/service/offboarding_write_service.rs:434-509 | In every run every closed event was staged by its own close of a cleared offboarding and carries the settlement assembled from the rows that stood then, under the statutory set of the last working day. |
| ExitOrigins.DraftedRowIsAssembled | src/application/service/final_settlement_write_service.rs:254-378 | In every run every settlement row, whatever its status, carries the settlement assembled from the rows that stood when its draft was read, and its amounts are that settlement's. |
| ExitBooking.OneCompanyBooksOnce | src/application/service/final_settlement_write_service.rs:392-539 | Under one company scope any interleaving of confirms, rejections, crashes and retries books a settlement at most once. |
| ExitBooking.BooksOnceIffOneCompany | src/application/service/final_settlement_write_service.rs:488-538 | From any reachable state with a payable draft that no confirm holds, booked already or not, every continuation books it at most once if and only if the companies its confirms run under, with those that have booked it, are at most one. |
| ExitBooking.PostedWithoutStampIff | src/application/service/final_settlement_write_service.rs:515-538 | In every run, for a settlement that no confirm holds, accounting has booked it and the row carries no post id if and only if an acknowledgement of it was lost and it is still a draft. |
| ExitBooking.TwoCompaniesBookTwice | src/application/service/final_settlement_write_service.rs:488-538 | From any reachable state with an unbooked payable draft that no confirm holds, a crash and a retry under a second company book it twice. |
| ExitAgreement.CloseAndDraftAgree | src/application/service/settlement_computation.rs:1-84 | From any reachable state in which an offboarding is neither closed nor drafted, closed first or drafted first, with payroll and employment consumers in between and the inputs unchanged between the two calls only, the settlement row carries the closed event's breakdown and amounts, and keeps it whatever happens later. |
| Months.RenewalNeverOverlaps | src/application/service/contract_write_service.rs:543-548 | A renewal starts after the running term and not before the decision, and follows without a gap if and only if the decision comes no later than the day after the term's end. |
| Months.MonthsBetweenIsGreatest | src/application/service/contract_write_service.rs:550-556 | The month count is the greatest n such that the same day of the month, n months on, is not past the end. |
| Months.MonthsAreSuperadditive | src/application/service/contract_write_service.rs:550-556 | Two disjoint terms in order never count more months than the stretch from the first start to the last end. |
| Months.TermLosesAMonthIff | src/application/service/contract_write_service.rs:550-556 | Counted up to its last day and not through it, a term loses one month if and only if the day after its end is its start's day of the month, or the first after a month too short for that day; otherwise none. |
| Months.ContiguousSplitLosesExactly | src/application/service/contract_write_service.rs:550-556 | A renewal on the next day loses of the count exactly an amount given by the days of the month alone, and never more than two. |
| Months.CutLosesAMonthIff | src/application/service/contract_write_service.rs:550-556 | Cutting a stretch at a day, with both pieces counted up to the cut, loses one month if and only if both pieces stop mid-month, or one does while the whole does not; otherwise none. |
| Months.MonthsAreLost | src/application/service/contract_write_service.rs:582-586 | The bounds are reached: two months at one renewal around the end of February, and one month of a single term of 12 or of 61 months. |
| ContractRuns.ChainsInEveryRun | src/application/service/contract_write_service.rs:322-453 | In every run, whatever verdicts arrive, late or twice: at most one active row per employment; links point back within one employment and employee, so no chain closes on itself; a row is superseded if and only if exactly one row names it. |
| ContractRuns.EndedMeansOneExit | src/application/service/contract_write_service.rs:419-451 | In every run a contract is ended if and only if it opened exactly one exit, for its employee, on its last day, with notice no later. |
| TermEnds.RecordedExitsAreLawful | src/application/service/offboarding_write_service.rs:236-260 | In every run over one contract table, an end-of-contract exit recorded by hand has a fixed term of its employee behind it. |
| TermEnds.OpenedExitsAreLawful | src/application/service/contract_write_service.rs:419-451 | As long as creation follows a policy that allows no indefinite contract with an end date, every exit an approved end opens has a fixed term behind it. |
| TermEnds.RunIsLawfulIff | src/application/service/contract_write_service.rs:419-451 | In a run, every exit an approved end opened has a fixed term behind it if and only if no approval of an end found an indefinite contract with an end date pending, which the verb can read under its lock. |
| TermEnds.PolicyIsLawfulIff | src/application/service/contract_write_service.rs:186-193 | For every policy on the terms that may be created, all runs that follow it open only such exits if and only if it allows no indefinite contract with a valid end date. |
| TermEnds.EndingPkwttOpensExit | src/application/service/contract_write_service.rs:186-193 | Any such contract, created, filed to end and approved, opens an end-of-contract exit for an employee who never had a fixed term. |
| ContractLedger.LedgerInEveryRun | src/application/service/contract_write_service.rs:368-382 | In every run a fixed-term row's cumulative months are the sum over its trailing run; the terms are ordered and disjoint; the sum never exceeds the months from the run's first start to this end, and for contiguous renewals falls short by at most two a renewal. |
| ContractLedger.LedgerLosesExactly | src/application/service/contract_write_service.rs:368-382 | In every run the months the terms last, each through its last day, exceed the ledger by exactly one for each term that ends on a whole month; a stretch without gaps exceeds it by that and one for each renewal that cuts off part of a month; the ledger is right if and only if there is none of either. |
| ContractLedger.CapReadsTrue | src/application/service/contract_write_service.rs:378-392 | A ledger past the cap means the terms and the stretch really lasted past it; it is past the cap if and only if the terms lasted past it by more than what the ledger loses, which is at most one month a term, and for a stretch of n terms without gaps at most 2n-1. |
| ContractLedger.CapCanBeMissed | src/application/service/contract_write_service.rs:196-201 | One term of 61 whole months is stored as 60 and does not read past the cap. |
| ContractRuns.DecisionsComeFromFilings | src/application/service/contract_write_service.rs:235-453 | When verdicts carry filings, every decided contract was decided as some filing made for it says, and one filed once as that filing says; only fixed terms have successors. |
| ContractOrigins.RowsAreAsAskedFor | src/application/service/contract_write_service.rs:175-453 | In every run whose verdicts carry filings, a row without a predecessor has the terms of a create, and one with a predecessor is what the filing that decided that contract says: for a renewal a fixed term to exactly the end filed, from the day after the running term or the day of the decision; for a conversion an indefinite contract from that day. |
| ContractOrigins.ExitsAreAsDecided | src/application/service/contract_write_service.rs:419-451 | And every exit an approved end opened is that contract's, on its last day, with notice on the day of the approval or on the last day when that was earlier. |
| ContractOrigins.RenewalIsCounted | src/application/service/contract_write_service.rs:361-404 | A fixed term of 2026 renewed to the end of 2027 is followed by one from 1 January 2027 to that end, and the run of two terms counts 11 + 11 months. |
| ContractOrigins.AppliedAsFiled | src/application/service/contract_write_service.rs:343-453 | An applied decision leaves exactly the superseded contract and the one filed, or the ended contract and its exit. |
| ContractOrigins.ContractIsStoredIff | src/application/service/contract_write_service.rs:175-230 | A contract is stored if and only if a fixed term has an end, an end comes after the start and the employment has no active contract; it is stored last, active and as asked. |
| ContractOrigins.DecisionIsFiledIff | src/application/service/contract_write_service.rs:235-316 | A decision is filed if and only if the contract is active, the engine takes it and it fits: a fixed term renews to a later end or converts, a term with an end ends. |
| ContractOrigins.DecisionIsReopenedIff | src/application/service/contract_write_service.rs:464-482 | A refusal reopens a contract if and only if it is pending and no other of its employment is active, and changes its status alone. |
| ContractVerdicts.DecidesIff | src/application/service/contract_write_service.rs:343-377 | A delivered approval decides its contract if and only if it finds the row pending, its outcome still fits the row and the day, and no other row of the employment is active. |
| ContractVerdicts.DecidedAsAwaitedIff | src/application/service/contract_write_service.rs:235-453 | In every run in which verdicts carry filings, every decided contract was decided by the filing it waited for if and only if every approval that found its contract ready to be decided was, on delivery, the one awaited. |
| ContractVerdicts.OrphanFilingIsApplied | src/application/service/contract_write_service.rs:295-359 | From any reachable store: a filing whose call died before its commit can be applied in place of the one the row waits for. |
| ContractVerdicts.RefusalReplayReopens | src/application/service/contract_write_service.rs:464-475 | From any reachable store: a refused verdict delivered again reopens a row that waits for another filing. |
| ContractVerdicts.ReplayedRefusalDecidesWrongly | src/application/service/contract_write_service.rs:322-482 | From any reachable store: a refusal delivered twice, and every filing otherwise answered once, ends a contract that waits to be renewed. |
| ContractVerdicts.RefusedFilingIsApplied | src/application/service/contract_write_service.rs:322-482 | From any reachable store: a filing refused and then approved renews a contract that waits for its end. |
| ContractVerdicts.OrderlyVerdictsAreAwaited | src/application/service/contract_write_service.rs:322-482 | A discipline that suffices without comparing requests: no lost filing, one verdict for each and a refusal delivered once; approvals may be repeated. |
| ContractRuns.ReplayIsInert | src/application/service/contract_write_service.rs:343-347 | Once a decision is applied, any further approved verdict for the row changes nothing and says so. |
| ContractRuns.FiledDecisionAppliesIff | src/application/service/contract_write_service.rs:235-377 | A filed decision can be applied on a later day if and only if it is no renewal, or its new end still lies after the renewal's start on that day. |
| ContractRuns.FiledDecisionAppliesInTerm | src/application/service/contract_write_service.rs:543-548 | So it applies on the day it is filed and on every later day of the running term. |
| ContractRuns.RefusalUndoesFiling | src/application/service/contract_write_service.rs:464-475 | A refusal undoes the filing: the store is again what it was. |
| ContractService.ContractWriteService.Create | src/application/service/contract_write_service.rs:175-230 | A contract is stored active with its own months, or refused for its terms or by the one-active index with nothing written. |
| ContractService.ContractWriteService.FileDecision | src/application/service/contract_write_service.rs:235-316 | The row turns pending only after the engine took a filing that fits the contract; every refusal leaves it as it was. |
| ContractService.ContractWriteService.ApplyDecision | src/application/service/contract_write_service.rs:322-460 | The successor and the superseded row, or the ended row and its exit, are written together, each as the decision says: a fixed term to the new end, an indefinite contract, or an exit; replays, refusals and a broken index write nothing. |
| ContractService.ContractWriteService.RefuseDecision | src/application/service/contract_write_service.rs:464-482 | A pending row turns active again unless another row became active meanwhile. |
| ContractService.ContractWriteService.FetchDue | src/application/service/contract_write_service.rs:505-521 | The rows taken are due and unheld, each once, earliest ends first, up to the limit, and none left behind ends before one taken. |
| ContractService.ContractWriteService.RemindDueFrom | src/application/service/contract_write_service.rs:497-536 | The tick marks exactly the rows of such a batch and sends one notice for each, in order. |
| Reminders.TickShrinksDue | src/application/service/contract_write_service.rs:505-535 | A tick that nothing contends with lowers the number of due rows by 100, or to zero. |
| Reminders.TicksDrain | src/application/service/contract_write_service.rs:505-535 | n ticks at one fixed window lower it by 100 n, or to zero, so repeated ticks drain the window. |
| Reminders.NoticesInEveryRun | src/application/service/contract_write_service.rs:505-535 | In every run of overlapping ticks that may die and skip whatever rows others hold, no two ticks hold the same contract, and the notices for a contract are one for its mark, one for a tick in flight and one for each tick that sent one and died. |
| Reminders.RemindedAtMostOnceIff | src/application/service/contract_write_service.rs:484-536 | With no tick in flight, a contract was notified exactly as often as it is marked if and only if no tick that notified it died; at most once if and only if none died, or one did and no tick came back to it. |
| Reminders.StampIsFinal | src/application/service/contract_write_service.rs:505-535 | A mark once set is never changed. |
| Reminders.DeadTickRepeatsItsNotice | src/application/service/contract_write_service.rs:522-534 | A tick that dies after a notice is followed by the same notice again. |
| Reminders.VerbsAreOtherWrites | src/application/service/contract_write_service.rs:175-482 | The other contract verbs never touch the reminder mark and change no row a tick holds. |
| ReminderOrigins.TickReminds | src/application/service/contract_write_service.rs:497-536 | A tick takes and marks, of the contracts nobody holds, active unmarked fixed terms that end within the window, earliest first and at most a hundred; one that wants a reminder is left behind only when a hundred that end no later are taken. |
| ReminderOrigins.RemindersAreWanted | src/application/service/contract_write_service.rs:505-535 | In every run of overlapping ticks a notice goes out only for a contract that wanted a reminder when a tick took it, and a mark carries the instant of such a tick. |
| PromotionService.PromotionWriteService.Create | src/application/service/promotion_write_service.rs:199-327 | Insert, file, then link or take back: a broken filing leaves the table as it was when the delete works, and a failed link leaves the row unlinked. |
| PromotionService.PromotionWriteService.Approve | src/application/service/promotion_write_service.rs:341-437 | The link must exist and its verdict read as approved before the status is looked at; only then does a pending row turn approved. |
| PromotionService.PromotionWriteService.Reject | src/application/service/promotion_write_service.rs:458-475 | Exactly a pending row turns rejected. |
| PromotionService.PromotionWriteService.Effect | src/application/service/promotion_write_service.rs:477-602 | An approved promotion whose date is reached turns effective and stages its event in the same write; every other call writes nothing. |
| PromotionRuns.ApprovedOnlyOnItsVerdict | src/application/service/promotion_write_service.rs:369-436 | In every run an approved or effective promotion is linked to a request that was filed for it and that an approve call read as approved. |
| PromotionRuns.EffectiveMeansOneEvent | src/application/service/promotion_write_service.rs:530-601 | In every run a promotion is effective if and only if exactly one event names it; the event carries the row's own move and was staged no earlier than the effective date. |
| PromotionRuns.StepsSpareDecidedRows | src/application/service/promotion_write_service.rs:298-310 | In every run the only rows ever removed are unlinked pending or rejected ones, by their own create; a row that stays moves only along the lifecycle and never changes what it is about. |
| PromotionRuns.HalfMadeIffStranded | src/application/service/promotion_write_service.rs:269-327 | In every run a row that nobody will link exists if and only if its create died or failed to link, met an unwired port, or failed its compensating delete. |
| PromotionRuns.HalfMadeIsNeverApproved | src/application/service/promotion_write_service.rs:372-388 | Such a row is never approved nor effective and never stages an event, in any continuation. |
| PromotionRuns.RefusedCreateLeavesNothing | src/application/service/promotion_write_service.rs:204-269 | A create without a type, or whose appraisal does not hold, fails and leaves the table as it was. |
| PromotionRuns.FailedCreateLeavesNothingIff | src/application/service/promotion_write_service.rs:298-310 | A create fails if and only if it is refused before its insert, its filing breaks or its link fails; and it leaves the table as it was if and only if it was refused, or its filing broke and the delete worked. |
| PromotionRuns.CreateIsItsSteps | src/application/service/promotion_write_service.rs:199-327 | An undisturbed create leads where its three protocol steps lead. |
| PromotionOrigins.InsertsIff | src/application/service/promotion_write_service.rs:199-269 | A create reaches its filing if and only if any appraisal named is vouched for, a type is given and no salary is negative; the row lands pending with the type, the move and the rating asked for and nothing behind it. |
| PromotionOrigins.ApprovesIff | src/application/service/promotion_write_service.rs:341-437 | An approval is granted if and only if the row is pending with a request behind it that reads approved; it stamps the approver and changes nothing else. |
| PromotionOrigins.EffectsIff | src/application/service/promotion_write_service.rs:477-602 | A move takes effect if and only if a company is bound, the row is approved and its day has come, that day included; the event carries the row's own type and move. |
| PromotionOrigins.RowsAreAsAskedFor | src/application/service/promotion_write_service.rs:199-437 | In every run every promotion has the type, move and rating its own create asked for, a link only to a request filed for it and, past the gate, the approver of an approval that read it as granted. |
| PromotionOrigins.HandoffsCarryTheMoveAsked | src/application/service/promotion_write_service.rs:530-601 | In every run every handoff event carries the type and move given to the create of its promotion, and the company, day and id of the effect that staged it. |
| DisciplineService.DisciplineWriteService.Issue | src/application/service/discipline_write_service.rs:154-219 | A valid letter is stored as issued with the employee's active counts, never refused on the ladder; an invalid one writes nothing. |
| DisciplineService.DisciplineWriteService.Acknowledge | src/application/service/discipline_write_service.rs:223-245 | Only the employee's own open record is acknowledged. |
| DisciplineService.DisciplineWriteService.Contest | src/application/service/discipline_write_service.rs:250-308 | Only the employee's own open record turns contested, and only after the engine took the filing. |
| DisciplineService.DisciplineWriteService.MoveStatus | src/application/service/discipline_write_service.rs:330-367 | The move's answer for every status it may find, and a cancelled row left untouched. |
| DisciplineService.DisciplineWriteService.ContestUpheld | src/application/service/discipline_write_service.rs:312-314 | An undivided upheld verdict cancels a contested record and nothing else. |
| DisciplineService.DisciplineWriteService.ContestRefused | src/application/service/discipline_write_service.rs:318-320 | An undivided refusal returns a contested record to pending and touches nothing else. |
| DisciplineService.DisciplineWriteService.Cancel | src/application/service/discipline_write_service.rs:323-328 | HR's cancel needs a reason, and on a cancelled record keeps the first one. |
| DisciplineRuns.CancelledIffReason | src/application/service/discipline_write_service.rs:323-367 | In every run a record is cancelled if and only if it carries a non-blank reason, and a contested record has its contest on file. |
| DisciplineRuns.FiledContestIsRecordedIff | src/application/service/discipline_write_service.rs:278-308 | A contest the engine took is on file; the record is contested if and only if the call did not die before its commit, and else is as it was. |
| DisciplineRuns.CancelledIsFinal | src/application/service/discipline_write_service.rs:356-361 | A cancelled record never changes again, whatever read halves are still in flight: the first reason stands. |
| DisciplineRuns.ExpiredStaysInactive | src/application/service/discipline_write_service.rs:24-29 | A record that has expired is never active again. |
| DisciplineRuns.SnapshotsAreWhatIssueRead | src/application/service/discipline_write_service.rs:173-209 | In every run each letter has the terms its issue asked for, and its snapshots count the employee's letters of each lower level that were neither contested, cancelled nor expired when the issue read them, at the letter's own instant. |
| DisciplineRuns.RacingIssuesMissEachOther | src/application/service/discipline_write_service.rs:173-209 | Two letters issued at once: neither counts the other, although one is stored first. |
| DisciplineRuns.SnapshotHoldsAtInsertIff | src/application/service/discipline_write_service.rs:173-209 | With no contest or move written between the read and the insert, each stored count equals the count the insert finds if and only if no letter of that employee and level, unexpired at the letter's date, was stored in between. |
| DisciplineRuns.UndividedIssueCountsTrue | src/application/service/discipline_write_service.rs:173-209 | An issue that nothing comes between stamps the counts its insert finds. |
| DisciplineRuns.OtherStepsFollowTheLifecycle | src/application/service/discipline_write_service.rs:5-11 | Every step but a move's write half follows the documented lifecycle. |
| DisciplineRuns.WriteFollowsTheLifecycleIff | src/application/service/discipline_write_service.rs:330-367 | A write half follows it if and only if it is HR's cancel, or the record is still contested, already cancelled, or already where the move leads. |
| DisciplineRuns.UndividedMovesFollowTheLifecycle | src/application/service/discipline_write_service.rs:330-367 | A move that nothing comes between always follows it. |
| DisciplineRuns.StaleRefusalUndoesAcknowledgement | src/application/service/discipline_write_service.rs:318-367 | A refusal delivered twice can take the employee's acknowledgement back, leaving its stamp. |
| DisciplineOrigins.IssuesIff | src/application/service/discipline_write_service.rs:154-219 | A letter is issued if and only if it says something and runs past the present; it carries the counts of the employee's letters that are neither contested, cancelled nor expired. |
| DisciplineOrigins.ContestLowersTheLadder | src/application/service/discipline_write_service.rs:24-308 | A contested letter counts for nobody: a contest lowers the count of its own employee and level by one while the letter is unexpired, and no other count. |
| DisciplineOrigins.RefusalRestoresTheLadder | src/application/service/discipline_write_service.rs:24-367 | A refused contest puts the letter back on the ladder; an upheld one does not. |
| DisciplineOrigins.RecordsHaveTheirHistory | src/application/service/discipline_write_service.rs:223-367 | In every run every record got where it stands by a call that may move it there: its employee's acknowledgement at the instant stamped, its employee's filed contest, a review's refusal, or a cancellation for the reason stamped, HR's own or that of an upheld contest. |
| Onboardings.ChecklistMatchesTemplate | src/application/service/onboarding_write_service.rs:212-234 | The checklist holds each task exactly as often as the template has live steps for it. |
| Onboardings.CompletesIff | src/application/service/onboarding_write_service.rs:257-327 | A completion is granted if and only if a company is bound, the onboarding is in progress and every live task of it is done or skipped. |
| Onboardings.FreshJourneyCompletesIff | src/application/service/onboarding_write_service.rs:163-327 | A journey just opened can be completed if and only if its template has no live step, or there is none. |
| OnboardingOrigins.ChecklistIsTheSteps | src/application/service/onboarding_write_service.rs:206-234 | The checklist is the live steps of the template in order, each once, with its title, its category exactly when the text names one, due its own number of days after the start, and pending. |
| OnboardingOrigins.JourneyIsAsAsked | src/application/service/onboarding_write_service.rs:163-238 | A create stores the journey asked for, by the named template or else a live, active default, with that template's checklist; it has none only when there is no such template, and no other task changes. |
| OnboardingOrigins.ConfirmsIff | src/application/service/onboarding_write_service.rs:380-482 | A probation is confirmed if and only if a company is bound, the journey is completed and unconfirmed, an end is planned, and that day has come or the call is forced. |
| OnboardingService.OnboardingWriteService.Create | src/application/service/onboarding_write_service.rs:163-238 | The row and its whole checklist are stored together, from the named template or else the default. |
| OnboardingService.OnboardingWriteService.Complete | src/application/service/onboarding_write_service.rs:257-364 | The flip and its one event are written together, or nothing is. |
| OnboardingService.OnboardingWriteService.Confirm | src/application/service/onboarding_write_service.rs:380-482 | The stamp and its one event are written together, behind the completed, planned and date gates, or nothing is. |
| OnboardingRuns.HandoffsExactlyOnce | src/application/service/onboarding_write_service.rs:295-481 | In every run an onboarding is completed, or its probation confirmed, if and only if exactly one event of that kind names it, and a confirmation always follows the completion. |
| OnboardingRuns.UnforcedConfirmationsWaitForTheDate | src/application/service/onboarding_write_service.rs:436-452 | In every run in which nobody forces one, no probation is confirmed before its planned end. |
| OnboardingOrigins.JourneysAreAsAskedFor | src/application/service/onboarding_write_service.rs:163-238 | In every run every journey is as its create asked, by the template that applied then. |
| OnboardingOrigins.HandoffsAreEarned | src/application/service/onboarding_write_service.rs:257-482 | In every run every handoff was staged by its own call, with its company, day and id and the journey's employee: a completion at a step that found no live task open, a confirmation at a step that found the journey completed and the planned end reached, or was forced. |

## Left out

- Decimal limits: amounts are exact reals, so the 28-digit limit of the decimal type, overflow and column widths are not modelled; the 4-digit truncation of the tenure and the rounding to sen are.
- Integer and calendar limits: years, month counts and offsets are unbounded; the last representable date is not.
- Settings.ReadSettings: the decimal parser is a parameter, any function from text to an optional number; its grammar is not part of this model.
- Inputs.CurrentSalarySortsFirst: rows that tie in both sort keys are taken in storage order; the source leaves that order open. The default template is picked the same way.
- The reads of one settlement computation are taken at one instant; a change committed between two of its reads is not modelled.
- ExitService.GlSink.Post: accounting's deduplication is not in the repository; it is modelled as the idempotency key's comment asks for it.
- TermEnds.OpenedExitsAreLawful: an exit that an approved end opens is kept beside the contracts; its clearance and settlement are those of an exit recorded by hand and are not run together with the contract verbs.
- ContractRuns.DecisionsComeFromFilings: the approvals engine is modelled by what it keeps (the filings) and delivers; its policy is not.
- Records added by other modules' write endpoints, generic patches, soft deletes and imports bypass the verbs; the statements about runs start from empty tables and cover the verbs, with clearance items, onboarding tasks and settlement inputs free to change.
- Tenancy: organisation scopes, row-level security, the request pool and the company key of outbox rows; the company is a parameter where a verb keys on it (confirm, effect, complete, confirm probation), and the refusal of close and draft without one is not modelled.
- The parsing of text enumerations (reasons, contract types, levels, outcomes) and of a missing offboarding reason; values arrive parsed.
- The JSON of outbox payloads, error codes, HTTP statuses and messages, logging, and the notification sinks other than the reminder's.
- Documents, templates, contract numbers, audit columns and other fields no verb branches on.
- The checkpoint verbs, exit interviews, generated services, repositories and handlers: accessors and single guards.
- The statutory numbers: any set the check accepts is covered.
