# Billing operations, verified

A Dafny 4.11 model of the code that decides when and whether money documents of a badminton academy platform are
written: the monthly invoice scheduler, the retirement of the legacy `payments` collection into the ledger, four
smaller reconcilers and the billing rules form. `dafny verify dfyconfig.toml` checks all of it.

## How the model is built

Each program appears twice: once in the source's own form (classes over the collections and dictionaries it updates,
methods with its loops and branches) and once as functions on values. Every method is proved equal to its function,
and the properties are then proved about the functions, over every input and every run. What a function reads of its
input (a billing day, a status word, a bound, a declared field) is stated once more about the whole operation, from the
input's own fields and the literal words and numbers, so that a wrong reading cannot agree with itself.

| area | files |
|---|---|
| monthly invoice generation | `Periods`, `Scheduler`, `SchedulerSteps`, `SchedulerFields`, `SchedulerRuns`, `SchedulerMonths`, `SchedulerIndependence` |
| legacy payment retirement | `LegacyPayments`, `Backfill`, `BackfillProperties`, `LegacyMapping`, `AuditReport`, `CreditAudit`, `BillingAudit`, `AuditProperties`, `BackfillPassesAudit`, `Archive`, `ArchiveProperties` |
| reserved seats | `ReservedSeats`, `SeatProperties` |
| account-credit lines | `CreditLines`, `CreditLineProperties` |
| membership backfill | `Memberships`, `MembershipProperties` |
| Sentry alert rules | `AlertRules`, `AlertRuleProperties`, `AlertRuleConvergence` |
| billing rules form | `Money`, `DayLists`, `BillingRulesForm`, `FormProperties`, `FormEdits` |
| shared | `Wrappers`, `Arithmetic`, `Decimal`, `Text`, `Collections`, `Reordering` |

Everything a program calls but does not contain is a value handed in: a read or a `generate` that may raise, a write
that may be lost after the server stored it, the writes production makes between two reads, the number of writes a
process survives, the server's reply to a rule update. A statement for all values is therefore a statement about all
failure patterns and interleavings. Collections are sequences of documents with an academy and an id (the seats and the
alert rules are maps); amounts are whole cents, percents whole hundredths.

## Where code and documentation disagree

The model follows the code. Each point below is a proved statement.

- The generation-history test (main.py:2459-2478) is documented to keep an academy from being billed for a month before
  its first one. It also counts the record of the current month, so the month before the first is generated if and only
  if a later tick of that first month gets past its gate (`BillsBeforeFirstIff`, `TwoTicksReachBack`). The bound the
  code really has is one month (`ReachBackIsOneMonth`).
- The reserved-seats compare-and-set is documented never to clobber a concurrent reserve or release
  (reconcile_reserved_seats.py:16-19). What it protects is the counter value, not the count it writes: a corrected session
  ends off by the counter moves after the write less the enrollment moves since the second read (`EveryInterleaving`,
  `CorrectedIsExactIff`). So a move between the two reads is clobbered once it is undone (`MoveBetweenReadsClobbers`), and
  so is every confirmed offer or hold after them, which changes the enrollments without the counter
  (`ConfirmAfterReadsClobbers`). With counter and enrollments moving together, only the moves between the reads count
  (`CoupledMovesLeaveGap`).
- "A second run finds zero deltas" (reconcile_reserved_seats.py:26) fails once waitlist promotion holds a seat for an
  offer, because a held seat is reserved but not an active enrollment (`SecondRunCleanIff`, `SettleRaisesDriftIff`).
- The archive takes the insert of a row whose string id is already archived for a rerun's duplicate
  (archive_legacy_payments.py:113-121). Its own index covers blank ids, the one on `payments` does not
  (migrations/0187_billing_ids_unique_per_academy.py:117-125), so two rows with `payment_id` "" lose the second one:
  nothing blocks them and it is deleted without a copy (`TwoBlankIdsLoseARow`, `TwoBlankIdsAreNotBlocked`). Exactly when a
  run loses nothing is `ArchiveLosesNothingIff` and, under the real index, `OneBlankIdLosesNothing`.
- The archive accepts a row that has no `payment_id` field, archives it, and then raises when it reads the field for the
  delete (archive_legacy_payments.py:119-121). Every rerun adds another copy and stops there (`ApplyCompletesIff`,
  `MissingFieldStopsEveryRerun`). A row whose field is null is archived twice by a rerun after a crash between its insert
  and its delete (`CrashThenRerunIff`).
- A legacy row with any truthy deletion flag is never mapped by the backfill and therefore blocks the archive. The
  retirement audit passes over a row only if its flag is literally true, so the two judges differ on exactly those rows
  (`LegacyRowJudgedAlikeIff`, `ArchiveAndAuditAgreeIff`): with nothing else left, the audit retires a collection that the
  archive is blocked on, and its four zero counts do not mean that `payments` is empty (`RetiredIff`).
- A mapped row with amount zero, a negative discount and no final amount gets a header that the billing-consistency
  audit rejects; every other mapped row passes (`HeaderAgreesIff`, `BackfillPassesAuditIff`).
- "YYYY-MM" strings sort in month order from the year 1000 on; the month before January 1000 is printed with three
  digits (`PeriodOrderBreaksBelowYear1000`).
- The credit-line repair keeps an invoice's total on every recompute unless the discount is negative, or a tuition-discount
  line has a positive amount, and discount and credit do not swallow the difference; it keeps the balance along with
  the total unless that is negative (`RepairedInvoiceKeepsHeaderIff`, `ApplyRepairs`).
- A membership backfilled for a user who has neither `user_id` nor `auth_uid` gets the document `_id`, under which the
  audit never looks, so the user stays on the missing list (`ReauditListsSkippedIff`).
- A membership backfill applied twice goes for such a user's insert again, so it is idempotent only without them
  (`SecondApplyInsertsNothingIff`); the (academy, user) index, which the model leaves out, then refuses the row.
- Alert-rule items are compared after sorting, but their keys are first cut down by position. Items that the server
  returns in another order therefore agree with what was sent only if every position gets an item with the same compared
  keys (`ReorderedItemsAgreeIff`).
- Reconciling the alert rules is meant to end in a plan of no-ops. With a name declared twice in a project it does only
  if the rule left standing under that name agrees with every payload declared there (`ApplySettlesIff`); on a server that
  echoes exactly, the payloads and the rule listed before decide that (`ExactApplySettlesIff`). Two rules of one name
  settle within two applies or never: only if the rule listed at first agrees with both, or one payload agrees with the
  other (`PairSettlesIff`). That some stored rule could agree with both (`SameNameSettlesIff`) is not enough
  (`AgreeableYetUnreachable`).

## Model

| member | source | states |
|---|---|---|
| Periods.PreviousPeriodIsPriorMonth | backend/v2/main.py:2433-2436 | The previous period of a four-digit-year month is the month before it, across year ends: the function inverts "next month". |
| Periods.PeriodParts | backend/v2/main.py:2594 | A month prints as its four-digit year, a dash and the two-digit number of the month. |
| Periods.PeriodInjective | backend/v2/main.py:2594-2595 | Different months have different period strings, so a run record names exactly one month. |
| Periods.PeriodOrderIsMonthOrder | backend/v2/main.py:2718 | Sorting "YYYY-MM" strings sorts months, which is what makes the email sweep go oldest first. |
| Periods.PeriodOrderBreaksBelowYear1000 | backend/v2/main.py:2433-2436 | The string order is wrong at January 1000, whose previous period has a three-digit year. |
| Scheduler.GenerationDb.RecordGeneration | backend/v2/main.py:2481-2518 | Never raises; reports success exactly for an acknowledged or duplicate-key write, and then the record is there; a failed write may or may not have stored it. |
| Scheduler.GenerationDb.DuePeriods | backend/v2/main.py:2780-2805 | Returns the owed periods, oldest first with their catch-up flags, or raises exactly when a read it really makes fails; an unrecorded current month is due from the billing day of the academy's settings on (1 when they are unreadable) and a catch-up after it. |
| Scheduler.EmailGeneratedInvoices | backend/v2/main.py:2737-2768 | One send call per period; a raise leaves the totals alone, a result adds its four counts, the records never change. |
| Scheduler.GeneratePeriod | backend/v2/main.py:2639-2701 | One period: the call is logged, a raise changes nothing else, a partial run is counted and not recorded, a clean run writes its record. |
| Scheduler.GenerateDuePeriods | backend/v2/main.py:2637-2701 | The due loop equals the fold of its periods; a raise in one period does not stop the next. |
| Scheduler.SweepEmails | backend/v2/main.py:2718-2725 | Sends every swept period once, in the given order. |
| Scheduler.ServeAcademy | backend/v2/main.py:2617-2725 | One academy: nothing at all behind a failed gate, else its due periods, its count and its sweep. |
| Scheduler.RunMonthlyInvoiceGeneration | backend/v2/main.py:2546-2734 | A tick over a list of academies equals the fold of single-academy steps at the tick's time: records, calls and totals. |
| Scheduler.RunEachAcademyLocally | backend/v2/main.py:1759-1787 | One single-academy tick at each academy's own time, with totals added key by key, has the effect of one run over those steps. |
| Scheduler.SchedulerAcademyIds | backend/v2/main.py:2808-2820 | The non-blank listed ids, each where it first comes, then the default unless it is listed: no duplicates and nothing else. |
| SchedulerSteps.DueLoopIsClosedForm | backend/v2/main.py:2639-2701 | The due loop makes exactly the due generation calls, oldest first, records exactly the healthy periods and reports exactly those that returned. |
| SchedulerSteps.SweepIsOldestFirst | backend/v2/main.py:2718 | The sweep visits the current period once, and before it the prior one once if and only if this step generated it. |
| SchedulerSteps.StepIsClosedForm | backend/v2/main.py:2616-2725 | A whole step: its calls are the due generations followed by the sweep, and it adds exactly the due periods whose run was clean and whose record was stored. |
| SchedulerSteps.RunIsAccounted | backend/v2/main.py:2639-2725 | Over any run: counted period runs = recorded + partial + lost-record runs, and academies <= period runs <= 2 x academies. |
| SchedulerFields.StepGenerates | backend/v2/main.py:2780-2805 | From the records, the clock and the settings alone: a step generates this month exactly when it is past its gate, the month is unrecorded and the day has reached the academy's billing day, the month before exactly when it is unrecorded and the academy has any record, and nothing else. |
| SchedulerFields.StepRecords | backend/v2/main.py:2639-2673 | A step adds exactly the owed periods whose run returned without failed repairs and whose record was acknowledged, a duplicate, or stored in spite of an error. |
| SchedulerFields.StepTotals | backend/v2/main.py:2655-2725 | The totals of a step are the sums, count by count, of what each returned run and each send reports; a run after the billing day and one of the month before are catch-ups. |
| SchedulerFields.BillingDayDecides | backend/v2/main.py:2521-2543 | With a billing day set, this month is generated from that day on and counted as a catch-up after it; without one, the first of the month takes its place. |
| SchedulerRuns.RunIsClosedForm | backend/v2/main.py:2616-2725 | The records and generation calls of any run are those the run-level properties talk about. |
| SchedulerRuns.RecordsOnlyGrow | backend/v2/main.py:2481-2518 | Between any two points of a run the record set only grows. |
| SchedulerRuns.StepGenerationFacts | backend/v2/main.py:2797-2804 | A step never generates a recorded period and generates no period twice. |
| SchedulerRuns.CallOutcome | backend/v2/main.py:2640-2673 | A generation call leaves a record exactly when it neither raised, nor was partial, nor lost its record write. |
| SchedulerRuns.GenerationStopsAtRecord | backend/v2/main.py:2639-2673 | Over any run: no call for a recorded period; every call for a period but possibly the last raised, was partial or lost its record; the final records are the initial ones plus the periods of the calls that left one. |
| SchedulerMonths.RecordedByMonth | backend/v2/main.py:2780-2805 | A step records month m if and only if its gate reads succeed and m is the due current or prior month with a clean, stored run. |
| SchedulerMonths.GeneratedByMonth | backend/v2/main.py:2780-2805 | A step calls generate for month m if and only if its gate reads succeed and m is due as the current or the prior month. |
| SchedulerMonths.FirstRecordIsOwnMonth | backend/v2/main.py:2459-2478 | The first record an academy ever gets is of the month of the tick that made it, and nothing else is recorded for it then. |
| SchedulerMonths.NoHistoryNoCatchUp | backend/v2/main.py:2797-2800 | A tick that finds no record for its academy generates at most the current month. |
| SchedulerMonths.ReachBackIsOneMonth | backend/v2/main.py:2459-2478 | In any run with a non-decreasing academy clock no recorded month is more than one month before the first recorded one. |
| SchedulerMonths.TickReachesBackIff | backend/v2/main.py:2797-2800 | With `first` the earliest record, a tick generates the month before it if and only if its gate reads succeed and it still runs in month `first`. |
| SchedulerMonths.BillsBeforeFirstIff | backend/v2/main.py:2465-2478 | The documented "never before the first month" fails over a run exactly when a later tick of the first recorded month gets past its gate. |
| SchedulerMonths.TwoTicksReachBack | backend/v2/main.py:2797-2804 | In every month, two healthy ticks on consecutive days of an academy's first month record that month and the one before: the bound is attained. |
| SchedulerMonths.HealthyTickRecords | backend/v2/main.py:2639-2673 | One healthy tick records its month even when the other due period of the tick fails. |
| SchedulerMonths.NoLostMonth | backend/v2/main.py:2594-2673 | Every month after the first recorded one ends up recorded if and only if some tick in it on or after billing day, or anywhere in the next month, serves it healthily. |
| SchedulerMonths.ClosedMonthIsNeverGenerated | backend/v2/main.py:2594-2595 | Once the month after m is over, no later tick of the academy generates m. |
| SchedulerIndependence.StepIsLocal | backend/v2/main.py:2616-2725 | A step depends on no other academy's records and adds none for another academy. |
| SchedulerIndependence.RunIsSumOfSteps | backend/v2/main.py:2616-2725 | A run over distinct academies adds the union of what each would add alone, and sums what each would count alone. |
| SchedulerIndependence.AcademiesAreIndependent | backend/v2/main.py:1775-1784 | Serving distinct academies in any order, each at its own time, gives the same records and summed totals, and each sees exactly its own calls, whichever others raise. |
| LegacyPayments.MappedIsBalanced | backend/scripts/backfill_p4_legacy_payments.py:151-273 | A mapped row's money adds up: line = subtotal, received = allocated + unapplied, balance = total - allocated, paid exactly when nothing is due, 0 <= balance <= total. |
| LegacyPayments.MappedIsLinked | backend/scripts/backfill_p4_legacy_payments.py:186-266 | The four records of a row carry its academy, the ids derived from its payment id, and point at each other. |
| LegacyPayments.IdsAreInjective | backend/scripts/backfill_p4_legacy_payments.py:186-187 | Different payment ids give different invoice, line, payment and allocation ids. |
| LegacyMapping.IntCentsMeans | backend/scripts/backfill_p4_legacy_payments.py:89-111 | A figure reads as its integer, an absent or empty one as 0, a string as the signed digits left by stripping, and anything else raises. |
| LegacyMapping.MapsIff | backend/scripts/backfill_p4_legacy_payments.py:151-168 | A row is left out exactly when its lower-cased status is none of the nine words, mapped exactly when it is one of them and every figure can be read, and wanted in the ledger unless it is also marked deleted. |
| LegacyMapping.TruthyMeans | backend/scripts/backfill_p4_legacy_payments.py:378-381 | Marked deleted is any value but absent, false, zero and the empty string. |
| LegacyMapping.MappedHeader | backend/scripts/backfill_p4_legacy_payments.py:114-119 | The total is max(final, 0) when there is a final amount and max(amount - discount, 0) otherwise; subtotal, line and discount follow the same case; the parent is the first of its two fields. |
| LegacyMapping.MappedIds | backend/scripts/backfill_p4_legacy_payments.py:186-266 | The ids are "inv-from-", "line-from-", "lp-from-" and "alloc-from-" before the payment id, or the document id when that is blank. |
| LegacyMapping.MappedMoney | backend/scripts/backfill_p4_legacy_payments.py:122-148 | A row that is not waived is paid when nothing is left, partially paid when something came in or its status says so, open otherwise; the payment, its allocation and its unapplied rest add up to what came in. |
| LegacyMapping.OpenRowOwesItsTotal | backend/scripts/backfill_p4_legacy_payments.py:122-148 | A pending, failed, unpaid or expired row without a figure is an open invoice over its whole total (paid when that is 0) without a payment. |
| LegacyMapping.PaidRowIsSettled | backend/scripts/backfill_p4_legacy_payments.py:126-138 | A succeeded or paid row that names no received amount is settled in full. |
| LegacyMapping.PartialRowKeepsTheRest | backend/scripts/backfill_p4_legacy_payments.py:141-148 | A partial row keeps total - received and is never reopened. |
| LegacyMapping.WaivedRowIsVoid | backend/scripts/backfill_p4_legacy_payments.py:141-170 | A waived row is void, owes nothing and gets no payment. |
| LegacyMapping.RunLooksAt | backend/scripts/backfill_p4_legacy_payments.py:276-278 | A run looks at exactly the academy's rows without the idempotency key and without the unapplied amount. |
| LegacyMapping.CountedWhere | backend/scripts/backfill_p4_legacy_payments.py:375-403 | A row marked deleted counts as deleted, else one of unknown status as unknown, else one with an unreadable figure as an error, else as mapped. |
| LegacyMapping.OwedMeans | backend/scripts/backfill_p4_legacy_payments.py:286-298 | Reconciliation expects max(total - received, 0) of an open or partial row and nothing of any other. |
| LegacyMapping.GroupedUnder | backend/scripts/backfill_p4_legacy_payments.py:386 | A row is reconciled under the first of its two parent fields, or under "unknown". |
| LegacyPayments.HeaderAgreesIff | backend/scripts/backfill_p4_legacy_payments.py:196-201 | total = max(subtotal - discount, 0) always; the audit's reading of a zero subtotal agrees unless a zero amount is discounted by a negative figure. |
| Backfill.FindOne | backend/scripts/backfill_p4_legacy_payments.py:409-411 | The first row with the academy and id, found exactly when there is one. |
| Backfill.FindLegacyRows | backend/scripts/backfill_p4_legacy_payments.py:352-355 | Exactly the academy's rows that are legacy-shaped, in order. |
| Backfill.Counted | backend/scripts/backfill_p4_legacy_payments.py:357-453 | Every legacy row lands in exactly one of deleted, unknown, error, mapped; already-backfilled rows are mapped ones. |
| Backfill.Plan.QueueRow | backend/scripts/backfill_p4_legacy_payments.py:405-453 | Queues exactly the parts of a mapped row the ledger lacks, files the row under its parent, and reports whether nothing was lacking. |
| Backfill.PlanRow | backend/scripts/backfill_p4_legacy_payments.py:375-453 | One loop iteration keeps the batches, the counters and the per-parent dictionaries equal to their definitions over the rows so far. |
| Backfill.PlanMappedRow | backend/scripts/backfill_p4_legacy_payments.py:405-453 | The same for a row that maps. |
| Backfill.PlanRun | backend/scripts/backfill_p4_legacy_payments.py:375-453 | The planning pass queues exactly what is missing from the ledger. |
| Backfill.LegacyBalanceForParent | backend/scripts/backfill_p4_legacy_payments.py:286-298 | The unpaid rest of the open and partial rows. |
| Backfill.LedgerBalanceForParent | backend/scripts/backfill_p4_legacy_payments.py:301-302 | The sum of the invoices' balances. |
| Backfill.Reconcile | backend/scripts/backfill_p4_legacy_payments.py:492-503 | The mismatch count is the number of parents whose legacy and ledger balances differ. |
| Backfill.BackfillLegacyPayments | backend/scripts/backfill_p4_legacy_payments.py:341-524 | A dry run changes nothing; an applied run appends exactly the missing wanted rows; payments and archive stay; the report is the counters, the batches and the mismatches. |
| BackfillProperties.DistinctIdsGiveDistinctKeys | backend/scripts/backfill_p4_legacy_payments.py:186-266 | Rows with distinct payment ids never want the same ledger key twice. |
| BackfillProperties.RerunRepairsCrash | backend/scripts/backfill_p4_legacy_payments.py:375-464 | After a crash that let any subset of any of the four batches through, in any order, a rerun reaches exactly the ledger of an uninterrupted run and changes no row that is there. |
| BackfillProperties.RerunWritesNothing | backend/scripts/backfill_p4_legacy_payments.py:446-464 | After a completed run one more run writes nothing and counts every mapped row as already backfilled. |
| BackfillProperties.FirstRunInsertsAll | backend/scripts/backfill_p4_legacy_payments.py:409-444 | Without rows of the academy in the ledger, everything wanted is inserted. |
| BackfillProperties.FirstRunHasOwnBalances | backend/scripts/backfill_p4_legacy_payments.py:409-416 | On a first run every mapped row is reconciled against its own new invoice. |
| BackfillProperties.RowGap | backend/scripts/backfill_p4_legacy_payments.py:122-148 | A row's ledger balance exceeds its legacy balance by exactly what a paid row was short of its total. |
| BackfillProperties.GapIsShortfall | backend/scripts/backfill_p4_legacy_payments.py:286-302 | Per parent, ledger balance - legacy balance = sum of max(total - received, 0) over its rows marked paid. |
| BackfillProperties.MismatchesAreUnderReceived | backend/scripts/backfill_p4_legacy_payments.py:492-503 | The mismatched parents are exactly those with a paid row that received less than its total. |
| BillingAudit.SumCollectionAmount | backend/scripts/launch_readiness_audit.py:679-683 | The sum of the amounts filed in the academy under the given references. |
| AuditReport.FailureList.Append | backend/scripts/launch_readiness_audit.py:686-688 | The report keeps the first 50 failures, whatever is reported. |
| BillingAudit.AuditInvoice | backend/scripts/launch_readiness_audit.py:382-448 | Reports exactly the failed checks of one invoice of any status, in order: line sum, header, balance unless void, waived or cancelled, paid with a balance. |
| BillingAudit.AuditPayment | backend/scripts/launch_readiness_audit.py:450-488 | Reports one failure exactly when a settled payment differs from its allocations, overpayment credits and unapplied rest. |
| AuditProperties.InvoiceReports | backend/scripts/launch_readiness_audit.py:382-448 | Each of the four failures is reported of an invoice exactly when its figures, against the sums of the rows filed under it, break that equality, and with those figures; void, waived and cancelled invoices are spared the balance check. |
| AuditProperties.PaymentReports | backend/scripts/launch_readiness_audit.py:450-488 | A settled payment is reported exactly when allocations, overpayment credit and unapplied rest do not add up to it, with those figures. |
| BackfillPassesAudit.FiledAfterFirstRun | backend/scripts/backfill_p4_legacy_payments.py:456-464 | After a first run, exactly one row's line and allocation are filed under that row's invoice and payment ids. |
| BillingAudit.AuditBillingConsistency | backend/scripts/launch_readiness_audit.py:376-559 | All three passes over one shared report: the first 50 of exactly the failures of the academy's invoices, payments and credits, the three counts, and a pass exactly when there is none. |
| AuditProperties.AuditReportsDeserved | backend/scripts/launch_readiness_audit.py:376-559 | For any books the audit reports only failures some row deserves, all of them when there are fewer than fifty, never more than fifty, and passes exactly when no row deserves one. |
| AuditProperties.ReportsInOrder | backend/scripts/launch_readiness_audit.py:376-559 | The list comes in the order of the passes: invoices, payments, credits, orphaned projections. |
| AuditProperties.OrphansAscend | backend/scripts/launch_readiness_audit.py:543-550 | Orphaned projections are reported by credit id, then by invoice id. |
| AuditProperties.AuditPassesIff | backend/scripts/launch_readiness_audit.py:376-559 | For any books the audit passes if and only if every invoice and every payment of the academy satisfies its equalities and the credits are in order. |
| AuditProperties.MovedBalanceFails | backend/scripts/launch_readiness_audit.py:425-438 | Moving the correct balance of an invoice that is not exempt by any amount, up or down, makes the audit fail. |
| CreditAudit.EmbeddedAmounts | backend/scripts/launch_readiness_audit.py:514-521 | Per invoice, the sum of the amounts the credit embeds for it, and no entry for an invoice it does not name. |
| CreditAudit.AuditCredits | backend/scripts/launch_readiness_audit.py:490-550 | Adds to the shared report exactly the invalid balances, the unrecoverable applications and, sorted, the projected pairs no credit was spent on. |
| CreditAudit.CreditPassIff | backend/scripts/launch_readiness_audit.py:490-550 | The credit pass reports nothing if and only if balances are within bounds, every application can be repriced from the credit or the projection, and every projected application was really made. |
| BackfillPassesAudit.InvoiceVerdict | backend/scripts/launch_readiness_audit.py:382-448 | The audit passes a backfilled invoice exactly when its row does not discount nothing by a negative figure. |
| BackfillPassesAudit.PaymentVerdict | backend/scripts/launch_readiness_audit.py:450-488 | The audit passes every backfilled payment. |
| BackfillPassesAudit.BackfillPassesAuditIff | backend/scripts/launch_readiness_audit.py:376-559 | On a ledger without the academy's rows, whose credits are not tied to them, a completed backfill of rows with distinct payment ids passes the whole audit if and only if the credits are in order and no mapped row has a zero amount, a negative discount and no final amount. |
| Archive.HasBackfilledInvoice | backend/scripts/archive_legacy_payments.py:65-74 | Found by derived invoice id or by provenance marker. |
| Archive.Scan | backend/scripts/archive_legacy_payments.py:56-98 | The blockers are exactly the rows without an id, without a backfilled invoice or without a ledger copy; with none of them every row is archiveable. |
| ArchiveProperties.BlockerMeans | backend/scripts/archive_legacy_payments.py:56-98 | From the row's own fields: no id blocks always, a row without the two ledger fields blocks when no invoice is derived from it, any other when the ledger has no payment with its id; nothing else blocks. |
| Archive.Apply | backend/scripts/archive_legacy_payments.py:102-122 | A process that survives any number of writes leaves exactly the state and outcome of that many writes: insert (unless a duplicate), then delete, row by row. |
| Archive.ArchiveLegacyPayments | backend/scripts/archive_legacy_payments.py:38-134 | A dry run or any blocker writes and deletes nothing; otherwise the apply loop runs on the academy's rows; the ledger is never touched. |
| ArchiveProperties.ArchiveLosesNothingIff | backend/scripts/archive_legacy_payments.py:102-122 | After any number of writes, nothing is lost if and only if no deleted row shares its string id, blank included, with another deleted row or with an archived row that is not its copy; other academies' rows are never touched and the archive only grows. |
| ArchiveProperties.OneBlankIdLosesNothing | backend/scripts/archive_legacy_payments.py:44-49 | With the index `payments` has (non-blank ids only), a completed run loses nothing if and only if the academy has at most one row with a blank id and archived rows with a pending id are copies. |
| ArchiveProperties.TwoBlankIdsLoseARow | backend/scripts/archive_legacy_payments.py:113-121 | Every pair of rows with blank ids and different `_id`s: the run completes and the second row is in neither collection. |
| ArchiveProperties.TwoBlankIdsAreNotBlocked | backend/scripts/archive_legacy_payments.py:56-98 | Such a pair, once backfilled, has no blocker. |
| ArchiveProperties.ApplyCompletesIff | backend/scripts/archive_legacy_payments.py:119-121 | An uninterrupted run empties the academy's `payments` if and only if every row carries its payment id field; otherwise it raises. |
| ArchiveProperties.MissingFieldStopsEveryRerun | backend/scripts/archive_legacy_payments.py:113-121 | A first row without the field makes every run archive one more copy of it and delete nothing. |
| ArchiveProperties.CrashThenRerunIff | backend/scripts/archive_legacy_payments.py:104-122 | A crash after any write followed by a rerun deletes what an uninterrupted run deletes, and ends in exactly its state unless the crash fell between insert and delete of a row whose id is null, which is then archived twice. |
| ArchiveProperties.InvoiceIffEligible | backend/scripts/archive_legacy_payments.py:65-74 | After a first backfill a legacy row has its invoice if and only if the backfill could map it. |
| ArchiveProperties.PipelineAgrees | backend/scripts/archive_legacy_payments.py:63-98 | From an empty ledger, a completed backfill leaves a legacy blocker if and only if some legacy row is soft-deleted, of unknown status or unmappable. |
| ArchiveProperties.ArchiveAndAuditAgreeIff | backend/scripts/launch_readiness_audit.py:697-722 | For any ledger and rows with ids: an unblocked archive means the audit misses no invoice and no copy; the converse holds if and only if not all of the blocked rows are legacy rows whose deletion flag is literally true. |
| ArchiveProperties.LegacyRowJudgedAlikeIff | backend/scripts/launch_readiness_audit.py:700-714 | After a first backfill a legacy row blocks the archive exactly when it is not mappable, and is counted as missing exactly when it blocks, if and only if its deletion flag is not literally true. |
| ArchiveProperties.RowBlocksOrCounts | backend/scripts/launch_readiness_audit.py:697-722 | What one row adds to each of the four counts, from its two ledger fields, its deletion flag and whether it blocks the archive. |
| ArchiveProperties.RetiredIff | backend/scripts/launch_readiness_audit.py:697-722 | The four counts are zero if and only if every row left is a legacy row whose deletion flag is literally true. |
| ArchiveProperties.ArchiveRetiresIff | backend/scripts/archive_legacy_payments.py:102-122 | After any number of the archive's writes the four counts are zero if and only if every row still to be deleted is such a row. |
| Archive.AuditRetirement | backend/scripts/launch_readiness_audit.py:691-722 | The four payment-row counts of the retirement audit over the academy's rows. |
| ArchiveProperties.CompletedArchiveRetires | backend/scripts/launch_readiness_audit.py:697-722 | After a completed archive all four counts are zero. |
| ReservedSeats.SeatStore.ApplyCorrection | backend/scripts/reconcile_reserved_seats.py:113-127 | Succeeds exactly when the counter is still the observed one (absent matches absent, null also matches absent), and then sets it; otherwise changes nothing. |
| ReservedSeats.FindDrifted | backend/scripts/reconcile_reserved_seats.py:167-171 | The rows with a delta, in order. |
| ReservedSeats.CorrectDrifted | backend/scripts/reconcile_reserved_seats.py:201-212 | The correction loop under any production writes before, between and after its writes, to counters and enrollments alike. |
| ReservedSeats.PromoteUntilSettled | backend/scripts/reconcile_reserved_seats.py:130-151 | Promotes one session until the waitlist is empty or no seat is free: seatless offers first, then the head of the list. |
| ReservedSeats.ReconcileReservedSeats | backend/scripts/reconcile_reserved_seats.py:154-258 | A dry run writes nothing; otherwise corrections run on the snapshot's drifted rows, then promotion unless skipped. |
| SeatProperties.PlayShifts | backend/scripts/reconcile_reserved_seats.py:113-118 | Production writes shift a session's counter and active count each by their own net, and leave an unwritten counter as it was, absent or null included. |
| SeatProperties.CasDecides | backend/scripts/reconcile_reserved_seats.py:119-127 | A write finds its counter exactly when the counter moves since the first read cancel out, or, with an absent or null counter, when there was none. |
| SeatProperties.EveryInterleaving | backend/scripts/reconcile_reserved_seats.py:162-212 | For every interleaving of every kind of production write: each drifted session has one write, which goes through exactly when its counter moves allow; then it ends off by the counter moves after the write less the enrollment moves after the second read, otherwise production alone moves its drift. |
| SeatProperties.CorrectedIsExactIff | backend/scripts/reconcile_reserved_seats.py:113-127 | A corrected counter equals the active count if and only if the counter moves after the write balance the enrollment moves since the second read. |
| SeatProperties.CoupledMovesLeaveGap | backend/scripts/reconcile_reserved_seats.py:201-212 | When production moves counter and enrollments together only, corrected sessions are off by the moves between the two reads and all others keep their drift. |
| SeatProperties.NextPassSeesOnlyLost | backend/scripts/reconcile_reserved_seats.py:201-212 | If besides nothing moves in net between the reads, corrected counters equal the active counts and the next snapshot shows exactly the lost sessions. |
| SeatProperties.QuietPassLeavesNoDrift | backend/scripts/reconcile_reserved_seats.py:201-212 | A pass without concurrent writes loses nothing and leaves no drift. |
| SeatProperties.MoveBetweenReadsClobbers | backend/scripts/reconcile_reserved_seats.py:16-19 | Moves of both counts between the reads that are taken back before the write turn every consistent session into one that is off by just those moves. |
| SeatProperties.ConfirmAfterReadsClobbers | backend/scripts/reconcile_reserved_seats.py:16-19 | A confirmed offer after the second read goes unnoticed and leaves every corrected session one seat short. |
| SeatProperties.SettleRaisesDriftIff | backend/scripts/reconcile_reserved_seats.py:214-237 | Promotion never lowers a session's drift, and raises it exactly when a seat is free and an open seatless offer or a waiting new family is within reach of it. |
| SeatProperties.SettleServesInOrder | backend/scripts/reconcile_reserved_seats.py:130-151 | Settling serves a prefix of the waitlist in order, seatless offers before anyone who needs a seat, accounts for every seat, never goes beyond the capacity, and only stops with nobody left or no seat for the next. |
| SeatProperties.RowMeans | backend/scripts/reconcile_reserved_seats.py:85-99 | A report row shows the counter as stored, an absent or null one as 0, the active count of the second read, and their difference. |
| SeatProperties.SecondRunCleanIff | backend/scripts/reconcile_reserved_seats.py:26 | With coupled moves and quiet reads, the next snapshot is clean if and only if every write finds its counter and no session is enrollable, below its known capacity in the snapshot, waited for, and meets the guard under which promotion hands out a seat for an offer. |
| Money.CentsRoundTrip | frontend/lib/money.ts:59-63 | A printed cents amount parses back to itself, and a negative one is refused. |
| Money.FixedRoundTrip | frontend/lib/billing-rules-form.ts:117 | Two-decimal printing followed by parsing is the identity. |
| Money.ShortRoundTrip | frontend/lib/billing-rules-form.ts:146 | A percent printed without trailing zeros parses back to itself. |
| DayLists.InputToDays | frontend/lib/billing-rules-form.ts:124-135 | Splits, checks, de-duplicates and sorts exactly like the definition; null for anything that is not a list of whole numbers. |
| DayLists.AcceptedDaysAreIncreasing | frontend/lib/billing-rules-form.ts:124-135 | Whatever is typed, an accepted list is strictly increasing and has no negative day. |
| DayLists.DayListRoundTripIff | frontend/lib/billing-rules-form.ts:113-135 | A stored list survives printing and parsing if and only if it is strictly increasing and not negative. |
| BillingRulesForm.BuildForm | frontend/lib/billing-rules-form.ts:141-152 | The form holds exactly the inputs of the editable rows, the ACH row as two fields. |
| BillingRulesForm.DiffBuilder.DiffListRow | frontend/lib/billing-rules-form.ts:255-279 | A list row: equal is silent, unreadable or out of bounds is an error, else the new days are sent. |
| BillingRulesForm.DiffForm | frontend/lib/billing-rules-form.ts:239-314 | The diff is the fold of the rows' verdicts. |
| FormProperties.UntouchedRow | frontend/lib/billing-rules-form.ts:249-311 | A row whose inputs show what is stored is silent if and only if its stored value survives the round trip. |
| FormProperties.UntouchedFormSilentIff | frontend/lib/billing-rules-form.ts:249-311 | An untouched form has no change and no error, out-of-bounds values included, if and only if cents and percents are not negative and day lists strictly increasing. |
| FormProperties.SentRowBecomesSilent | frontend/lib/billing-rules-form.ts:159-195 | A row that was sent is silent for the same inputs once stored. |
| FormProperties.SentChangeIsLegal | frontend/lib/billing-rules-form.ts:180-195 | A sent number or day is within its row's bounds, and an enabled ACH discount has 0 < percent <= max. |
| FormProperties.PayloadIsLegal | frontend/lib/billing-rules-form.ts:239-314 | The payload keys are exactly the changed keys, disjoint from the errors, and every change is legal for its row. |
| FormProperties.SavingConverges | frontend/lib/billing-rules-form.ts:316-318 | When the diff can be saved, storing the payload and diffing the same form again finds no change and no error. |
| FormEdits.EditsGoThrough | frontend/lib/billing-rules-form.ts:239-314 | For distinct keys and any target that sets editable rows to legal values, diffing the target's printed form has no error, sends exactly the rows that differ, in order and each with only its difference, and saving the payload gives the target. |
| FormEdits.EditsEnableSave | frontend/lib/billing-rules-form.ts:316-318 | Save is enabled for a legal target exactly when it changes something. |
| FormEdits.FormShows | frontend/lib/billing-rules-form.ts:115-152 | The inputs show the stored values: dollars with two decimals, whole numbers, days joined by commas, the choice, and the ACH switch as "true" or "false" beside its percent, a missing or zero one blank. |
| FormEdits.NumberDecides | frontend/lib/billing-rules-form.ts:289-311 | A number input that is not blank is an error when it does not read as a number, or as a new one out of bounds, silent when it is the stored one, and sent otherwise. |
| FormEdits.ListDecides | frontend/lib/billing-rules-form.ts:255-279 | A list input is an error when it does not read as whole numbers, or as a new list out of bounds, and sent when it is any other new list, the empty one included. |
| FormEdits.ChoiceDecides | frontend/lib/billing-rules-form.ts:280-287 | Any other choice that is not blank is sent, and none is an error. |
| FormEdits.AchDecides | frontend/lib/billing-rules-form.ts:159-195 | The ACH row is refused for a typed percent that is neither a rate nor the stored one, a blank that would hide a stored percent or switch it on, and any change that leaves it on without a rate; every other change is sent, and only what changed. |
| FormEdits.WholeNumberReads | frontend/lib/billing-rules-form.ts:198-207 | A whole-number input reads as its digits with an optional minus sign, and as nothing else. |
| FormEdits.CentsRead | frontend/lib/money.ts:59-63 | A cents input reads as the amount left without spaces, one dollar sign and commas, with at most two decimals, and as nothing else. |
| FormEdits.DaysRead | frontend/lib/billing-rules-form.ts:124-135 | A list input reads as the distinct whole numbers between its separators in ascending order, or as nothing when a piece is not all digits. |
| CreditLines.AppliedCreditByKey | backend/scripts/ledger_credit_line_audit.py:68-85 | Per academy and payment, the larger of the two sources' sums. |
| CreditLineProperties.AppliedIsTheLarger | backend/scripts/ledger_credit_line_audit.py:68-85 | The applied credit of a key is the sum of one of the two sources and no less than the other's. |
| CreditLineProperties.ExaminedAs | backend/scripts/ledger_credit_line_audit.py:96-140 | Skipped are void, deleted and other than monthly invoices, those with a credit line count as such, and a finding's charges, discount and expected total are the sums over the invoice's own lines. |
| CreditLineProperties.PaymentBehind | backend/scripts/ledger_credit_line_audit.py:112-114 | The payment of a finding is the source of the first own line whose id is derived from the invoice's. |
| CreditLineProperties.CreditLineMeans | backend/scripts/ledger_credit_line_audit.py:158-175 | A repair writes minus the applied credit, under the tuition line's id with "-credit". |
| CreditLines.LineStore.UpsertLine | backend/scripts/ledger_credit_line_audit.py:158-178 | Inserts exactly when the line id is free in the academy; an existing line is never changed. |
| CreditLines.Audit | backend/scripts/ledger_credit_line_audit.py:88-202 | The audit loop equals the fold over the invoices, and inserts only with apply. |
| CreditLineProperties.EveryScannedInvoiceCountedOnce | backend/scripts/ledger_credit_line_audit.py:96-202 | Every scanned invoice is counted as having its line, as having no credit or in exactly one bucket, and each bucket holds what its name says. |
| CreditLineProperties.AtRiskOverbillsIff | backend/v2/contexts/billing/domain/ledger.py:397-414 | Without its line, recomputing an at-risk invoice never lowers the total and raises it exactly when the charges, positive discount lines included, exceed what recomputing takes off for discounts. |
| CreditLineProperties.RepairedInvoiceKeepsHeaderIff | backend/v2/contexts/billing/domain/ledger.py:397-414 | With the line, recomputing any at-risk invoice keeps its total if and only if no discount has the wrong sign or discount and credit swallow what that adds, and then keeps the balance if and only if it is not negative. |
| CreditLineProperties.ApplyRepairs | backend/scripts/ledger_credit_line_audit.py:155-178 | One apply over any list of distinct invoices gives every at-risk invoice with a free line id its line, after which it counts as repaired; recomputing it keeps total and balance under exactly that condition. |
| CreditLineProperties.RunSettles | backend/scripts/ledger_credit_line_audit.py:155-178 | After a run every invoice of the list that is still at risk has its line id taken. |
| CreditLineProperties.SecondApplyInsertsNothing | backend/scripts/ledger_credit_line_audit.py:158-178 | A second apply inserts nothing, for any invoices, lines and credits. |
| CreditLineProperties.CollectedWithinOverchargeIff | backend/scripts/ledger_credit_line_audit.py:179-186 | The collected excess is what was paid beyond the expected total, never negative, and stays within the overcharge if and only if the balance is not negative. |
| Memberships.MembershipStore.StatusTable | backend/scripts/multi_academy_preflight.py:121-128 | For every academy and id, the last status listed for it. |
| Memberships.MembershipStore.FindMissing | backend/scripts/multi_academy_preflight.py:132-169 | The missing list and the not-active list hold exactly the active users without any, or without an active, membership. |
| MembershipProperties.ExaminedAs | backend/scripts/multi_academy_preflight.py:92-101 | From the user's own fields: not active by global status, disabling status or flag; without academy; covered by an active membership under one of its three ids; blocked by others; or missing. |
| MembershipProperties.MissingRowMeans | backend/scripts/multi_academy_preflight.py:74-89 | The row of a missing user carries its ids and exactly those of its listed roles, or else of its single role, that are among the eight academy roles. |
| Memberships.MembershipStore.BackfillMemberships | backend/scripts/multi_academy_preflight.py:187-222 | A dry run changes nothing; apply upserts exactly the planned rows; the three counts are exact. |
| MembershipProperties.PlannedMeans | backend/scripts/multi_academy_preflight.py:194-198 | Planned are exactly the rows of a known academy, with roles, and with owner, admin or billing among them only by the flag. |
| MembershipProperties.BackfillIsCautious | backend/scripts/multi_academy_preflight.py:203-222 | An apply keeps every membership, never inserts beside one of any status under any of the user's ids, grants owner, admin or billing only with the flag, and writes active rows of known academies only. |
| MembershipProperties.VerdictAfterApply | backend/scripts/multi_academy_preflight.py:132-169 | User by user, an apply settles exactly the planned users whose new id is one of their own and leaves every other verdict as it was. |
| MembershipProperties.ReauditListsSkippedIff | backend/scripts/multi_academy_preflight.py:132-169 | With disjoint ids, the re-audit's missing list is exactly the skipped rows if and only if every planned row's id is one it is looked up by. |
| MembershipProperties.NamedUsersAreReachable | backend/scripts/multi_academy_preflight.py:149 | A user with a `user_id` or an `auth_uid` meets that condition. |
| MembershipProperties.SecondApplyInsertsNothing | backend/scripts/multi_academy_preflight.py:203-222 | Under that condition a second apply inserts nothing, shared ids included. |
| MembershipProperties.SecondApplyInsertsNothingIff | backend/scripts/multi_academy_preflight.py:203-222 | With disjoint ids, a second apply inserts nothing if and only if every planned row's id is one it is looked up by; otherwise it goes for another insert. |
| AlertRules.NormalizeItems | backend/scripts/sentry_alert_rules.py:168-176 | The item loop yields the sorted list of items cut down, by position, to the wanted keys. |
| AlertRules.Diff | backend/scripts/sentry_alert_rules.py:184-188 | The differing managed fields with their current and wanted values, or a raise when a frequency is not a number. |
| AlertRuleProperties.ComparedItem | backend/scripts/sentry_alert_rules.py:150-176 | An item is compared by its keys other than "name" and "label", cut to the keys wanted at its position, with values as text and null as null. |
| AlertRuleProperties.FrequencyRead | backend/scripts/sentry_alert_rules.py:177-178 | A frequency reads the same as a number and as its numeral; null stays null. |
| AlertRuleProperties.DiffMeans | backend/scripts/sentry_alert_rules.py:184-188 | A field is in the diff exactly when its two values differ, with the current value first. |
| AlertRules.GroupByProject | backend/scripts/sentry_alert_rules.py:271-273 | Projects in order of first mention, each with its rules in order. |
| AlertRules.IndexByName | backend/scripts/sentry_alert_rules.py:276-278 | Each name stands for the first rule listed under it; the names come each once, in order. |
| AlertRules.SentryClient.MakePlan | backend/scripts/sentry_alert_rules.py:265-292 | The planned changes with their diffs, project by project, and per project the sorted listed names nobody declares. |
| AlertRuleConvergence.PlanCarriesDeclared | backend/scripts/sentry_alert_rules.py:93-103 | The changes are the declared rules in plan order, each under its own project and name and with its own name, environment, match modes, frequency and item lists. |
| AlertRuleConvergence.SettledMeansInstalled | backend/scripts/sentry_alert_rules.py:265-292 | A plan has only no-ops if and only if the first rule listed under every declared name has the declared environment, match modes and frequency and, as multisets of compared items, the declared lists. |
| AlertRules.SentryClient.Apply | backend/scripts/sentry_alert_rules.py:295-300 | Stores the changes in order and stops at the first reported failure, whether or not the server stored it. |
| AlertRuleProperties.DiffIsEmptyIff | backend/scripts/sentry_alert_rules.py:163-188 | The diff is empty if and only if the managed fields agree with item lists compared as multisets, whatever total order the sort uses. |
| AlertRuleProperties.ReorderedItemsAgreeIff | backend/scripts/sentry_alert_rules.py:168-176 | Items that come back in any other order agree with what was sent if and only if at every position the compared keys are those of the item sent there. |
| AlertRuleProperties.EchoIsAccepted | backend/scripts/sentry_alert_rules.py:150-160 | A stored rule that echoes the payload with extra or stringified values has an empty diff. |
| AlertRuleProperties.StepChangesOneName | backend/scripts/sentry_alert_rules.py:295-300 | A stored change settles what its own name stands for (an update replaces the rule, a created one counts only if the name was free) and leaves every other name of every project alone. |
| AlertRuleProperties.StateAfter | backend/scripts/sentry_alert_rules.py:265-300 | After any number of stored changes of a plan, every name of every project, declared twice or not, stands for what the fold of its own changes over the first listed rule gives. |
| AlertRuleProperties.ApplyConverges | backend/scripts/sentry_alert_rules.py:265-300 | With no name declared twice: planning after an apply, complete or cut short anywhere, finds every stored change settled and every other change exactly as planned; a complete one leaves only no-ops. |
| AlertRuleConvergence.ApplyInstallsDeclared | backend/scripts/sentry_alert_rules.py:265-300 | With names declared once, a completed apply leaves every declared rule installed in that sense. |
| AlertRuleConvergence.SettledIff | backend/scripts/sentry_alert_rules.py:281-291 | In any state, a plan of any declared list has only no-ops if and only if under each declared name the first listed rule agrees with every payload declared there. |
| AlertRuleConvergence.ApplySettlesIff | backend/scripts/sentry_alert_rules.py:265-300 | For any declared list and however an apply ends, the next plan has only no-ops if and only if every declared rule agrees with the rule left standing under its project and name. |
| AlertRuleConvergence.ExactApplySettlesIff | backend/scripts/sentry_alert_rules.py:265-300 | With exact echoes, a complete apply settles the list if and only if under each name all declared payloads agree with the survivor: the first payload if no rule was listed, else the last one the listed rule disagrees with, else the listed rule. |
| AlertRuleConvergence.RoundsSettleOnlyIf | backend/scripts/sentry_alert_rules.py:265-300 | However many rules share a name and however often the list is applied, the name is only ever settled if the rule listed at first, or one of the payloads, agrees with all of them. |
| AlertRuleConvergence.PairSettlesIff | backend/scripts/sentry_alert_rules.py:265-300 | Two rules under one name are settled after any number of applies from two on if and only if the rule listed at first agrees with both or one payload agrees with the other. |
| AlertRuleConvergence.AgreeableYetUnreachable | backend/scripts/sentry_alert_rules.py:163-188 | Two payloads, with one condition each, that a stored rule can agree with at once and that no number of applies settles. |
| AlertRuleProperties.UnmanagedIsUntouched | backend/scripts/sentry_alert_rules.py:265-300 | No apply changes a rule with an undeclared name, a later duplicate of a declared one or a rule of another project, and none removes a rule. |
| AlertRuleConvergence.SettledTogetherAgree | backend/scripts/sentry_alert_rules.py:281-291 | In any declared list, two rules of one name are both settled only in a state whose first rule of that name agrees with both. |
| AlertRuleConvergence.SameNameSettlesIff | backend/scripts/sentry_alert_rules.py:281-291 | Some state of the server, reached by applies or not, settles both of two same-named rules if and only if one stored rule can agree with both payloads. |
| AlertRuleConvergence.DifferentFrequenciesNeverSettle | backend/scripts/sentry_alert_rules.py:281-291 | Two different frequencies under one name leave a pending change in every state. |
| AlertRuleProperties.UnmanagedMembers | backend/scripts/sentry_alert_rules.py:279-280 | The unmanaged list holds exactly the listed names that nobody declares, of projects with declared rules. |
| AlertRuleProperties.UndeclaredAscend | backend/scripts/sentry_alert_rules.py:280 | Within a project the unmanaged names are in string order, each once. |

## Left out

- Descriptive fields that the programs only copy (period label, currency, due date, invoice number, student, payment method, Stripe ids, notes, audit stamps) and per-status counters.
- Time zones and timestamps: a clock is a month and a day, a creation time an integer or missing.
- Floating point and locale: cents and percents are whole numbers, and a JavaScript number is exact.
- Characters beyond ASCII in digits, white space and letter case.
- Texts of errors, log lines and printed reports; labels and groups of the form view.
- Errors of the backfill's unordered inserts on duplicate keys: the payment ids it derives its keys from are assumed distinct within an academy. `payment_id_unique_per_academy` (migration 0187) enforces that for non-blank fields; a row without one goes by its `_id`.
- The unique (academy, user) index on memberships: the membership model appends where the database would refuse a second row with the same id, which matters only for users without `user_id` and `auth_uid`.
- Production writes during the promotion pass, changes of a waitlist or a capacity during a run, the notifications and lifecycle records of a promotion, and the refusal of MongoDB to increment an explicit null counter (counted from zero here).
- Which of several matching documents `delete_one` picks: the first in the order the rows were read.
- `generate`, `send_invoices`, settings reads and the plan price pass of the local-clock job: only their outcomes appear.
- Database queries beyond keyed lookup, insert, delete and compare-and-set; index building; leases and the scheduler that starts the jobs.
- `AlertRules.ReadInt`: numerals with underscores, and numbers with a fraction, which `int` also accepts, are not modelled.
- The order `json.dumps` gives the sort of alert-rule items: it is an arbitrary total order here. The printed form of a plan is left out.
- The HTTP side of the Sentry client: a reply is stored or not, and acknowledged or not.
- The academy checks of the preflight audit (slug, owner), the Stripe and index checks of the retirement audit.
- The duplicate-finder audits, tenant host preflight, seed, import and backup scripts: grouping reports and input/output that would add only easy members.
