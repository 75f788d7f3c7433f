# Verified model of the finance, returns, award and client-protocol core

This project models the parts of the student records system where correctness is hardest to see by
reading one function, and proves their properties for all inputs, all runs and all reachable states.
`dafny verify dfyconfig.toml` checks everything.

Money is in integer pennies (fees are exact rationals in pounds), dates are integers in milliseconds,
and `Math.round` is the floor of the argument plus one half (ECMA-262, section 21.3.2.28).

| file | models |
|---|---|
| `PaymentAllocation.dfy`, `ProportionalAllocation.dfy` | splitting one payment over open charges, FIFO and pro rata |
| `LedgerTables.dfy`, `LedgerStore.dfy` | the finance tables and every transaction on them; `LedgerStore.Store` updates them in place and each of its methods is proved to perform exactly one step of `LedgerTables.Step` |
| `LedgerInvariant.dfy`, `LedgerRuns.dfy` | what every run of those transactions keeps, and which documented promise it breaks |
| `LedgerReading.dfy` | what the stored rows mean to a payment: which are read, which are settled and in what order, and how new ones read back |
| `LedgerHistory.dfy` | every run read back as its events: the account figures as sums, each record traced to what created it |
| `LedgerReordered.dfy` | the same runs with the two charge-line updates in the documented order, proved in step with the code's runs |
| `LedgerComposition.dfy` | what one allocation leaves alone, and that any number of stored FIFO payments compose |
| `LedgerOrder.dfy` | that the order in which payments are stored does not matter |
| `HesaReturn.dfy`, `HesaCsv.dfy` | composing a HESA return, validating it, exporting it, and parsing the export back |
| `Awards.dfy`, `WeightedMean.dfy` | marks to module aggregates to the final classification |
| `TokenRefresh.dfy` | the 401 interceptor of the client as a step system, with termination |
| `Pagination.dfy` | following cursors over a table, also while rows are inserted and tied rows rearranged |
| `Cryptobox.dfy` | the envelope's byte layout over an ideal authenticated cipher |
| `Bursary.dfy`, `Fees.dfy` | bursary decisions and their fund; fees, invoices and ageing |
| `Prelude.dfy`, `Sorting.dfy` | sums, the order of texts, a stable sort |

## Where the code does not do what its comments say

- **Closed charge lines show too little paid.** `payments.service.ts:311-349` flips covered lines to
  PAID and only then increments `paidAmount`; the increment is guarded by an open status
  (`chargeLine.repository.ts:199`), so it skips exactly the flipped lines. The promise at
  `chargeLine.repository.ts:172-175` and `payments.service.ts:208-212` (PAID implies
  `paidAmount = amount`) therefore survives an allocation if and only if that allocation closes no
  line (`AllocationKeepsPromiseIff`), which under FIFO means the payment is smaller than the first debt
  (`FifoClosesNothingIff`) and pro rata that no line meets its debt
  (`ProportionalClosesNothingIff`, on the debts and the payment alone). `PaidLineShowsNothingWitness`
  is a run of four events that breaks it. The balances, the invoices' paid amounts and every later
  allocation are not affected: `LedgerReordered` proves that incrementing first gives, for every run,
  the same tables except for those paid amounts, and that its books then balance line by line.
- **Pro-rata splits are not always exact.** `payment-allocation.ts:25-27` and `:236` promise that the
  lines add up to the payment. They do if and only if the rounding drift fits the last owing line
  (`ProportionalExactIffDriftFits`), always with at most three owing charges
  (`ProportionalExactForThree`). Four debts of 1p and a payment of 2p hand out 3p; debts of 2p, 2p, 2p
  and 1p and a payment of 5p hand out 4p. When too much is handed out, the reported leftover is not
  what the ledger keeps: `LeftoverIsCreditedIff` says exactly when an account's balance is its debts
  less its credit and that leftover.
- **A bursary award can be forgotten by its fund.** `bursary-applications.service.ts:277-287` leaves
  `awardAmount` on a row sent back to review although its budget was released at `:248-255`, and a
  later approval reserves only the difference (`:258`). `DecisionKeepsMatchIff` says exactly which
  decisions keep the fund's `allocated` in step with its live awards, `RunStaysInStepIff` which runs
  keep it in step throughout, and `RunStaysMatchedIff` which runs leave no award unaccounted for.
- **A return can depend on how its rows were read.** `hesa-return-composition.ts:538-539` promises the
  same output across runs. Rows that share a key keep the order in which they were read, so the promise
  holds if and only if rows of one block that share a key come out as the same line
  (`LinesDeterministicIff`); `modId` is not a unique column (`prisma/schema.prisma:5320`).
- **CSV layout.** The comment at `hesa-csv-export.ts:48-55` describes a blank header for an empty
  column list and a two-line trailer; the code always writes the two key columns and a trailer of a
  blank line and seven notes. The model follows the code.

## Worth knowing

- **Negative prior allocations.** `payment-allocation.ts:93-98` reads a negative `alreadyAllocated` as
  zero, so a payment carried forward onto one is partly lost; runs of FIFO payments compose if and only
  if no owing charge has one (`PaymentsComposeIff`), and the ledger never stores one
  (`LedgerComposition.OpenChargesCompose`).
- **Cursor walks over tied rows.** Lists are ordered by one column whose values may tie
  (`invoice.repository.ts:42` orders by a date unless told otherwise), and the store may arrange tied
  rows anew at every fetch. Over a finished walk a row is shown once, plus once for each time it slips
  back over a cursor, less once for each time it slips past one (`ShownOncePlusSlips`), so exactly once
  if and only if its slips cancel. No row slips while rows already there keep their order, and a row
  that ties with no page's last row never slips. Ties can make a walk go on for ever over a table that
  does not change (`TiedWalkNeverFinishes`).
- **Declared lengths.** An envelope whose header declares more AAD than there is has the same parts as
  one that declares what is there (`SamePartsIff`), so accepted envelopes are encryptions exactly when
  they hold the AAD they declare (`AcceptedIsEncryptedIff`, `OverdeclaredIsNotEncrypted`).
- **Boundaries.** A class boundary is met by an average up to half a hundredth below it, so 69.995
  earns a first (`BoundaryOnGridMetIff`).

## Model

| member | source | states |
|---|---|---|
| PaymentAllocation.FifoOrderIsSorted | server/src/utils/payment-allocation.ts:100-130 | the FIFO order is a permutation of the charges in which no due date is followed by an earlier one, equal due dates are ordered by creation date and full ties by id, missing dates counting as latest |
| PaymentAllocation.FifoOrderDeterministic | server/src/utils/payment-allocation.ts:110-111 | with distinct ids the order does not depend on the order in which the rows were read |
| PaymentAllocation.AllocateFifo | server/src/utils/payment-allocation.ts:126-161 | the loop over the sorted charges produces exactly the specified walk |
| PaymentAllocation.OwingKeepsExactlyTheOwing | server/src/utils/payment-allocation.ts:136 | the charges that get a line are exactly those that owe something, each as often as it occurs |
| PaymentAllocation.OwingSorted | server/src/utils/payment-allocation.ts:130-136 | leaving out settled charges keeps the FIFO order |
| PaymentAllocation.FifoWalkIsWaterfall | server/src/utils/payment-allocation.ts:134-160 | the k-th line is that of the k-th owing charge and receives what the earlier debts leave of the payment, cut to the range from nothing to its own debt, fully covered exactly when that is its debt |
| PaymentAllocation.FifoShape | server/src/utils/payment-allocation.ts:14-20 | a fully covered prefix, at most one partial line, then lines that receive nothing |
| PaymentAllocation.FifoConserves | server/src/utils/payment-allocation.ts:126-161 | FIFO hands out the payment or the whole debt, whichever is smaller |
| PaymentAllocation.EarlierDebtsFirst | server/src/utils/payment-allocation.ts:100-161 | a charge receives money only when every charge that is due earlier, or as early and created earlier, receives all it owes |
| PaymentAllocation.OutstandingMeans | server/src/utils/payment-allocation.ts:93-98 | a charge owes its amount less what was allocated before, never less than nothing, a negative prior allocation counting as none |
| PaymentAllocation.PaymentsCompose | server/src/utils/payment-allocation.ts:93-161 | with distinct ids and no negative prior allocation, any run of FIFO payments, each carried forward as `alreadyAllocated`, leaves every charge and the total leftover as one payment of their sum does |
| PaymentAllocation.PaymentsComposeIff | server/src/utils/payment-allocation.ts:93-98 | with distinct ids, all runs of payments compose if and only if no owing charge has a negative `alreadyAllocated` |
| PaymentAllocation.PaymentOrderIrrelevant | server/src/utils/payment-allocation.ts:93-161 | the order in which payments arrive does not matter |
| PaymentAllocation.AggregateInvoiceImpact | server/src/utils/payment-allocation.ts:114-124 | each invoice that receives anything is listed once with all it receives, and the amounts sum to the invoiced part of the allocation |
| ProportionalAllocation.ShareBounds | server/src/utils/payment-allocation.ts:186-205 | before correction each share is the nearest penny to its pro-rata amount, lies between nothing and the debt, and is exact or erring on the known side at either end |
| ProportionalAllocation.ShareIsWholeIff | server/src/utils/payment-allocation.ts:197-203 | a share is the whole debt exactly when what the pool leaves unpaid of it rounds to nothing |
| ProportionalAllocation.CoveredIffMet | server/src/utils/payment-allocation.ts:186-224 | a line is fully covered if and only if, for the last owing charge, the other shares leave its debt of the pool, and for any other, the unpaid part of its debt rounds to nothing |
| ProportionalAllocation.AbsorbDrift | server/src/utils/payment-allocation.ts:211-224 | the backward loop edits in place exactly the last owing line, by the clamped drift |
| ProportionalAllocation.AllocateProportional | server/src/utils/payment-allocation.ts:163-227 | the method computes the specified split |
| ProportionalAllocation.ProportionalCharacterised | server/src/utils/payment-allocation.ts:180-224 | every line but the last owing one is the nearest penny to its pro-rata amount, and the last gets what the others leave of the pool, cut to the range from nothing to its debt |
| ProportionalAllocation.ProportionalWithinDebt | server/src/utils/payment-allocation.ts:237-238 | no line is negative or exceeds its charge's debt, and `fullyCovered` says exactly that a debt was met |
| ProportionalAllocation.DriftBound | server/src/utils/payment-allocation.ts:207-210 | the drift is at most half a penny per owing charge |
| ProportionalAllocation.ProportionalExactIffDriftFits | server/src/utils/payment-allocation.ts:207-224 | the lines add up to the pool if and only if the drift fits its line |
| ProportionalAllocation.ProportionalExactForThree | server/src/utils/payment-allocation.ts:25-27 | with at most three owing charges the lines always add up to the pool |
| ProportionalAllocation.OverAllocationWitness | server/src/utils/payment-allocation.ts:218-219 | four debts of 1p and a payment of 2p hand out 3p |
| ProportionalAllocation.UnderAllocationWitness | server/src/utils/payment-allocation.ts:218-219 | debts of 2p, 2p, 2p, 1p and a payment of 5p hand out 4p |
| ProportionalAllocation.AllocatePayment | server/src/utils/payment-allocation.ts:242-282 | the outcome under either strategy: defaults, totals, leftover, full allocation and invoice impact |
| ProportionalAllocation.AllocationWithinDebt | server/src/utils/payment-allocation.ts:237-238 | under either strategy amounts stay within debts and `fullyCovered` is exact |
| ProportionalAllocation.PaymentConservedIff | server/src/utils/payment-allocation.ts:236 | allocated plus leftover is the payment always under FIFO, and pro rata if and only if the drift does not push its line below zero |
| LedgerInvariant.OpenChargesAreOpenRows | server/src/repositories/chargeLine.repository.ts:64-95 | the charges read for an account are exactly its open rows on no cancelled invoice, once each |
| LedgerReading.ReadsThePayableRows | server/src/repositories/chargeLine.repository.ts:64-95 | the read returns, once each and with their own fields, exactly the PENDING and INVOICED rows of the account that are on no invoice or on one that is not CANCELLED |
| LedgerReading.ReadsInDueOrder | server/src/repositories/chargeLine.repository.ts:91 | it returns them by due date, rows without one last, then by creation date |
| LedgerReading.CoveringPaymentSettlesAll | server/src/api/payments/payments.service.ts:291-398 | a payment of at least what those rows show as amount less paid amount, under either strategy, leaves every one that owed anything PAID, changes no other row, and credits the account with the rest |
| LedgerReading.EarlierRowsCloseFirst | server/src/utils/payment-allocation.ts:100-161 | a stored FIFO payment brings money to a row only if it closes every such row due before it that still owed anything |
| LedgerReading.CreatedLinesReadBack | server/src/repositories/invoice.repository.ts:143-199 | an invoice is stored with the total and status given, and the next read finds each of its pending or invoiced lines with its own fields and nothing paid, unless the invoice is cancelled |
| LedgerReading.CreatedChargeReadsBack | server/src/repositories/finance.repository.ts:109-118 | a legacy charge reads back likewise |
| LedgerReading.CancelledInvoicesHide | server/src/repositories/chargeLine.repository.ts:73-80 | setting an invoice to CANCELLED hides its lines from payments, setting it to anything else shows them, and other lines read as before |
| LedgerInvariant.AllocationLines | server/src/utils/payment-allocation.ts:126-227 | either strategy writes at most one line per charge and each line speaks of its charge |
| LedgerInvariant.SettleRowsRowwise | server/src/api/payments/payments.service.ts:311-349 | what flipping and then incrementing leaves of each row: a covered row is closed with its old paid amount |
| LedgerInvariant.AllocationLands | server/src/api/payments/payments.service.ts:351-372 | what an allocation hands out lands on rows of its own account, and per invoice it is the invoice impact |
| LedgerInvariant.AllocateKeepsInvariant | server/src/api/payments/payments.service.ts:274-398 | an allocation under either strategy keeps all books in order |
| LedgerRuns.CreateWithLinesKeepsInvariant | server/src/repositories/invoice.repository.ts:143-199 | creating an invoice with its lines keeps them, with or without posting |
| LedgerRuns.CreateChargeKeepsInvariant | server/src/repositories/finance.repository.ts:109-118 | so does a legacy charge |
| LedgerRuns.CreatePaymentKeepsInvariant | server/src/repositories/finance.repository.ts:120-135 | so does a legacy payment, also one booked on an invoice |
| LedgerRuns.EveryRunKeepsTheBooks | server/src/repositories/finance.repository.ts:109-193 | after every run: balances are debts less credit, balance departs from debits minus credits by the legacy postings alone, invoices are paid what was applied to their lines plus legacy bookings, open lines show what was applied to them, each payment is applied at most once |
| LedgerHistory.FiguresAreSums | server/src/repositories/finance.repository.ts:109-193 | over a run balance, debits and credits of an account move by the sums of what was posted: debits by positive invoice totals, credits by allocated payments and negative totals, and neither ever falls |
| LedgerHistory.PaidAmountsAreSums | server/src/repositories/finance.repository.ts:120-135 | over a run an invoice's paid amount moves by the legacy payments booked on it and by what allocations bring its lines |
| LedgerHistory.EveryRecordHasItsEvent | server/src/repositories/invoice.repository.ts:143-199 | after every run each row, invoice and payment carries the fields of the event that created it, a row is PAID only if it was open, a payment stamped only if it was allocated, and the account figures are those sums |
| LedgerRuns.SecondAllocationIsRefused | server/src/repositories/payment.repository.ts:81-94 | asking again for an allocated payment changes nothing |
| LedgerRuns.AllocationKeepsPromiseIff | server/src/api/payments/payments.service.ts:208-212 | PAID lines keep showing their whole amount if and only if the allocation closes no line |
| LedgerRuns.FifoClosesNothingIff | server/src/api/payments/payments.service.ts:309-313 | under FIFO that is the case exactly when the payment is below the first debt |
| LedgerRuns.ProportionalClosesNothingIff | server/src/api/payments/payments.service.ts:309-313 | pro rata it is the case exactly when no line meets its debt, stated on debts and payment |
| LedgerRuns.ClosedLinesAreFinal | server/src/repositories/chargeLine.repository.ts:185-208 | no later step writes a line that left the open statuses |
| LedgerRuns.IncrementFirstWouldKeepPromise | server/src/repositories/chargeLine.repository.ts:168-184 | both orders leave the same statuses and differ on closed lines only, where incrementing first shows the whole amount |
| LedgerRuns.InvoiceMatchesItsLinesIff | server/src/repositories/invoice.repository.ts:84-93 | an invoice is never behind the paid amounts its lines show, and matches them if and only if no allocation closed one of its lines |
| LedgerRuns.BalanceFromTables | server/src/repositories/finance.repository.ts:173-193 | counting PAID lines as settled, the tables give the balance |
| LedgerRuns.LeftoverIsCreditedIff | server/src/api/payments/payments.service.ts:291-398 | after an allocation the balance is debts less earlier credit and reported leftover always under FIFO, and pro rata if and only if the drift does not push its line below zero |
| LedgerRuns.PaidLineShowsNothingWitness | server/src/api/payments/payments.service.ts:311-349 | a charge of 1 pound paid in full ends PAID with nothing shown as paid |
| LedgerReordered.StepsAgree | server/src/repositories/chargeLine.repository.ts:168-208 | one step with the increments first, from the restored tables, gives the restored outcome of the code's step |
| LedgerReordered.RunsAgree | server/src/repositories/chargeLine.repository.ts:168-208 | so do whole runs: same events accepted, same allocations, same tables except the paid amounts of closed lines |
| LedgerReordered.EveryReorderedRunBalances | server/src/repositories/chargeLine.repository.ts:168-184 | with increments first, after every run each balance is the sum of amount minus paid amount over its lines less the account's credit, each invoice is paid what its lines show, lines closed by payment are PAID and show their amount |
| LedgerReordered.CodeBooksBalanceIff | server/src/api/payments/payments.service.ts:208-212 | the code's own tables balance line by line if and only if no payment has closed a line |
| LedgerReordered.RestoredBooksBalance | server/src/repositories/chargeLine.repository.ts:168-184 | from any state the code can be in, setting paid amounts to what was applied makes the books balance line by line |
| LedgerComposition.AllocationTouchesOnlyOpenRows | server/src/repositories/chargeLine.repository.ts:64-85 | rows of other accounts, closed rows and rows on cancelled invoices are unchanged by an allocation |
| LedgerComposition.PromotionTellsPayment | server/src/api/payments/payments.service.ts:374-387 | only live invoices are credited and a credited invoice's status says whether it is paid off |
| LedgerComposition.OpenChargesCompose | server/src/repositories/chargeLine.repository.ts:64-95 | the charges read from a ledger in order have distinct ids and non-negative prior allocations |
| LedgerComposition.SameOwingSameWalk | server/src/utils/payment-allocation.ts:130-136 | lists that agree on what is owed are allocated alike |
| LedgerComposition.ReadBackIsCarriedForward | server/src/api/payments/payments.service.ts:291-306 | after an allocation the stored open charges owe what carrying it forward predicts |
| LedgerComposition.OtherAccountUntouched | server/src/api/payments/payments.service.ts:274-398 | an allocation leaves another account's open charges, the amounts applied to its lines and its credit as they were |
| LedgerComposition.StoredPaymentsCompose | server/src/api/payments/payments.service.ts:291-398 | any number of FIFO payments into any accounts, stored one after the other, apply to every line of an account and credit it exactly as one payment of the sum of those into it would |
| LedgerOrder.PayEachFollows | server/src/api/payments/payments.service.ts:274-398 | a list of stored FIFO payments into any accounts credits each account with the sum of those into it, stamps exactly them, credits each invoice with what its paid amount gained, and closes only lines that received money |
| LedgerOrder.StoredOrderIrrelevant | server/src/api/payments/payments.service.ts:274-398 | whatever order payments into any accounts are stored in, every line and every account's credit receive the same and the tables end the same, up to the paid amounts of closed lines |
| LedgerOrder.ReorderedOrderIrrelevant | server/src/repositories/chargeLine.repository.ts:168-208 | with the increments first the order of payments leaves no trace in the tables |
| LedgerStore.BookingIsCrediting | server/src/api/payments/payments.service.ts:351-387 | booking the aggregated impacts and then promoting credits every invoice with what the lines bring it |
| LedgerStore.RereadFindsPlanned | server/src/api/payments/payments.service.ts:324-332 | re-reading the statuses finds exactly the planned rows |
| LedgerStore.Store.StampAllocatedAtInTx | server/src/repositories/payment.repository.ts:81-94 | the count says whether this call won the payment, and only then is it stamped |
| LedgerStore.Store.MarkPaidBulk | server/src/repositories/chargeLine.repository.ts:148-166 | exactly the listed open rows become PAID, and the count is their number |
| LedgerStore.Store.UpdatePartialPaidAmounts | server/src/repositories/chargeLine.repository.ts:185-208 | one guarded increment per update, in order |
| LedgerStore.Store.IncrementPaidAmountInTx | server/src/repositories/invoice.repository.ts:84-93 | one invoice's paid amount grows, nothing else changes |
| LedgerStore.Store.PromoteStatus | server/src/api/payments/payments.service.ts:374-387 | the status follows the paid amount |
| LedgerStore.Store.RecordPaymentLedgerEntryInTx | server/src/repositories/finance.repository.ts:180-193 | balance down and credits up by the same amount on one account |
| LedgerStore.Store.CreditInvoices | server/src/api/payments/payments.service.ts:351-387 | the two loops over the impacts credit the invoice table as specified |
| LedgerStore.Store.SettleCharges | server/src/api/payments/payments.service.ts:309-349 | flip, reconcile, increment: the rows end as specified and the flipped ids are the planned ones |
| LedgerStore.Store.AllocateInTx | server/src/api/payments/payments.service.ts:274-398 | the whole transaction in the order of the service ends in the specified tables |
| LedgerStore.Store.AllocateForPayment | server/src/api/payments/payments.service.ts:237-401 | the service: each refusal exactly in its case, otherwise one allocation step, books kept |
| LedgerStore.Store.CreateWithLines | server/src/repositories/invoice.repository.ts:143-199 | performs exactly the creation step |
| LedgerStore.Store.CreateCharge | server/src/repositories/finance.repository.ts:109-118 | performs exactly the legacy charge step |
| LedgerStore.Store.CreatePayment | server/src/repositories/finance.repository.ts:120-135 | performs exactly the legacy payment step |
| HesaCsv.RecordWidths | server/src/utils/hesa-csv-export.ts:63-75 | header and data records have two key columns and one field per column, followed by eight trailer records |
| HesaCsv.NoteIsFormatted | server/src/utils/hesa-csv-export.ts:82-88 | the hand-written notes are what `formatRow` would write |
| HesaCsv.ExportHesaReturnAsCsv | server/src/utils/hesa-csv-export.ts:57-91 | the export loop yields a text that parses to exactly the records, ending in the described notes and the four counts as numbers |
| HesaCsv.FieldRoundTrip | server/src/utils/hesa-csv-export.ts:21-39 | a formatted field, whatever it contains, parses back to its rendered text |
| HesaCsv.BareFieldIff | server/src/utils/hesa-csv-export.ts:21-39 | a field is written bare, absent values as nothing, exactly when it holds no comma, line break or double quote |
| HesaCsv.DecimalSpells | server/src/utils/hesa-csv-export.ts:85-88 | a count is written as digits with its value and no leading zero |
| HesaCsv.RowRoundTrip | server/src/utils/hesa-csv-export.ts:41-43 | so does a row |
| HesaCsv.ExportRoundTrip | server/src/utils/hesa-csv-export.ts:57-91 | an RFC 4180 parser applied to the export returns the header, data and trailer records of every composition |
| HesaCsv.ExportInjective | server/src/utils/hesa-csv-export.ts:57-91 | equal exports mean equal records |
| HesaReturn.BlockIsSorted | server/src/utils/hesa-return-composition.ts:540-584 | a block is its rows, each once with its own key, id and fields, ascending in key and numbered by position |
| HesaReturn.EveryRowIsListed | server/src/utils/hesa-return-composition.ts:586-621 | every row of each of its blocks is in the return, under its preferred key or the other |
| HesaReturn.LinesCountTheRows | server/src/utils/hesa-return-composition.ts:586-621 | a return has as many lines as its blocks have rows |
| HesaReturn.LinesDeterministicIff | server/src/utils/hesa-return-composition.ts:538-639 | the order in which the cohort was read cannot be seen in the return if and only if rows of a block that share a key come out as the same line |
| HesaReturn.SortOrderIsPosition | server/src/utils/hesa-return-composition.ts:617-621 | `sortOrder` is the position for every return type |
| HesaReturn.AcceptedPatterns | server/src/utils/hesa-return-composition.ts:382-400 | exactly the two anchored digit shapes are accepted |
| HesaReturn.SkippedWording | server/src/utils/hesa-return-composition.ts:667 | a message starts with the skip word exactly when a skipping branch wrote it |
| HesaReturn.MismatchWording | server/src/utils/hesa-return-composition.ts:663 | a message is the not-applicable text exactly when that branch wrote it |
| HesaReturn.MessagesTellTheVerdict | server/src/utils/hesa-return-composition.ts:288-528 | what the composer reads off a result by its message is the verdict on the rule, which is judged independently on what the line holds, and severities follow it |
| HesaReturn.ValidateRule | server/src/utils/hesa-return-composition.ts:655-675 | the inner loop yields the results and counts of one rule over the lines in order |
| HesaReturn.Validate | server/src/utils/hesa-return-composition.ts:641-676 | the two loops yield the rule-major results of the active rules and their counts |
| HesaReturn.ComposeHesaReturn | server/src/utils/hesa-return-composition.ts:535-676 | the composed lines, results and counts, errors, warnings and infos being those of the results |
| HesaReturn.ValidationAccounting | server/src/utils/hesa-return-composition.ts:648-676 | for any evaluator whose messages are honest, errors and warnings count the failed results of that severity, infos the failed INFO ones and the skipped |
| HesaReturn.ResultsSplit | server/src/utils/hesa-return-composition.ts:648-675 | results come rule by rule and line by line, one for each active rule and line of its entity type |
| HesaReturn.NoErrorsIff | server/src/utils/hesa-return-composition.ts:670-671 | no errors are counted exactly when no active ERROR rule fails on any line |
| HesaReturn.ExportReturn | server/src/utils/hesa-csv-export.ts:57-91 | composing and exporting a cohort gives a file that parses to exactly the header, one record per cohort row in key order with every cell's text, and a trailer whose texts spell the true counts |
| HesaReturn.RecordShowsRow | server/src/utils/hesa-csv-export.ts:67-75 | the record of a line is its row's key, the name of its kind, and per column the text the row holds or nothing |
| Awards.AggregateMarks | server/src/utils/marks-aggregation.ts:89-138 | the loop computes the rounded weighted mean, counts, completeness and missing ids |
| Awards.OneAttempt | server/src/utils/marks-aggregation.ts:109-119 | a single attempt aggregates to its mark out of a hundred when it has a mark, a positive maximum and a positive weighting, else to nothing |
| Awards.AggregateSplits | server/src/utils/marks-aggregation.ts:121-128 | the aggregate of two groups is the mean of theirs weighted by their total weightings |
| Awards.OnlyContributingCounts | server/src/utils/marks-aggregation.ts:109-119 | attempts that do not contribute cannot be seen in the aggregate |
| Awards.AggregateBetween | server/src/utils/marks-aggregation.ts:121-128 | the aggregate lies between the rounded bounds of the contributing percentages |
| Awards.AggregatePermutation | server/src/utils/marks-aggregation.ts:108-128 | the order of attempts does not matter |
| Awards.AggregateScaleInvariant | server/src/utils/marks-aggregation.ts:122-128 | scaling all weightings by a positive factor changes nothing |
| Awards.AggregateMonotone | server/src/utils/marks-aggregation.ts:121-128 | raising a contributing mark never lowers the aggregate |
| Awards.ClassifyAward | server/src/utils/award-classification.ts:157-276 | the loop and the level switch compute the specified outcome |
| Awards.LevelDecides | server/src/utils/award-classification.ts:214-275 | the honours table decides at level 6, the postgraduate table at level 7 and the pass mark alone below; nothing passes at level 8 or without an average |
| Awards.DefaultClasses | server/src/utils/award-classification.ts:112-131 | under the default rules the class by the mean of the module aggregates: a first from 69.995, and so on for each level |
| Awards.OneModule | server/src/utils/award-classification.ts:185-204 | a module counts with a mark, positive credits and a positive weight, its credits unless one is given, and is excluded by id otherwise |
| Awards.ResultsSplit | server/src/utils/award-classification.ts:185-212 | terms, exclusions and credits of two groups of modules are put together, and their mean is that of both means weighted |
| Awards.ApplyBoundariesFirst | server/src/utils/award-classification.ts:142-150 | the class is that of the first boundary met, none when no boundary is met |
| Awards.ClassMonotone | server/src/utils/award-classification.ts:214-275 | a higher average never earns a lower class, at any level and under any descending rules |
| Awards.DefaultRulesDescend | server/src/utils/award-classification.ts:112-131 | the default tables descend in merit and in threshold |
| Awards.HigherMarkNeverHurts | server/src/utils/award-classification.ts:142-276 | raising any contributing mark lowers neither the module aggregate, nor the final average, nor the class |
| Awards.DoubleRoundingBound | server/src/utils/award-classification.ts:133-135 | the final average is within 0.01 of the mean of unrounded module percentages |
| Awards.BoundaryMetIff | server/src/utils/award-classification.ts:147 | a boundary is met exactly when the mean of the module aggregates is within 0.005 of the boundary taken up to whole hundredths |
| Awards.BoundaryOnGridMetIff | server/src/utils/award-classification.ts:147 | for a boundary of at most two decimals that is the boundary less 0.005 |
| WeightedMean.MeanDominates | server/src/utils/award-classification.ts:194-212 | values raised by no less than a slack move the mean by no less than that slack |
| WeightedMean.MeanSplits | server/src/utils/marks-aggregation.ts:121-128 | the mean of one term is its value, and that of two groups the mean of their means weighted by what each weighs |
| Prelude.TextLeqIff | server/src/utils/hesa-return-composition.ts:542-547 | a text precedes another exactly if it begins it or has the smaller character where they first differ |
| WeightedMean.Round2Error | server/src/utils/award-classification.ts:133-135 | rounding moves a value by at most half a hundredth |
| TokenRefresh.StepKeepsInvariant | client/src/lib/api.ts:47-83 | every step keeps single flight, settlement exactly once and the budget |
| TokenRefresh.StepDecreases | client/src/lib/api.ts:51-59 | every step uses up one of finitely many remaining steps |
| TokenRefresh.EveryRunIsBounded | client/src/lib/api.ts:33-83 | with n requests: at most n refreshes, n(n+1)/2 resends and n(n+4) steps, and in every reachable state at most one refresh is pending, an idle interceptor has an empty queue and everyone queued was settled once by the refresh it waited on |
| TokenRefresh.NeverStuck | client/src/lib/api.ts:53-81 | while a request is unsettled a step is possible |
| TokenRefresh.StepSettlesIff | client/src/lib/api.ts:49-81 | an event settles a request exactly if it is its own answer, a 401 after its retry, or the failure of the refresh it leads or waits on, and a settled one stays as it is |
| TokenRefresh.ToldIffSettled | client/src/lib/api.ts:33-83 | over every run a caller is told an outcome if and only if such an event settled its request with it |
| TokenRefresh.SuccessIffAnswered | client/src/lib/api.ts:47-83 | over every run a request is reported as a success if and only if it was answered as one |
| TokenRefresh.RetryFlagSurvives | client/src/lib/api.ts:50-58 | a spent retry stays spent |
| TokenRefresh.Interceptor.OnUnauthorised | client/src/lib/api.ts:49-59 | the handler up to its `await` performs one step |
| TokenRefresh.Interceptor.ProcessQueue | client/src/lib/api.ts:36-45 | everyone queued is resolved or rejected in order and the queue is emptied |
| TokenRefresh.Interceptor.OnRefreshed | client/src/lib/api.ts:61-81 | the rest of the handler, `finally` included, performs one step |
| Pagination.ClampLimit | server/src/utils/pagination.ts:50-53 | limits end in 1 to 100, limits already there are kept, larger ones become 100 and missing or smaller ones 25 |
| Pagination.PageIsNextSlice | server/src/utils/pagination.ts:30-47 | however rows are arranged, a page is the next rows, `hasNext` says whether more follow, and the cursor leads to exactly the row after |
| Pagination.WalkEnumerates | server/src/repositories/invoice.repository.ts:35-46 | following cursors shows every remaining row once, in order, in as many pages as needed |
| Pagination.WholeTableWalk | server/src/repositories/invoice.repository.ts:35-46 | from the first page it shows the whole table in max(1, ceil(n / limit)) pages |
| Pagination.ShownOncePlusSlips | server/src/repositories/invoice.repository.ts:35-46 | with rows inserted and rearranged between fetches, a row is shown once plus its slips back over a cursor less its slips past one |
| Pagination.ShownOnceIff | server/src/repositories/invoice.repository.ts:35-46 | so exactly once if and only if its slips cancel |
| Pagination.NoRowMissedOrRepeated | server/src/utils/pagination.ts:30-47 | while rows already there keep their order, each row present at the start is shown exactly once and none twice |
| Pagination.UntiedRowShownOnce | server/src/repositories/invoice.repository.ts:42 | however ties are arranged, a row that ties with no page's last row is shown exactly once |
| Pagination.NoTiesMeansSteady | server/src/repositories/invoice.repository.ts:42 | tables ordered by a column without ties keep their order whatever is inserted |
| Pagination.TiedWalkNeverFinishes | server/src/repositories/invoice.repository.ts:35-46 | three tied rows can keep a walk going for any number of fetches with one of them never shown |
| Pagination.GrowingWalkInOrder | server/src/utils/pagination.ts:30-47 | ranks never fall as pages are read and no row is invented |
| Pagination.GrowingWalkFinishes | server/src/utils/pagination.ts:30-47 | while rows keep their order, the walk ends as soon as its fetches together could hold the rows there are to show |
| Cryptobox.UnpackPack | server/src/utils/cryptobox.ts:109-123 | unpacking a packed envelope recovers all eight parts |
| Cryptobox.PackUnpackIff | server/src/utils/cryptobox.ts:147-162 | an envelope is the packing of its parts if and only if it holds the AAD it declares |
| Cryptobox.SamePartsIff | server/src/utils/cryptobox.ts:147-162 | two envelopes have the same parts if and only if they are equal, or differ in the declared AAD length alone and neither holds more than it declares |
| Cryptobox.Decrypt | server/src/utils/cryptobox.ts:137-182 | the walk over the buffer computes the specified result, each error exactly in its case |
| Cryptobox.EnvelopeLayout | server/src/utils/cryptobox.ts:81-123 | an encrypted envelope byte by byte at the documented offsets, payload and wrapped key both sealed under the AAD |
| Cryptobox.ErrorsInTheirCases | server/src/utils/cryptobox.ts:137-169 | each error of decryption exactly in its case |
| Cryptobox.DecryptInvertsEncrypt | server/src/utils/cryptobox.ts:81-182 | encryption succeeds exactly for a right-sized key and an AAD that fits, and decryption under the same AAD gives the payload back |
| Cryptobox.AcceptedIsEncryptedIff | server/src/utils/cryptobox.ts:137-182 | under an authentic cipher an accepted envelope is an encryption of what it decrypts to, if and only if it holds the AAD it declares |
| Cryptobox.PlainCipherIsIdeal | server/src/utils/cryptobox.ts:81-135 | what is asked of a cipher can be met |
| Cryptobox.OverdeclaredIsNotEncrypted | server/src/utils/cryptobox.ts:155-169 | both sides occur: an empty payload's envelope that declares more AAD than it holds is accepted, and is no encryption |
| Cryptobox.OtherAadRejected | server/src/utils/cryptobox.ts:164-169 | any other AAD is rejected whatever cipher would have been asked |
| Cryptobox.CutEnvelopeRejected | server/src/utils/cryptobox.ts:140-169 | an envelope cut before its ciphertext is rejected before any cipher is used |
| Bursary.VerdictMonotoneInIncome | server/src/utils/bursary-decision.ts:126-244 | the verdict only moves from APPROVE through REVIEW to REJECT as income rises |
| Bursary.VerdictIff | server/src/utils/bursary-decision.ts:86-244 | exactly when an application is rejected, approved or reviewed, and the award suggested, with every default limit |
| Bursary.ApprovalIsFunded | server/src/utils/bursary-decision.ts:133-223 | an approval awards a positive amount within thresholds, caps and remaining budget |
| Bursary.RunKeepsBudget | server/src/repositories/bursaryFund.repository.ts:85-116 | over every run allocated plus remaining is constant and remaining never goes negative |
| Bursary.DecisionKeepsMatchIff | server/src/api/bursary-applications/bursary-applications.service.ts:245-288 | a decision keeps allocated in step with the live awards exactly when an approval meets no stale award and anything else meets no paid one |
| Bursary.StepStaysInStepIff | server/src/api/bursary-applications/bursary-applications.service.ts:245-288 | one event keeps allocated equal to the sum of the live awards if and only if it approves no row with a stale award and does nothing but approve a paid one |
| Bursary.RunStaysInStepIff | server/src/api/bursary-applications/bursary-applications.service.ts:245-288 | allocated is the sum of the live awards at every point of a run if and only if every event meets that condition |
| Bursary.RunStaysMatchedIff | server/src/api/bursary-applications/bursary-applications.service.ts:245-288 | that, and no award left recorded without its budget, at every point of a run if and only if no decision reviews an approved award or does anything but approve a paid one |
| Bursary.ForgottenAwardWitness | server/src/api/bursary-applications/bursary-applications.service.ts:248-287 | approve, review, approve: nothing allocated against a live award |
| Bursary.BursaryDesk.AutoDecideForApplication | server/src/api/bursary-applications/bursary-applications.service.ts:186-290 | the transaction performs exactly the decision step, only on a row not yet decided unless forced, leaves status and award as the verdict says, and stays solvent |
| Bursary.BursaryDesk.ReserveBudgetInTx | server/src/repositories/bursaryFund.repository.ts:85-97 | moves an amount from remaining to allocated |
| Bursary.BursaryDesk.ReleaseBudgetInTx | server/src/repositories/bursaryFund.repository.ts:104-116 | moves it back |
| Fees.SumContributions | server/src/utils/fee-calculation.ts:143-152 | the sum of the positive contributions |
| Fees.CalculateFee | server/src/utils/fee-calculation.ts:197-249 | final fee plus discount is the total, and the discount lies between nothing and the total |
| Fees.FeeConserves | server/src/utils/fee-calculation.ts:219-232 | the same for every input, the discount being the smaller of contributions and cap |
| Fees.DefaultTariff | server/src/utils/fee-calculation.ts:120-134 | the default fee for whole credits, by status, level and mode, exactly |
| Fees.OverridesDecide | server/src/utils/fee-calculation.ts:154-220 | overrides that are not negative replace the tariff, negative ones are ignored, and fewer than no credits count as none |
| Fees.DiscountUpToRatio | server/src/utils/fee-calculation.ts:222-226 | the discount is what was contributed up to the given part of the total |
| Fees.DiscountUpToTotal | server/src/utils/fee-calculation.ts:186-191 | without a valid ratio it is what was contributed up to the whole total |
| Fees.ContributionsAddUp | server/src/utils/fee-calculation.ts:143-152 | positive contributions count, and contributions in whole pennies are added exactly |
| Fees.MoreContributionsNeverCost | server/src/utils/fee-calculation.ts:222-232 | more in contributions never raises the fee |
| Fees.AddingAndReordering | server/src/utils/fee-calculation.ts:222-232 | adding bursary or sponsor contributions never raises the fee and reordering either list never changes it |
| Fees.InvoicePostsFinalFee | server/src/utils/invoice-composition.ts:166-241 | raising the composed invoice moves the student's balance by exactly the final fee and adds one pending line for it, due on the date given or the default number of days after issue |
| Fees.BoundariesPartition | server/src/repositories/financeOverview.repository.ts:152-190 | each age lies in exactly one bucket, which is the one found |
| Fees.BucketByDueDate | server/src/repositories/financeOverview.repository.ts:180-188 | an invoice is in a bucket exactly when that many whole days have passed since it was due |
| Fees.OneInvoiceAges | server/src/repositories/financeOverview.repository.ts:174-194 | an invoice adds what it is short of its total to its bucket, and nothing when paid in full |
| Fees.GetAgeing | server/src/repositories/financeOverview.repository.ts:160-209 | each bucket holds exactly the outstanding invoices of its age |
| Fees.BucketsSumToTotals | server/src/repositories/financeOverview.repository.ts:174-208 | counts and amounts of the buckets sum to the totals |

## Left out

- IEEE-754 arithmetic, NaN and Infinity: money is in pennies and ratios are exact, so rounding is modelled and binary error is not.
- Interleavings inside one database transaction: every transaction is one atomic step.
- `force` re-allocation, preview modes (`persist: false`), generic updates, soft deletion and the `deletedAt` filters.
- Manual status changes of bursary applications other than marking an approved one paid.
- LedgerTables.Accepts: row ids are given by the caller where the database would generate them, and account lookups that fail refuse the event.
- LedgerTables.InvoiceStatus: FULLY_PAID and VOIDED stand for the stored statuses PAID and WRITTEN_OFF, which charge lines also have.
- PaymentAllocation.CompareForFifo: ids are compared by character value, not by `localeCompare`.
- Strings are sequences of characters; surrogate pairs and the UTF-16 lengths of JavaScript are not modelled.
- HesaCsv.Cell: a field value carries one rendering, so a date shown differently by `String` and by the exporter is not modelled.
- HesaReturn.Wording: the tails of messages that quote bounds from the rule, and the flattened field lists and column orders, which are parameters here.
- AES-GCM, randomness, base64 and environment reads: Cryptobox works over byte sequences and an ideal cipher.
- Axios and Keycloak internals, the request interceptor and the redirect to the login page.
- Deletions and changes of the ordering column during a page walk, and `getStudentsByProgramme`, which fetches `limit` rows instead of `limit + 1`.
- Notes, reasons, descriptions, invoice numbers, audit entries and domain events.
- CRUD repositories, routers, role tables, middleware, outbox delivery and all user interface: plumbing or finite data.
