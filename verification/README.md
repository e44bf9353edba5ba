# Harpia: proofs about the transactional core

A Dafny 4.11 model of the parts of the Harpia back office where several tables must agree: the money ledger, the
commercial protocol from reservation to sale, the way from a proposal to its installments, the computations that exist
in two forms, and the audit sanitizer. `dafny verify dfyconfig.toml` checks the whole project.

## How the model is built

Every database transaction is a function from the tables to the tables it commits, or to the exception that rolls it
back (`Outcome`). Tables are sequences whose row numbers are the ids, because none of the modelled operations deletes a
row. Beside these functions stand classes with the tables as mutable fields (`LedgerService`, `CommercialService`,
`SanitizerWalk`, the receivable table in `Installments`): one method for each service transaction, written statement by
statement in the order of the service, with a loop for each query and bulk update, proved to commit exactly what the
function says or to leave everything untouched. The tables of both services have a `Valid()` invariant that every
transaction requires and ensures; helpers that run inside a transaction do not.
The properties are then proved about the functions: when a call is accepted and what it writes, column by column; what
every call keeps; and what therefore holds after every run. The modules named Effects have one such lemma for every
call; those of the simplest calls have no row below.

Money is counted in integer cents, prices and index percentages are exact rationals, times are integers, calendar dates
are day numbers of the proleptic Gregorian calendar with the milliseconds of the day. Clocks, generated ids and the JSON
functions of the platform are parameters.

| files | content |
|---|---|
| `Ledger`, `LedgerInvariant` | tables, transactions and derived sums of the ledger; its invariant |
| `LedgerMoney`, `LedgerTables`, `LedgerSteps` | conservation of money; every transaction keeps the invariant |
| `LedgerEffects`, `LedgerBalance` | when each call is accepted and what it writes, on the columns; the balance of a sale in every run |
| `LedgerRuns`, `LedgerHistory`, `LedgerProgress`, `LedgerSettlement` | every reachable state; what no run undoes; what calls undo; which sales can be settled |
| `LedgerConstraints` | the CHECK constraints of the migrations against the services that write the rows |
| `LedgerService` | the imperative transactions of the ledger |
| `MatchingInterleaving` | bank matching when its transactions interleave at their row locks |
| `Commercial`, `CommercialSteps`, `CommercialRuns`, `CommercialHistory`, `CommercialService` | units, reservations, proposals, sales: protocol, invariant, runs, what no run undoes, imperative transactions |
| `CommercialEffects`, `StageEffects` | when each commercial call is accepted and what it writes, on the columns |
| `CommercialConversion`, `CommercialStranding` | exactly which accepted proposals convert; exactly which runs strand a unit |
| `Office`, `OfficeEffects` | the commercial protocol and the ledger as one system |
| `OpportunityStage` | pipelines, the single stage writer, the stage history |
| `LockOrder`, `LockCoverage` | explicit row locks of the commercial transactions, and that they cover the rows written |
| `Pricing`, `Installments`, `Calendar` | from prices to receivables and their due dates |
| `MonetaryAdjustment`, `Rounding`, `Sums` | index adjustment, rounding, sums |
| `CompatibilityScore`, `Timeline`, `TimelineCursor`, `CashFlow`, `InvestorReport` | computations in two forms |
| `Sanitizer`, `SanitizerWalk`, `SanitizerKeys`, `SanitizerFull` | the audit metadata sanitizer, which keys it hides, what it shows in full |

## What the proofs bring out

- A reservation converted by hand (not by accepting a proposal) strands its unit: it stays RESERVADA in every later run.
  Nothing else strands a unit (`StrandedExactly`, `StrandedForever`, `ByHandStrands`).
- In the conversion of an accepted proposal the branch for a reservation that is still ATIVA is never taken, and the
  unit and reservation checks never fail (`PendingConvertible`). What is left is `PendingConvertsExactly`.
- The acceptance tests neither the development of the opportunity nor whether the plan can be split; the conversion does.
  What slips through stays accepted, unsold and RESERVADA (`AcceptedConvertsExactly`, `WrongDevelopmentWaits`,
  `UnsplittableForever`, with runs that get there).
- Monetary adjustment can leave a receivable that admits no payment and is not PAGO; exactly then its sale cannot be
  settled (`SettledExactly`, `HalvedNeverSettles`, `CentVanishes`).
- The guard against an inconsistent payment history never fires, and the missing status guard of the reversal is safe,
  because nothing is ever paid on a cancelled row (`ReversalNeverInconsistent`, `CancelledForever`).
- A few accepted calls write rows the CHECK constraints refuse; they are listed exactly in `Refused`. With the
  constraints in force PAGO means fully paid even with monetary adjustment (`ChecksExactly`, `CheckedRuns`).
- Once a proposal is accepted its terms are frozen: whatever runs in between, the sale carries exactly its unit and prices
  (`AcceptedTermsAreSold`).
- A payment condition of zero is accepted by the pricing rules and makes the proposal impossible to convert
  (`ZeroConditionBlocksConversion`); the exact condition is `ConvertibleExactly`.
- Month arithmetic is exact for every date whose year is not 0 to 99 (`AddUtcMonthsExact`).
- The two compatibility scores agree only because the table forbids negative bounds (`ScoresAgree`,
  `NegativeBoundDiverges`); a criterion reaches 0 slightly before 10% and 20%, at 9.95% and 19.9% (`ZeroExactly`).
- match and reversePayment take their two row locks in opposite orders and still cannot deadlock
  (`MatchingNeverDeadlocks`), and every interleaving is serial in the order of the commits (`InterleavingIsSerial`).
- The sanitizer tests a key before it cuts it to 120 units: a long key that is not hidden can be shown as one that ends
  in a listed word (`CutKeyShowsWord`, `LongKeyIsCut`); below 120 units no output key has one (`OutputKeys`).

## Model

| member | source | states |
|---|---|---|
| `LedgerRuns.MoneyAlwaysConserved` | src/finance/finance.service.ts:88-94 | after every run of calls from an empty ledger: each paid amount is the sum of the unreversed payments and lies between 0 and the amount due, each payment is paired with one transaction equal to it and reversed with it, and the cash balance is everything received minus everything paid out |
| `LedgerMoney.CashConserved` | src/finance/finance.service.ts:88-94 | in any state with paired payments and synchronised paid amounts, the signed sum of the transactions is the sum of received minus the sum of paid out (double counting over targets) |
| `LedgerMoney.SalePaidIsLive` | src/sales/sales.service.ts:677-682 | what the receivables of a sale have received is the sum of the unreversed payments on them |
| `LedgerRuns.SaleStatusAlwaysSynced` | src/receivables/receivables.service.ts:823-876 | in every run a sale in force is QUITADA exactly when it has a receivable that is not cancelled and all of those are PAGO; a distratada sale has only cancelled receivables |
| `LedgerRuns.OutstandingIsNetMinusPaid` | src/sales/sales.service.ts:661-690 | in every run, while no receivable of a sale is cancelled or adjusted, the presented outstanding balance is the net amount minus the live payments on its receivables |
| `LedgerBalance.BalanceAlways` | src/sales/sales.service.ts:661-690 | in every run, adjustments and cancellations included, the presented outstanding balance of a sale is its net amount plus the recorded differences of its receivables minus what cancelled ones amount to minus the live payments |
| `LedgerRuns.MatchingAlwaysInjective` | src/finance/bank-reconciliation.service.ts:207-260 | in every run an entry is CONCILIADO exactly when it points to a transaction, that transaction is unreversed with the same account, nature and amount, and no two entries share one |
| `LedgerRuns.StatusFollowsPaid` | src/receivables/receivables.service.ts:261-274 | in every run PENDENTE or CANCELADO means nothing paid, PARCIAL or PAGO means something paid |
| `LedgerRuns.AdjustedIsOriginalPlusDifferences` | src/monetary-adjustment/monetary-adjustment.service.ts:228-249 | in every run the adjusted amount is the original amount plus the recorded differences and never below the paid amount |
| `LedgerRuns.OriginsAlwaysAgree` | src/finance/payables.service.ts:785-820 | in every run an automatic payable carries the amount of its commission or return and is PAGO or CANCELADO exactly when the origin is; the realised amount of a return is the paid amount |
| `LedgerHistory.CancelledForever` | src/receivables/receivables.service.ts:376-412 | whatever runs after it, a cancelled receivable stays CANCELADO with the same amounts and no payment on it is posted or reversed, although the reversal has no status guard |
| `LedgerHistory.DistratoIsFinal` | src/sales/sale-cancellations.service.ts:46-92 | DISTRATADA is never left; from then on all receivables and all commission payables of the sale are CANCELADO and no later step moves money on them |
| `LedgerHistory.RunLater` | src/receivables/receivables.service.ts:450-487 | two-state property of every run: rows keep their identity, closed rows stay closed, payments are immutable but for one reversal, and payments on closed rows are frozen |
| `LedgerHistory.PagoMeansPaidInFull` | src/receivables/receivables.service.ts:315-327 | in every run without monetary adjustment a receivable is PAGO exactly when its paid amount equals its adjusted amount |
| `Office.ProposalToBalance` | src/sales/sales.service.ts:661-690 | in every run of both sides together, while no receivable of a sale is cancelled or adjusted, the presented outstanding balance is the base price of its proposal minus the discount minus the live payments |
| `Office.SaleIsOne` | src/sales/sales.service.ts:400-476 | in every run of both sides together the receivables of a sale carry the installments of the accepted version, sum to its final price, and decide whether the sale is QUITADA |
| `Office.ConversionRegisters` | src/sales/sales.service.ts:400-476 | what a conversion sells is never refused by the registration of its receivables, and the receivables are the sold installments |
| `Office.CloseKeeps` | src/sales/sale-cancellations.service.ts:29-127 | the distrato closes the sale on both sides and keeps them joined |
| `Office.BookKeeps` | src/receivables/receivables.service.ts:823-876 | a payment, reversal or cancellation keeps the status of the sale the same on both sides |
| `OfficeEffects.ConvertEffect` | src/sales/sales.service.ts:257-551 | a conversion of an accepted proposal sells on both sides, at the same price, exactly when it is convertible, and changes neither otherwise |
| `OfficeEffects.DistratoEffect` | src/sales/sale-cancellations.service.ts:29-127 | a distrato closes the sale on both sides and its unit, or changes neither when the ledger refuses it |
| `LedgerProgress.ReceivablePaymentUndone` | src/receivables/receivables.service.ts:382-445 | reversing the payment just recorded restores the receivable, the sale status and the reconciliation exactly; only the reversed pair of payment and transaction remains |
| `LedgerProgress.PayablePaymentUndone` | src/finance/payables.service.ts:337-385 | the same for a payable, with its commission DEVIDA again or its return unpaid; a payment date left on the row is dropped |
| `LedgerProgress.EntryCallsUndone` | src/finance/bank-reconciliation.service.ts:273-304 | unmatch after match, and restore after ignore, give the ledger back as it was |
| `LedgerSettlement.SettledExactly` | src/receivables/receivables.service.ts:849-853 | from every reachable state, adjustments included, payments alone bring a sale to QUITADA exactly when it has a receivable that is not cancelled and each of those is PAGO or has something left to pay |
| `LedgerSettlement.CheckedSettledExactly` | prisma/migrations/20260829010000_sale_receivables/migration.sql:27-58 | with the CHECK constraints in force the condition is that the sale has a receivable that is not cancelled and none of those was adjusted down to nothing |
| `LedgerSettlement.HalvedNeverSettles` | src/monetary-adjustment/monetary-adjustment.service.ts:225-235 | a run that adjusts a PARCIAL receivable down to what it received: the sale can never be settled by payments |
| `LedgerSettlement.CentVanishes` | src/monetary-adjustment/monetary-adjustment.service.ts:316-317 | a run the constraints admit that adjusts a cent down to nothing: the sale can never be settled by payments |
| `LedgerRuns.HasReceivable` | src/sales/sales.service.ts:400-476 | a registered sale always has a receivable, also after its distrato |
| `LedgerConstraints.ChecksExactly` | prisma/migrations/20260829010000_sale_receivables/migration.sql:27-58 | from a reachable state, an accepted call breaks a CHECK constraint of receivables, payables, bank entries, payments, transactions, commissions or the net amount of a sale exactly when it adjusts a PAGO receivable to another amount, adjusts a PARCIAL one down to what it received, edits a CANCELADO payable, raises a PAGO payable, or creates an automatic payable of zero |
| `LedgerConstraints.MoneyTablesCheck` | prisma/migrations/20260830010000_financial_core/migration.sql:99-104 | payments and transactions are always positive and a transaction always has the nature of its target |
| `LedgerConstraints.CheckedRuns` | prisma/migrations/20260830010000_financial_core/migration.sql:53-66 | with the constraints in force, every run (adjustments included) keeps the invariant and PAGO means exactly that the adjusted amount was paid |
| `LedgerConstraints.AdjustmentChecks` | src/monetary-adjustment/monetary-adjustment.service.ts:229-235 | which adjustments the Receivable constraints refuse |
| `LedgerConstraints.UpdatePayableChecks` | src/finance/payables.service.ts:180-228 | which edits of a payable the Payable constraints refuse: the status is recomputed but paidAt and cancelledAt are not |
| `LedgerConstraints.EntriesCheck` | prisma/migrations/20260902010000_bank_reconciliation/migration.sql:27-31 | the reconciliation never writes an entry its constraint would refuse |
| `LedgerSteps.RecordReceivablePaymentKeeps` | src/receivables/receivables.service.ts:242-356 | recording a payment keeps the whole ledger invariant |
| `LedgerSteps.ReverseReceivablePaymentKeeps` | src/receivables/receivables.service.ts:358-448 | reversing a payment keeps the whole ledger invariant |
| `LedgerSteps.ReversalNeverInconsistent` | src/receivables/receivables.service.ts:383-391 | for an unreversed payment of the receivable the inconsistency guard never fires, and the receivable is not cancelled |
| `LedgerSteps.PayableReversalNeverInconsistent` | src/finance/payables.service.ts:351-356 | the same for payables |
| `LedgerSteps.ApplyAdjustmentKeeps` | src/monetary-adjustment/monetary-adjustment.service.ts:214-261 | applying an index period keeps the invariant |
| `LedgerSteps.RegisterSaleKeeps` | src/sales/sales.service.ts:400-476 | a new sale with its receivables and commissions keeps the invariant; its receivables sum to its net amount |
| `LedgerSteps.AddCommissionKeeps` | src/sales/sales.service.ts:607-659 | adding a commission keeps the invariant |
| `LedgerSteps.CreatePayableKeeps` | src/finance/payables.service.ts:147-178 | a new manual payable keeps the invariant: nothing is paid on it and it is the payable of no origin |
| `LedgerSteps.CancelSaleFromActive` | src/sales/sale-cancellations.service.ts:46-60 | a distrato only ever succeeds on an ATIVA sale: a QUITADA one has paid receivables |
| `LedgerSteps.CancelSaleKeeps` | src/sales/sale-cancellations.service.ts:29-127 | the distrato keeps the invariant over receivables, payables, commissions and the sale |
| `LedgerSteps.UpdatePayableKeeps` | src/finance/payables.service.ts:180-242 | editing a manual payable keeps the invariant |
| `LedgerSteps.RecordPayablePaymentKeeps` | src/finance/payables.service.ts:244-335 | paying a payable keeps the invariant, its origin included |
| `LedgerSteps.ReversePayablePaymentKeeps` | src/finance/payables.service.ts:337-412 | reversing a payable's payment keeps the invariant, its origin included |
| `LedgerSteps.CancelPayableKeeps` | src/finance/payables.service.ts:414-443 | cancelling a manual payable keeps the invariant |
| `LedgerSteps.MarkCommissionDueKeeps` | src/finance/payables.service.ts:445-513 | marking a commission due keeps the invariant: each due or paid commission has exactly one payable of its amount |
| `LedgerSteps.CreateReturnKeeps` | src/returns/returns.service.ts:106-146 | a return and its payable keep the invariant |
| `LedgerSteps.UpdateReturnKeeps` | src/returns/returns.service.ts:148-218 | new terms of a return reach its unpaid payable and keep the invariant |
| `LedgerSteps.MatchKeeps` | src/finance/bank-reconciliation.service.ts:207-260 | a match keeps the partial injection |
| `LedgerSteps.ChangeStatusKeeps` | src/finance/bank-reconciliation.service.ts:316-351 | unmatch, ignore and restore keep the partial injection |
| `LedgerSteps.ImportEntryKeeps` | src/finance/bank-reconciliation.service.ts:123-164 | an imported entry starts unmatched and keeps the partial injection |
| `LedgerEffects.CancellationCancels` | src/receivables/receivables.service.ts:450-487 | in every reachable ledger, cancelling a receivable on which nothing is paid is accepted: the row becomes CANCELADO at that time, every other row stays, the open balance of its sale falls by its adjusted amount, and the sale is QUITADA exactly when another receivable is active and all active ones are PAGO |
| `LedgerEffects.CancelEffect` | src/receivables/receivables.service.ts:450-487 | a cancellation is accepted exactly when nothing is paid; a second one changes nothing |
| `LedgerEffects.PaymentEffect` | src/receivables/receivables.service.ts:242-356 | a payment is accepted exactly when it is not in the future, the receivable is open, the amount fits and the account is known; then the paid amount grows by it, PAGO and the date follow exactly from being paid in full, one payment and one ENTRADA transaction are appended, cash grows and the open balance of the sale falls by it, and the sale gets the status its receivables call for |
| `LedgerEffects.ReversalEffect` | src/receivables/receivables.service.ts:358-448 | a reversal is accepted exactly for a payment of the receivable not reversed before; then the amount comes off the row, which is PENDENTE or PARCIAL again, payment and transaction carry the time, the matched entry is pending again, and the open balance grows by it |
| `LedgerEffects.ReversalMovesCash` | src/receivables/receivables.service.ts:395-408 | reversing takes the amount out of the cash balance with the sign it went in with |
| `LedgerEffects.AdjustmentEffect` | src/monetary-adjustment/monetary-adjustment.service.ts:214-329 | an adjustment is accepted exactly for a new period in order, an active receivable, a policy with index values in it, and a result not below what was paid; the row then has the product to the nearest cent, and one row records what it was, is and the difference |
| `LedgerEffects.RegisterEffect` | src/sales/sales.service.ts:400-476 | a sale is registered exactly when its plans sum to its net amount and each leaves a cent for each installment; it has unpaid receivables of its own that sum to it and its forecast commissions |
| `LedgerEffects.DistratoEffect` | src/sales/sale-cancellations.service.ts:29-127 | a distrato is accepted exactly for an ATIVA sale on which nothing was received, no commission is paid and nothing was paid out; then the sale is DISTRATADA, its receivables, commission payables and commissions are cancelled, its open balance is zero and no other row changes |
| `LedgerEffects.UpdatePayableEffect` | src/finance/payables.service.ts:180-242 | an edit is accepted exactly for a manual payable and an amount that what was paid admits; the status follows from the two |
| `LedgerEffects.PayablePaymentEffect` | src/finance/payables.service.ts:244-335 | the payment of a payable, like that of a receivable, with a SAIDA transaction and its origin: a return paid with its realised amount, a commission PAGA, exactly when it is paid in full |
| `LedgerEffects.PayableReversalEffect` | src/finance/payables.service.ts:337-412 | the reversal of a payable's payment, its origin unpaid again |
| `LedgerEffects.CancelPayableEffect` | src/finance/payables.service.ts:414-443 | a payable is cancelled exactly when it is manual and nothing is paid on it |
| `LedgerEffects.MarkDueEffect` | src/finance/payables.service.ts:445-513 | a commission is marked due exactly while it is neither paid nor cancelled, and has a payable of its amount afterwards, appended only if there was none |
| `LedgerEffects.UpdateReturnEffect` | src/returns/returns.service.ts:148-218 | new terms are accepted exactly while nothing was paid and reach return and payable together |
| `LedgerEffects.MatchEffect` | src/finance/bank-reconciliation.service.ts:207-260 | a match is accepted exactly for a pending entry and an unreversed transaction with its account, nature and amount that no entry points to; the entry is then CONCILIADO, points to it, carries the time, and no other row changes |
| `LedgerEffects.EntryEffects` | src/finance/bank-reconciliation.service.ts:273-351 | unmatch, ignore and restore are accepted exactly from CONCILIADO, PENDENTE and IGNORADO, and write exactly status, link and times of the entry |
| `LedgerService.Tables.RecordReceivablePayment` | src/receivables/receivables.service.ts:242-356 | the imperative transaction commits exactly the specified state (payment, transaction, receivable, sale status) or one of its four exceptions with nothing written |
| `LedgerService.Tables.ReverseReceivablePayment` | src/receivables/receivables.service.ts:358-448 | commits exactly the specified reversal, freeing the matched entries, or an exception with nothing written |
| `LedgerService.Tables.CancelReceivable` | src/receivables/receivables.service.ts:450-487 | commits exactly the specified cancellation: after success the row is CANCELADO, at this time unless it was before; a second one changes nothing |
| `LedgerService.Tables.SyncSaleStatus` | src/receivables/receivables.service.ts:823-876 | leaves exactly the status the receivables call for, and no other row changed |
| `LedgerService.Tables.EveryReceivablePaid` | src/receivables/receivables.service.ts:841-853 | the scan over the receivables finds whether the sale has active ones and all of them are PAGO |
| `LedgerService.Tables.Post` | src/receivables/receivables.service.ts:290-314 | appends one payment and its transaction, and nothing else |
| `LedgerService.Tables.Reverse` | src/receivables/receivables.service.ts:395-408 | marks one payment and its transaction reversed and frees exactly the entries matched with it |
| `LedgerService.Tables.ApplyAdjustment` | src/monetary-adjustment/monetary-adjustment.service.ts:214-261 | commits exactly the specified adjustment, computed by the multiplication loop, or one of its exceptions |
| `LedgerService.Tables.RegisterSale` | src/sales/sales.service.ts:400-476 | commits the sale with exactly the generated receivables, or the exception of the plan with nothing written |
| `LedgerService.Tables.CancelSale` | src/sales/sale-cancellations.service.ts:29-127 | the guards and the bulk updates of the distrato, in order, leave exactly the specified state |
| `LedgerService.Tables.CloseSale` | src/sales/sale-cancellations.service.ts:61-100 | the loops over receivables, payables and commissions leave exactly the rows of the sale cancelled |
| `LedgerService.Tables.UpdatePayable` | src/finance/payables.service.ts:180-242 | commits exactly the specified amount and status, or the exception |
| `LedgerService.Tables.SyncSourceOf` | src/finance/payables.service.ts:785-820 | writes exactly the origin of the payable: a paid return with its realised amount, or a commission PAGA or DEVIDA |
| `LedgerService.Tables.RecordPayablePayment` | src/finance/payables.service.ts:244-335 | commits exactly the specified payment and origin, or an exception with nothing written |
| `LedgerService.Tables.ReversePayablePayment` | src/finance/payables.service.ts:337-412 | commits exactly the specified reversal and origin, or an exception with nothing written |
| `LedgerService.Tables.CancelPayable` | src/finance/payables.service.ts:414-443 | commits exactly the specified cancellation of a manual payable |
| `LedgerService.Tables.MarkCommissionDue` | src/finance/payables.service.ts:445-513 | the commission is DEVIDA and has a payable, created only if there was none |
| `LedgerService.Tables.SyncReturnTerms` | src/finance/payables.service.ts:575-598 | the payable of the return, found by its source, takes the new amount exactly while nothing was paid on it |
| `LedgerService.Tables.UpdateReturn` | src/returns/returns.service.ts:148-218 | new terms reach return and payable together, or neither once money was paid |
| `LedgerService.Tables.ImportEntry` | src/finance/bank-reconciliation.service.ts:123-164 | appends a pending entry of a known account |
| `LedgerService.Tables.Match` | src/finance/bank-reconciliation.service.ts:207-260 | links a pending entry to a corresponding transaction that no entry has, or one of its exceptions |
| `LedgerService.Tables.ChangeStatus` | src/finance/bank-reconciliation.service.ts:316-351 | moves an entry from the expected to the target status and drops its link, or the exception |
| `MatchingInterleaving.MatchingSurvivesInterleaving` | src/finance/bank-reconciliation.service.ts:207-260 | for every interleaving of match, unmatch, ignore, restore and payment reversals at their row locks, each committed state is a partial injection into live corresponding transactions |
| `MatchingInterleaving.MatchingNeverDeadlocks` | src/receivables/receivables.service.ts:395-408 | although match locks entry before transaction and a reversal transaction before entry, no interleaving contains a deadlock |
| `MatchingInterleaving.ReversalWaitsBriefly` | src/receivables/receivables.service.ts:401-408 | a reversal waits for an entry only while a call holds it that itself waits for nobody |
| `MatchingInterleaving.AdvanceKeeps` | src/finance/bank-reconciliation.service.ts:316-351 | each statement or commit of one call keeps what every other call has established under its locks |
| `MatchingInterleaving.InterleavingIsSerial` | src/finance/bank-reconciliation.service.ts:207-351 | every interleaving is serial: its committed rows are those of its committed calls run by the ledger one after the other in the order of their commits, and the ledger accepts each of them |
| `MatchingInterleaving.MatchRuns` | src/finance/bank-reconciliation.service.ts:207-260 | a match that meets no lock ends after four statements with the rows as the ledger leaves them, or untouched when the ledger refuses it |
| `MatchingInterleaving.ChangeRuns` | src/finance/bank-reconciliation.service.ts:316-351 | the same for unmatch, ignore and restore, in two statements |
| `MatchingInterleaving.ReversalRuns` | src/receivables/receivables.service.ts:395-408 | the same for the reversal of a transaction, in three |
| `MatchingInterleaving.ReverseIsLedgers` | src/receivables/receivables.service.ts:395-408 | what a reversal leaves of entries and transactions is what the ledger writes when it reverses the payment |
| `Installments.SplitConserves` | src/receivables/receivables.service.ts:644-665 | the split exists exactly for 1 to 600 installments and at least a cent for each; it has that many parts, loses no cent, each is at least one cent, and only the last differs, by less than the count |
| `Installments.GenerateSucceeds` | src/receivables/receivables.service.ts:186-192 | generation succeeds exactly when every plan can be split |
| `Installments.GenerateCompletes` | src/receivables/receivables.service.ts:173-218 | from any existing keys exactly the missing keys 1..count of every plan are created, each once |
| `Installments.GenerateIdempotent` | src/receivables/receivables.service.ts:173-218 | once its rows exist, a second generation creates nothing |
| `Installments.GenerateConserves` | src/receivables/receivables.service.ts:186-218 | the receivables of a new sale sum to its plans to the cent and none is below one cent |
| `Installments.CreatedOnSchedule` | src/receivables/receivables.service.ts:667-714 | every receivable generated for a sale falls on the schedule of its plan, on the columns: it starts at the first due date of the plan, without one at the expected delivery for SALDO_CHAVES and else at the sale date; installment 1 is due on that very date and installment k (k - 1) * intervalMonths months later, one month if the column is null, at the same time of day and on the same day of the month or the last day of a shorter one, exactly for the years Date.UTC reads literally |
| `Installments.CreatedInOrder` | src/receivables/receivables.service.ts:697-714 | of two receivables generated for one plan the later installment is due on a later day, its interval in months after the earlier one, without drift |
| `Installments.CreatedAmount` | src/receivables/receivables.service.ts:644-665 | every receivable generated for a sale has the amount its number calls for: the whole for a single one, else the quotient in whole cents, and for the last what the others leave |
| `CommercialHistory.InstallmentsOnSchedule` | src/receivables/receivables.service.ts:667-696 | in every run each receivable of a sale is on the schedule of its payment condition, on the columns of the condition and of the sale |
| `CommercialHistory.InstallmentsInOrder` | src/receivables/receivables.service.ts:667-714 | in every run the installments of a condition fall due on strictly later days, whole intervals apart |
| `CommercialHistory.InstallmentsAreComplete` | src/receivables/receivables.service.ts:173-240 | the receivables of a sale are exactly the installments of its conditions, each once: 1 to the count for PARCELAS with a count, one for every other condition |
| `CommercialHistory.InstallmentsShareCondition` | src/receivables/receivables.service.ts:644-665 | in every run each receivable of a sale has its share of the amount of its condition |
| `Installments.ReceivableTable.GenerateForSale` | src/receivables/receivables.service.ts:167-240 | the nested insertion loops leave exactly the old rows followed by the generated ones, or the exception with the table as it was |
| `Installments.ReceivableTable.PushPlan` | src/receivables/receivables.service.ts:196-217 | the inner loop inserts exactly the missing installments of one plan |
| `Calendar.AddUtcMonthsLands` | src/receivables/receivables.service.ts:697-714 | for every date, where the month arithmetic lands: the counted month, the capped day, the same time |
| `Calendar.AddUtcMonthsExact` | src/receivables/receivables.service.ts:697-714 | adding months moves exactly that many months if and only if the year is not in 0..99, which Date.UTC reads as 1900..1999 |
| `Calendar.AddUtcMonthsIncreases` | src/receivables/receivables.service.ts:697-714 | more months always give a later day, whatever the capping |
| `Calendar.LastDayOfMonth` | src/receivables/receivables.service.ts:700-702 | day 0 of the next month is the last day of the month |
| `Calendar.FormulaIsTiling` | src/receivables/receivables.service.ts:703-713 | the closed day formula of ECMA-262 section 21.4.1 is the tiling of the day line by months, for all years |
| `Pricing.PricingConserves` | src/proposals/proposals.service.ts:774-811 | accepted pricing: conditions sum to base price minus discount, no value is negative, the down payment is part of the final price, and the payment-plan check passes exactly when there is a condition |
| `Pricing.DownPaymentIsEntrada` | src/proposals/proposals.service.ts:803-809 | the down payment counts the ENTRADA conditions only: none gives zero, all give the total |
| `Pricing.DownPaymentAdds` | src/proposals/proposals.service.ts:803-809 | the down payment of a list is the sum of the down payments of its parts, so that of a mixed list is the sum of its ENTRADA conditions |
| `Pricing.PricingExactly` | src/proposals/proposals.service.ts:774-811 | a pricing is accepted exactly when the discount lies between zero and the base price, no condition is negative and the conditions sum to what is left, in cents rounded half away from zero; the values are those cents |
| `Pricing.ProposalToInstallments` | src/sales/sales.service.ts:851-867 | whatever an accepted proposal converts into sums to its base price minus its discount, each installment at least one cent |
| `Pricing.ConvertibleExactly` | src/sales/sales.service.ts:345-476 | a priced proposal can be turned into receivables exactly when it has conditions and each leaves a cent for each installment |
| `Pricing.ZeroConditionBlocksConversion` | src/proposals/proposals.service.ts:788-802 | a concrete proposal whose condition of zero passes the pricing rules and then blocks its conversion |
| `MonetaryAdjustment.AccumulateFactor` | src/monetary-adjustment/monetary-adjustment.service.ts:310-315 | the loop computes the product of one plus each percentage |
| `MonetaryAdjustment.FactorConcat` | src/monetary-adjustment/monetary-adjustment.service.ts:310-315 | the factor of two periods is the product of their factors |
| `MonetaryAdjustment.FactorOfOne` | src/monetary-adjustment/monetary-adjustment.service.ts:310-315 | the factor of one index value is one plus its percentage |
| `MonetaryAdjustment.WindowCounts` | src/monetary-adjustment/monetary-adjustment.service.ts:300-308 | the selection repeats and drops no index value of the period |
| `LedgerSteps.ConsecutiveAdjustments` | src/monetary-adjustment/monetary-adjustment.service.ts:214-261 | two successive adjustments of a receivable over adjoining periods leave it within half a cent times the second factor plus one cent of one adjustment over both |
| `MonetaryAdjustment.ConsecutiveCalculations` | src/monetary-adjustment/monetary-adjustment.service.ts:300-329 | the same for two calculations on the values the periods select, whatever the base date of the policy |
| `MonetaryAdjustment.WindowsJoin` | src/monetary-adjustment/monetary-adjustment.service.ts:300-308 | the values of two adjoining periods are the values of the whole one |
| `MonetaryAdjustment.InflationNeverLowers` | src/monetary-adjustment/monetary-adjustment.service.ts:316-317 | without deflation an adjustment never lowers an amount |
| `MonetaryAdjustment.AdjustedNonNegative` | src/monetary-adjustment/monetary-adjustment.service.ts:316-317 | under any admitted index an amount stays non-negative |
| `MonetaryAdjustment.Window` | src/monetary-adjustment/monetary-adjustment.service.ts:300-308 | exactly the index values from the later of start and base date up to the end |
| `CommercialRuns.ProtocolSafety` | src/proposals/proposals.service.ts:437-582 | in every run of the five services, manual unit edits included, a unit has at most one accepted unconverted proposal, and then it is RESERVADA without ATIVA reservation and the proposal's reservation is CONVERTIDA for the same unit, person and opportunity |
| `CommercialRuns.OneReservation` | src/reservations/reservations.service.ts:118-423 | in every run a unit has at most one ATIVA reservation and is then RESERVADA |
| `CommercialRuns.OneSale` | src/sales/sales.service.ts:322-345 | in every run a unit has at most one sale in ATIVA or QUITADA, made from a converted proposal of that unit |
| `CommercialRuns.StageHistoryIsPath` | src/crm/opportunity-stage.ts:79-118 | in every run the history of an opportunity is a path from no origin to its current stage, its loss reason is present exactly in a lost stage and equals the last entry's |
| `CommercialRuns.HistoryNeverRewritten` | src/crm/opportunity-stage.ts:108-117 | no run rewrites or drops a history row |
| `CommercialHistory.AcceptedTermsAreSold` | src/sales/sales.service.ts:400-476 | once a reachable proposal is accepted, any sale of it after any further run has its unit and the gross, discount and net prices it was accepted with, and receivables that sum to that net price |
| `CommercialHistory.RunLater` | src/proposals/proposals.service.ts:296-368 | two-state property of every run: a reservation leaves ATIVA once and keeps its references; a proposal keeps its unit, person, opportunity and base price, its versions are immutable and numbered upwards, and a final status admits nothing but the conversion; the amounts of a sale are fixed and a closed sale stays closed |
| `CommercialHistory.BasePriceKept` | src/proposals/proposals.service.ts:320-324 | a base price read back from its decimal column rounds to the same cents |
| `CommercialRuns.PipelinesAlwaysComplete` | src/crm/crm.service.ts:1035-1056 | in every run each pipeline has exactly one won and one lost stage, never the same, so the search for the won stage succeeds |
| `CommercialConversion.PendingConvertsExactly` | src/sales/sales.service.ts:296-398 | a reachable accepted proposal converts exactly when no sale of its unit is in force, it has conditions that leave a cent for each installment, and its opportunity, if any, has its person, the development of the unit, no other unit and no lost stage |
| `CommercialConversion.AcceptedConvertsExactly` | src/proposals/proposals.service.ts:584-639 | seen before the acceptance: what is accepted converts exactly when no sale of the unit is in force, the plan leaves a cent for each installment and the opportunity has the development of the unit, which the acceptance does not test |
| `CommercialConversion.UnsplittableForever` | src/receivables/receivables.service.ts:644-665 | an accepted proposal whose plan cannot be split stays pending, with its unit RESERVADA, through every later run |
| `CommercialConversion.UnsplittableReached` | src/proposals/proposals.service.ts:774-811 | a run from the empty database that accepts such a proposal |
| `CommercialConversion.WrongDevelopmentWaits` | src/sales/sales.service.ts:880-890 | an accepted proposal whose opportunity lacks the development of the unit stays pending, with its unit RESERVADA, through every later run that does not edit that opportunity |
| `CommercialConversion.WrongDevelopmentReached` | src/proposals/proposals.service.ts:591-612 | a run from the empty database that accepts such a proposal, for an opportunity without development |
| `CommercialSteps.PendingConvertible` | src/sales/sales.service.ts:308-321 | for an accepted unconverted proposal the unit is RESERVADA and the reservation already CONVERTIDA, so the branch for an ATIVA one (371-388) is never taken |
| `CommercialRuns.ConvertTwice` | src/sales/sales.service.ts:289-296 | converting again returns the existing sale and writes nothing |
| `CommercialRuns.SaleAmountsConserved` | src/sales/sales.service.ts:400-476 | in every run the receivables a sale was created with sum to its net amount, which is gross minus discount, each at least one cent |
| `CommercialStranding.StrandedExactly` | src/reservations/reservations.service.ts:280-304 | in every run a unit is RESERVADA with no ATIVA reservation and no accepted unconverted proposal exactly when a reservation of it was converted by hand |
| `CommercialStranding.SomeStrandedExactly` | src/reservations/reservations.service.ts:280-304 | a run strands some unit exactly when one of its conversions by hand was accepted |
| `CommercialStranding.ByHandStrands` | src/reservations/reservations.service.ts:280-304 | the run of four calls that strands a unit |
| `CommercialStranding.StrandedForever` | src/units/units.service.ts:177-181 | a stranded unit stays RESERVADA through every later run: nothing in the five services releases or sells it |
| `CommercialRuns.ReservationUndone` | src/reservations/reservations.service.ts:247-278 | cancelling a reservation before it expires gives the unit back as it was taken |
| `CommercialSteps.StillActive` | src/reservations/reservations.service.ts:321-337 | a reservation still ATIVA after the expiry means nothing expired, so testing the unit row read before the expiry is sound |
| `CommercialSteps.ExpireUnitKeeps` | src/reservations/reservations.service.ts:364-423 | the expiry of a unit keeps the protocol invariant |
| `CommercialSteps.ExpiryExact` | src/reservations/reservations.service.ts:364-423 | exactly the due reservations of the unit become EXPIRADA, none is due afterwards, the unit is free exactly when it was free or one of them held it, and no other unit changes |
| `CommercialSteps.CreateReservationKeeps` | src/reservations/reservations.service.ts:118-245 | a new reservation keeps the protocol invariant |
| `CommercialSteps.CancelReservationKeeps` | src/reservations/reservations.service.ts:247-278 | a cancellation keeps the protocol invariant |
| `CommercialSteps.ConvertReservationKeeps` | src/reservations/reservations.service.ts:280-304 | a manual conversion keeps the protocol invariant |
| `CommercialSteps.UnitWritten` | src/units/units.service.ts:137-209 | a manual status edit of a unit that is not RESERVADA keeps the protocol invariant |
| `CommercialSteps.CreateUnitKeeps` | src/units/units.service.ts:96-135 | a new unit keeps the protocol invariant: it is not RESERVADA |
| `CommercialSteps.OpenOpportunityKeeps` | src/crm/crm.service.ts:371-441 | a new opportunity with its resolved target keeps the protocol invariant |
| `CommercialSteps.UpdateOpportunityKeeps` | src/crm/crm.service.ts:463-578 | an edited opportunity keeps the protocol invariant |
| `CommercialSteps.CreateProposalKeeps` | src/proposals/proposals.service.ts:183-294 | a new proposal keeps the protocol invariant; its version is priced consistently |
| `CommercialSteps.CreateVersionKeeps` | src/proposals/proposals.service.ts:296-368 | a new version keeps the protocol invariant |
| `CommercialSteps.AcceptProposalKeeps` | src/proposals/proposals.service.ts:437-582 | an acceptance, with its own or a handoff reservation, keeps the protocol invariant |
| `CommercialSteps.ConvertProposalKeeps` | src/sales/sales.service.ts:257-551 | a conversion keeps the protocol invariant |
| `CommercialSteps.CancelSaleKeeps` | src/sales/sale-cancellations.service.ts:89-100 | a distrato keeps the protocol invariant |
| `CommercialEffects.UpdateUnitEffect` | src/units/units.service.ts:137-223 | a status is written exactly when neither the unit nor the new status is RESERVADA; no other row changes |
| `CommercialEffects.NormalizeUnitEffect` | src/reservations/reservations.service.ts:357-423 | the reservations of the unit that are over become EXPIRADA, and the unit is free exactly when it was free or one of them held it |
| `CommercialEffects.CreateReservationEffect` | src/reservations/reservations.service.ts:118-245 | a reservation is accepted exactly for a known person, a unit that is free or held by one that is over, an end in the future and an opportunity open for them; one ATIVA row is appended and the unit is RESERVADA |
| `CommercialEffects.CancelReservationEffect` | src/reservations/reservations.service.ts:247-278 | a reservation is cancelled exactly while it is ATIVA and not over, and its unit is free again |
| `CommercialEffects.ConvertReservationEffect` | src/reservations/reservations.service.ts:280-304 | a conversion by hand is accepted exactly then too, and leaves the unit RESERVADA |
| `CommercialEffects.CreateProposalEffect` | src/proposals/proposals.service.ts:183-294 | when a proposal is accepted for creation, on the columns; it starts as RASCUNHO in version 1, priced from the active price of the unit |
| `CommercialEffects.CreateVersionEffect` | src/proposals/proposals.service.ts:296-368 | when a new version is accepted; it keeps the base price, is numbered one up, and a proposal that was sent is EM_NEGOCIACAO |
| `CommercialEffects.AcceptProposalEffect` | src/proposals/proposals.service.ts:437-639 | an acceptance is possible exactly for a proposal that was sent or is negotiated, while it is valid, its unit is held for it or free, and its opportunity, if any, is of its person, for no other unit and not lost; then it is ACEITA, its reservation or a new one of 24 hours is CONVERTIDA, the unit RESERVADA and the opportunity in the won stage with one row of history |
| `CommercialEffects.ConvertProposalEffect` | src/sales/sales.service.ts:257-551 | a conversion of an accepted unconverted proposal is accepted exactly when it is convertible, and makes one ATIVA sale at the prices of its version with the receivables of its plan, the unit VENDIDA, the proposal converted and the opportunity won; of any other proposal it is accepted exactly when that one has a sale, and changes nothing |
| `CommercialEffects.CancelSaleEffect` | src/sales/sale-cancellations.service.ts:46-100 | a distrato is possible exactly for an ATIVA or QUITADA sale without payments; the sale is DISTRATADA, its unit too if it was VENDIDA or QUITADA, and nothing else changes |
| `CommercialEffects.OpenOpportunityEffect` | src/crm/crm.service.ts:371-441 | a new opportunity has its person, pipeline and unit, the development of that unit, and starts its history in an open stage |
| `CommercialEffects.UpdateOpportunityEffect` | src/crm/crm.service.ts:463-578 | an edit is accepted exactly for a known person, a unit that goes with the development, and a newly chosen unit that is free, offered and without reservation or sale in force; stage, pipeline and history stay |
| `CommercialEffects.MoveOpportunityEffect` | src/crm/crm.service.ts:580-612 | a move is accepted exactly within the pipeline, and into the lost stage only with a reason that has a visible character; the opportunity is then in the requested stage, the history has one row more, from the old stage to it with that reason, and no other column or row changes |
| `CommercialEffects.CreatePipelineEffect` | src/crm/crm.service.ts:172-222 | a pipeline is created exactly with distinct codes and positions, one won and one lost stage, and its stages are appended in order |
| `StageEffects.MoveEffect` | src/crm/opportunity-stage.ts:79-118 | the same move on the stage tables; a move to the stage the opportunity is in changes nothing |
| `StageEffects.NormalizedIs` | src/crm/opportunity-stage.ts:33-40 | what is kept of a reason is its text from the first to the last visible character, cut at 500 |
| `StageEffects.WinEffect` | src/proposals/proposals.service.ts:584-639 | an acceptance wins exactly an opportunity of its person, for no other unit, that is not lost; one already won stays as it is |
| `StageEffects.EnsureWonEffect` | src/sales/sales.service.ts:869-932 | a sale wins exactly an opportunity of its person and development, for no other unit, that is not lost, and fills in the unit of one already won |
| `StageEffects.OpenEffect` | src/crm/crm.service.ts:371-441 | a new opportunity is in the chosen stage, or in the one with the lowest position, with one history row without origin |
| `StageEffects.OpenAccepted` | src/crm/crm.service.ts:371-394 | with a chosen stage it is accepted exactly for an open stage of the pipeline |
| `StageEffects.PipelineEffect` | src/crm/crm.service.ts:1035-1056 | stages are valid exactly when codes and positions are distinct, exactly one is won, exactly one is lost and they are not the same |
| `OpportunityStage.ApplyStageChangeKeeps` | src/crm/opportunity-stage.ts:79-118 | the single stage writer extends the path of its opportunity and leaves every other path alone |
| `OpportunityStage.WinOpportunityKeeps` | src/proposals/proposals.service.ts:584-639 | winning by an accepted proposal keeps the stage invariant |
| `OpportunityStage.EnsureOpportunityWonKeeps` | src/sales/sales.service.ts:869-932 | winning by a sale keeps the stage invariant |
| `OpportunityStage.MoveToWonKeeps` | src/proposals/proposals.service.ts:615-638 | the pipeline always has a won stage, so the exception for a missing one is unreachable |
| `OpportunityStage.WonStage` | src/proposals/proposals.service.ts:615-623 | the won stage of the pipeline with the lowest position, or none when no stage of it is won |
| `OpportunityStage.FirstStage` | src/crm/crm.service.ts:1069-1077 | the stage of the pipeline with the lowest position, or none when it has no stage |
| `OpportunityStage.CreateOpportunityKeeps` | src/crm/crm.service.ts:371-441 | a new opportunity starts its history in a stage that is not terminal |
| `OpportunityStage.CreatePipelineKeeps` | src/crm/crm.service.ts:172-222 | a validated pipeline keeps the stage invariant |
| `OpportunityStage.DefaultStagesValid` | src/crm/crm.service.ts:62-121 | the default stages pass the validation they are created without |
| `OpportunityStage.LostReasonKept` | src/crm/opportunity-stage.ts:33-40 | a reason is kept exactly when it has a character that is not blank, with 1 to 500 characters |
| `OpportunityStage.LostReasonIdempotent` | src/crm/opportunity-stage.ts:33-40 | normalising twice changes nothing exactly when the trimmed text has at most 500 characters or its 500th is not blank |
| `CommercialService.Tables.UpdateUnit` | src/units/units.service.ts:137-223 | writes the status unless the unit or the new status is RESERVADA |
| `CommercialService.Tables.ExpireLockedUnit` | src/reservations/reservations.service.ts:364-423 | expires exactly the due reservations of the unit, releases it, and returns its resulting status |
| `CommercialService.Tables.NormalizeUnit` | src/reservations/reservations.service.ts:357-362 | commits the expiry of the unit |
| `CommercialService.Tables.ValidateOpportunity` | src/proposals/proposals.service.ts:685-723 | the opportunity exists, is in no terminal stage and matches person, development and unit, or the exception of the first test that fails |
| `CommercialService.Tables.CreateReservation` | src/reservations/reservations.service.ts:118-245 | commits exactly the specified expiry and reservation, or an exception with the expiry rolled back |
| `CommercialService.Tables.CancelReservation` | src/reservations/reservations.service.ts:247-278 | commits exactly the specified cancellation, or an exception with the expiry rolled back |
| `CommercialService.Tables.ConvertReservation` | src/reservations/reservations.service.ts:280-304 | commits exactly the specified conversion, the unit untouched |
| `CommercialService.Tables.CreateProposal` | src/proposals/proposals.service.ts:183-294 | commits exactly the specified proposal with its priced version, or one of its exceptions in their order |
| `CommercialService.Tables.CreateVersion` | src/proposals/proposals.service.ts:296-368 | commits exactly the specified version over the kept base price, or the exception |
| `CommercialService.Tables.SendProposal` | src/proposals/proposals.service.ts:370-401 | commits exactly the specified status or the exception |
| `CommercialService.Tables.RejectProposal` | src/proposals/proposals.service.ts:403-435 | commits exactly the specified status or the exception |
| `CommercialService.Tables.ExpireProposal` | src/proposals/proposals.service.ts:653-682 | expires exactly a sent or negotiated proposal whose validity has passed |
| `CommercialService.Tables.HandOver` | src/proposals/proposals.service.ts:472-546 | converts the proposal's reservation or creates the handoff reservation and reserves the unit |
| `CommercialService.Tables.AcceptProposal` | src/proposals/proposals.service.ts:437-582 | commits exactly the specified acceptance over reservation, unit, opportunity and proposal, or an exception with all of them restored |
| `CommercialService.Tables.ConvertProposal` | src/sales/sales.service.ts:257-551 | commits exactly the specified sale, proposal, unit and opportunity, or an exception with all of them restored |
| `CommercialService.Tables.WinAndSell` | src/sales/sales.service.ts:389-488 | wins the opportunity and records the sale, or raises the exception of the opportunity with nothing written |
| `CommercialService.Tables.CancelSale` | src/sales/sale-cancellations.service.ts:46-100 | closes the sale and moves the unit only from VENDIDA or QUITADA |
| `CommercialService.Tables.CreatePipeline` | src/crm/crm.service.ts:172-222 | appends the stages exactly when they pass the validation |
| `CommercialService.Tables.ValidateStages` | src/crm/crm.service.ts:1035-1056 | comparing the sizes of the sets of codes and positions with the list, and counting flags, decides exactly whether the stages are valid |
| `CommercialService.Tables.CreateOpportunity` | src/crm/crm.service.ts:371-441 | appends the opportunity with its resolved target and its first history row, or the exception |
| `CommercialService.Tables.UpdateOpportunity` | src/crm/crm.service.ts:463-546 | commits exactly the specified columns, a new unit only if it is selectable |
| `CommercialService.Tables.ApplyStageChange` | src/crm/opportunity-stage.ts:79-118 | writes stage, reason and unit and appends one history row, or changes nothing for the same stage |
| `CommercialService.Tables.MoveOpportunity` | src/crm/crm.service.ts:580-612 | commits exactly the specified move within the pipeline: after success the opportunity is in the requested stage, with one history row more unless it was there |
| `CommercialService.Tables.WinOpportunity` | src/proposals/proposals.service.ts:584-639 | commits exactly the specified win, keeping a unit the opportunity already has |
| `CommercialService.Tables.EnsureOpportunityWon` | src/sales/sales.service.ts:869-932 | commits exactly the specified win, filling a missing unit of one already won |
| `LockOrder.CommercialNeverDeadlocks` | src/crm/crm.service.ts:469-478 | no interleaving of the commercial transactions, complete or ended early, contains a deadlock at their explicit row locks |
| `LockOrder.NoDeadlock` | src/reservations/reservations.service.ts:321-333 | ascending acquisition excludes deadlock for any set of transactions |
| `LockOrder.TransactionsAscend` | src/proposals/proposals.service.ts:450-463 | every commercial transaction takes its locks as Unit, Reservation, Proposal, Opportunity |
| `LockOrder.AllEnd` | src/sales/sales.service.ts:271-288 | from any reachable state, once none begins, all open transactions end after exactly the remaining steps |
| `LockOrder.SomeoneMoves` | src/proposals/proposals.service.ts:591-595 | while a transaction is open one of the open ones is not blocked |
| `LockOrder.OppositeOrdersDeadlock` | src/crm/crm.service.ts:469-470 | two transactions that take two locks in opposite orders reach a deadlock: the order is needed |
| `LockOrder.LocksExclusive` | src/reservations/reservations.service.ts:425-439 | in every run no two open transactions hold the same lock |
| `LockCoverage.WritesAreLocked` | src/proposals/proposals.service.ts:450-463 | every row of the four tables that an accepted call changes is one its transaction has locked; a reservation that expires is covered by the lock of its unit |
| `CompatibilityScore.ScoresAgree` | src/crm/unit-matching.service.ts:129-184 | for every interest the table admits and every candidate the SQL score equals the explained score, null and zero bounds included |
| `CompatibilityScore.ScoreIsMean` | src/crm/unit-matching.service.ts:167-184 | both scores are the integer nearest to (2p + a + b) / 4 of the price, area and bedrooms points, ties up; (2p + a) / 3, (2p + b) / 3 or (a + b) / 2 when one is missing, and the points themselves when only one is there |
| `CompatibilityScore.CriterionPoints` | src/crm/unit-matching.service.ts:129-166 | the points: 100 inside the range; outside it 100 less 10 for each percent the price deviates from the violated bound, less 5 for each percent of the area, to the nearest integer and not below 0; 50 for bedrooms one off, 0 beyond |
| `CompatibilityScore.HalfwayPoints` | src/crm/unit-compatibility-score.ts:10-14 | half the points are left at exactly 5 percent of the price bound and 10 percent of the area bound |
| `CompatibilityScore.NeverDivergent` | src/crm/unit-matching.ts:195-198 | the divergence exception is unreachable |
| `CompatibilityScore.NegativeBoundDiverges` | prisma/migrations/20260918010000_opportunity_property_interests/migration.sql:32-37 | without the constraint on the bounds the two scores differ: 2100 against 100 |
| `CompatibilityScore.PriceAgrees` | src/crm/unit-matching.service.ts:139-146 | the price criterion of the SQL is scorePrice |
| `CompatibilityScore.AreaAgrees` | src/crm/unit-matching.service.ts:147-158 | the area criterion of the SQL is scoreArea |
| `CompatibilityScore.BedroomsAgree` | src/crm/unit-matching.service.ts:159-166 | the bedrooms criterion of the SQL is scoreBedrooms |
| `CompatibilityScore.ScoreInRange` | src/crm/unit-compatibility-score.ts:117-171 | the score lies in 0..100 and is null exactly when no criterion could be evaluated |
| `CompatibilityScore.ZeroExactly` | src/crm/unit-compatibility-score.ts:45-66 | outside its range a criterion is 0 exactly when the bound is 0 or the scaled deviation exceeds 99.5 bounds |
| `CompatibilityScore.ZeroAtTenAndTwentyPercent` | src/crm/unit-compatibility-score.ts:10-14 | the price criterion is 0 from a deviation of 10% on, the area criterion from 20% on |
| `CompatibilityScore.CriterionMonotone` | src/crm/unit-compatibility-score.ts:45-66 | moving a value further outside its range never raises the criterion |
| `CompatibilityScore.OverallMonotone` | src/crm/unit-compatibility-score.ts:129-141 | a lower criterion never raises the overall score |
| `CompatibilityScore.PriceMovesScore` | src/crm/unit-matching.service.ts:169-186 | a unit whose price moves further outside the wanted range never ranks with a higher score |
| `CompatibilityScore.AreaMovesScore` | src/crm/unit-matching.service.ts:169-186 | the same for the area |
| `CompatibilityScore.BedroomsMoveScore` | src/crm/unit-matching.service.ts:169-186 | the same for the bedrooms |
| `CompatibilityScore.BedroomsMonotone` | src/crm/unit-compatibility-score.ts:94-107 | a number of bedrooms further from the wanted ones never raises the criterion |
| `Timeline.PagesAreTheTimeline` | src/crm/crm.service.ts:648-798 | for fixed data and any limit of at least one, following the pages ends and yields exactly the events of the six sources, each once, time descending then id ascending |
| `Timeline.ClientReadsTheTimeline` | src/crm/crm.service.ts:648-798 | the same for a client that only hands cursor texts back |
| `Timeline.PageIsStretch` | src/crm/opportunity-timeline-pagination.ts:70-104 | the page after a row of the one sorted list is the next stretch of that list, and says whether more follows |
| `Timeline.SelectSort` | src/crm/opportunity-timeline-pagination.ts:76-101 | filtering beyond a cursor and ordering commute |
| `Timeline.SortSorts` | src/crm/opportunity-timeline-pagination.ts:101-101 | the order is a permutation of the rows, strictly by time descending and id ascending |
| `Timeline.EventsDistinct` | src/crm/opportunity-timeline-pagination.ts:82-98 | no two events share an id, whatever their sources |
| `Timeline.TimesAgree` | src/crm/opportunity-timeline-pagination.ts:82-98 | the time the key query sorts an event by is the time its projection shows, for visits, reservations, proposals and activities |
| `Timeline.EventsAreRows` | src/crm/opportunity-timeline-pagination.ts:82-98 | the events are the rows of the six tables, each once, with the name of the source before the id and at the first of its dates that is set |
| `Timeline.HydrationLosesNothing` | src/crm/crm.service.ts:661-792 | fetching the rows of a page by their ids drops none of its events and keeps their order |
| `TimelineCursor.CursorRoundTrip` | src/crm/opportunity-timeline-pagination.ts:16-63 | an encoded cursor decodes to its key for its own opportunity exactly when the id is well formed, the year has four digits and the JSON at most 384 bytes; for any other opportunity it is refused |
| `TimelineCursor.AcceptedCursorIsCanonical` | src/crm/opportunity-timeline-pagination.ts:26-63 | every accepted cursor yields a key a page could have ended with |
| `TimelineCursor.IsoRoundTrip` | src/crm/opportunity-timeline-pagination.ts:46-59 | the four-digit date form exists exactly for years 0 to 9999 and is read back as the same instant |
| `TimelineCursor.Base64RoundTrip` | src/crm/opportunity-timeline-pagination.ts:23-37 | base64url (RFC 4648, section 5) decodes what it encodes |
| `TimelineCursor.ToBase64Url` | src/crm/opportunity-timeline-pagination.ts:23-33 | the encoded length, which decides the limit of 512, and the alphabet |
| `Sanitizer.OutputBounded` | src/audit/audit-metadata.sanitizer.ts:34-171 | for every object graph, cyclic or not: at most 6 levels of containers, 500 values below the root and 16000 UTF-8 bytes of keys and strings |
| `Sanitizer.OutputShowsRoot` | src/audit/audit-metadata.sanitizer.ts:121-171 | every output value comes in order from the value it stands for, under the 120-unit prefix of a key that is neither sensitive nor a prototype key, no key twice and at most 50 |
| `Sanitizer.ArrayAtMostFifty` | src/audit/audit-metadata.sanitizer.ts:104-116 | an output array has at most 50 elements |
| `Sanitizer.ValueWithin` | src/audit/audit-metadata.sanitizer.ts:47-119 | each value restores the path, is counted within 500, and its bytes and the bytes left fit into what was left before |
| `Sanitizer.ShrunkFits` | src/audit/audit-metadata.sanitizer.ts:196-207 | the shrinking loop ends with a prefix that fits, the whole text if it fitted |
| `Sanitizer.JoinedWords` | src/audit/audit-metadata.sanitizer.ts:177-186 | the joined words of a key are its letters and digits in lower case, however camel case and separators split them |
| `SanitizerKeys.HiddenExactly` | src/audit/audit-metadata.sanitizer.ts:173-194 | a key is hidden exactly when one of the twelve words stands in it between two borders (an end of the key, a unit that is no letter or digit, a camel-case step), in any case, or its letters and digits start with one, or it names a prototype |
| `SanitizerKeys.OutputKeys` | src/audit/audit-metadata.sanitizer.ts:138-145 | no key of the output, at any depth, has a listed word or starts with one, unless it has 120 units and is the cut of a longer key that has none |
| `SanitizerKeys.CutKeyShowsWord` | src/audit/audit-metadata.sanitizer.ts:142-145 | the cut comes after the test: a visible key with a listed word in its first 120 units is shown as a key that would have been hidden |
| `SanitizerKeys.LongKeyIsCut` | src/audit/audit-metadata.sanitizer.ts:142-145 | such a key: 114 letters and then _tokens, shown as ending in _token |
| `SanitizerFull.ShownInFull` | src/audit/audit-metadata.sanitizer.ts:34-171 | a root within the budgets is shown in full: every item and every property, in order, with its own key and text, whatever else the graph holds |
| `Sanitizer.ReferenceShows` | src/audit/audit-metadata.sanitizer.ts:85-119 | an object is shown as itself or by the marker for its depth, kind or cycle |
| `SanitizerWalk.Sanitize` | src/audit/audit-metadata.sanitizer.ts:34-45 | the imperative walk from a fresh state returns the specified output |
| `SanitizerWalk.SanitizerState.SanitizeValue` | src/audit/audit-metadata.sanitizer.ts:47-119 | the mutated counters and path and the value are exactly the specified ones; the recursion terminates on any graph |
| `SanitizerWalk.SanitizerState.SanitizeReference` | src/audit/audit-metadata.sanitizer.ts:85-119 | the same for object values |
| `SanitizerWalk.SanitizerState.SanitizeItems` | src/audit/audit-metadata.sanitizer.ts:104-116 | the loop over an array, with its early exit |
| `SanitizerWalk.SanitizerState.SanitizeObject` | src/audit/audit-metadata.sanitizer.ts:121-171 | the path is entered and left around the loop over the keys |
| `SanitizerWalk.SanitizerState.SanitizeProperties` | src/audit/audit-metadata.sanitizer.ts:140-167 | the loop over the keys, with its skips, charges and early exits |
| `SanitizerWalk.SanitizerState.TakeString` | src/audit/audit-metadata.sanitizer.ts:196-207 | the shrinking loop and its charge |
| `CashFlow.ReportIsPlainSums` | src/finance/finance.service.ts:341-393 | rows strictly ascend, each period with an event has one row holding exactly its events, and each balance is the opening balance plus every event of the periods up to it |
| `CashFlow.ClosingIgnoresGrouping` | src/finance/finance.service.ts:377-402 | the closing balance is the opening balance plus all events, under every grouping |
| `CashFlow.ClosingByMode` | src/finance/finance.service.ts:285-402 | the closing balance of every mode under every grouping: in REALIZADO the opening balance at the end of the period, so periods join; in PROJETADO the open titles of the period, receivable minus payable; in CONSOLIDADO both together |
| `CashFlow.RowSplits` | src/finance/finance.service.ts:364-374 | inflows and outflows of a row are its realised and projected parts together |
| `CashFlow.RowOnTables` | src/finance/finance.service.ts:285-374 | each column of a row on the tables: the realised ones are the unreversed movements of the period in that direction, none in PROJETADO; the projected ones what is open on the receivables and the payables due in it, none in REALIZADO |
| `CashFlow.GroupGroups` | src/finance/finance.service.ts:353-376 | the rows of the map are exactly the periods that have an event, each once |
| `CashFlow.BucketStartsPeriod` | src/finance/finance.service.ts:624-632 | a week bucket is the Monday of the day's week, a month bucket the first day of its month |
| `CashFlow.BucketsPartition` | src/finance/finance.service.ts:624-632 | two days share a bucket exactly when they share the week or month, and buckets never go back |
| `CashFlow.GroupEvents` | src/finance/finance.service.ts:353-376 | the loop that fills the map computes the grouping |
| `CashFlow.CarryBalance` | src/finance/finance.service.ts:377-393 | the pass over the sorted rows carries the running balance |
| `CashFlow.CashFlowReport` | src/finance/finance.service.ts:277-403 | the report loop returns the specified lines and the opening balance plus all events as closing balance |
| `InvestorReport.InvestorPositions` | src/reports/reports.service.ts:436-503 | the loops over the two indexes give every investor with an investment, and no other, exactly the nested-filter position |
| `InvestorReport.InvestedSplits` | src/reports/reports.service.ts:458-501 | without a development filter the invested total is allocated plus general cash plus unassigned |
| `InvestorReport.FilteredInvestedIsAllocated` | src/reports/reports.service.ts:458-464 | with a development filter the invested total is the capital allocated there |
| `InvestorReport.ExpectedSplits` | src/reports/reports.service.ts:481-495 | expected returns split exactly into pending, overdue and the expected amount of paid ones |
| `InvestorReport.ColumnsAreSums` | src/reports/reports.service.ts:476-496 | the columns on the return rows of the investor: expected is all of it, paid what was realised, pending what is unpaid and due from now on, overdue what is unpaid and due before now or marked so |
| `InvestorReport.ReturnsOfCounts` | src/reports/reports.service.ts:443-448 | the filter keeps exactly the returns of the allocation, each as often as it is there |
| `InvestorReport.AllocationsOfCounts` | src/reports/reports.service.ts:436-442 | the same for the allocations of an investment |
| `InvestorReport.IndexAllocations` | src/reports/reports.service.ts:436-442 | the index holds for each investment its allocations in order |
| `InvestorReport.IndexReturns` | src/reports/reports.service.ts:443-448 | the index holds for each allocation its returns in order |
| `InvestorReport.AddAllocations` | src/reports/reports.service.ts:468-496 | the loop over the allocations of an investment adds their parts |
| `InvestorReport.AddReturns` | src/reports/reports.service.ts:481-495 | the innermost loop adds the parts of the returns |
| `Rounding.RoundHalfUp` | src/monetary-adjustment/monetary-adjustment.service.ts:317-317 | the rounded cent is at most half a cent away |
| `Rounding.RoundAtLeast` | src/crm/unit-compatibility-score.ts:35-43 | a value rounds to n or more exactly from n minus one half on, the tie upwards |

## Left out

- Rows other than those of the tables above, row deletion and cascades, organisation scoping, permissions, audit rows
  other than the stage history, notifications, collection dispatches, list filters and paging by offset.
- Concurrency, except in `MatchingInterleaving` and `LockOrder`: every transaction is atomic. `payables.update` reads its
  row before its transaction and `markCommissionDue` reads the commission without a lock; both are modelled as one step.
- Implicit locks of plain UPDATE statements in `LockOrder` (the explicit FOR UPDATE acquisitions are the steps), and the
  locks on receivable and payment rows in `MatchingInterleaving`, which no other modelled transaction there takes.
- The 20-digit limit of decimal division and products, floating point, and numbers beyond DECIMAL(18,2).
- Checks on buyers, commission beneficiaries, sale numbers, cost centres, categories and the availability of
  developments and active pipelines: they refuse calls and write nothing the properties speak of.
- LockCoverage.WritesAreLocked: the distrato and the status synchronisation lock the sale row only, which is not one of the four
  tables; new rows need no lock.
- CommercialEffects.CreateProposalEffect: which of the exceptions a refused call raises is left to `CommercialService`.
- SanitizerFull.ShownInFull: a number is charged 25 characters, the longest decimal form, and omitted values are not covered.
- LedgerService.Tables.ImportEntry: one row of an import, without fingerprints and the skipping of duplicates.
- LedgerService.Tables.UpdatePayable: amount and status only; descriptions, dates and references of a payable are not modelled.
- LedgerConstraints.ChecksExactly: the constraints on gross and discount of a sale, on who reversed a payment and why, and on
  the beneficiary and percentage of a commission concern columns the model does not have.
- CommercialService.Tables.UpdateUnit: the status only; the unit type and the other columns are not modelled.
- CommercialService.Tables.CancelSale: whether payments stand in the way is an input; `Office` takes it from the ledger.
- CommercialService.Tables.UpdateOpportunity: whether the selected unit is offered (development, active price) is an input.
- CommercialService.Tables.CreatePipeline: the refusal of a second pipeline with the same name is not modelled.
- CashFlow.BucketStartsPeriod: periods are day numbers; their text form sorts the same way for the years 0 to 9999.
- Sanitizer.OutputShowsRoot: getters have no side effects, and toLowerCase is modelled for the letters that can reach the ASCII token list.
- TimelineCursor.CursorRoundTrip: JSON.parse and JSON.stringify are parameters that are only assumed to read back the cursor that was written.
- Timeline.PagesAreTheTimeline: the rows are those of one opportunity, and ids are collated by any strict total order.
- InvestorReport.InvestorPositions: integer cents, so the rounding of float amounts is not modelled; the sorting of the finished rows by name is left out.
- OpportunityStage.LostReasonKept: strings are sequences of code points, so lone surrogates are not modelled.
- Messages, titles and formatting of the unit matches, and the ordering of equal scores.
