# Ledger model

A Dafny model of the accounting engine: posting source documents and journals to the
double-entry ledger, reversing and adjusting journals, closing fiscal years, the reports
read from the ledger, and the parts that must agree with it: payments with realized
exchange differences, tax lines, currency revaluation, opening balances and their sub-ledger
documents, bank balances and the payments deposits bring in, document numbering, the fiscal
calendar, and the filter compiler every query goes through.

Amounts are whole ten-thousandths (the four decimals the tables store), so every rounding
and tolerance is exact: 0.01 is 100 units and "greater than 0.0001" is "more than one
unit". Exchange rates are exact reals and `Math.round` is the floor of x + 1/2. What the
database does behind a call (CHECK constraints, unique indexes, the posting functions of
the migrations) is modelled as part of the call.

## How it is laid out

`Books.dfy` gives each ledger operation as a function from tables to tables and an outcome;
a refused operation keeps whatever it wrote before it gave up. `LedgerService.dfy` holds the
same operations as methods that update the tables in place, each proved equal to its
function, so the laws about runs hold of the methods. What an operation leaves and when it
is refused is stated once more without its function, in terms of the tables and the request:
`Refusals`, `Upkeep`, `CloseRecords`, `KeyedRecords`, `BankRecords`, `PostedDocuments` and
`PostingOutcomes`. The other stateful parts have the same two layers: `NumberSequence` and
`NumberingService`, `KeyedJournals` and `KeyedService`, `Banking` and `BankingService`, and
the class in `Subledger`. `KeyedRuns` states the laws of the ledger over runs that hold
keyed attempts and crashes as well, `LedgerIndex` the unique index over ledger rows,
`Deposits` what deposits and their payments keep, and `CleanDocuments` that no builder makes
a line that would be dropped. `Shop` holds the books on which several failing inputs are
shown, `HeaderAccounts` and `OverlappingYears` two larger ones. `Sums.dfy` and `Money.dfy`
carry the summation and rounding laws all the proofs share.

## Where the code falls short of what it promises

Each of these is a lemma. Where the promise holds under a condition, that is proved beside
it, as an if-and-only-if wherever one exists.

- A year whose net income is one ten-thousandth either way cannot be closed until another
  entry changes its net income: it gets no retained-earnings line, and the database then
  refuses the unbalanced journal (`ClosingBalancesIff`, `ClosingPostsIff`); a shop whose only
  sale is one unit has such a year (`SaleClosesIff`).
- One income or expense account on the wrong side of zero stops the close: the insert of its
  negative line fails unnoticed and posting finds an empty entry (`ClosingPostsIff`); a credit
  note on its own does this (`SaleClosesIff`).
- A balanced opening entry that names an account twice with the same amount on the same side
  never posts: the unique index over ledger rows refuses the second row at every attempt and
  the draft stays (`CompletesIff`, `RepeatedLineNeverPosts`, `HalvedOpeningIsRefused`).
- If the following period already exists, a close posts its journal and then fails, and no
  year close will ever close the period: only the bare close does (`CloseCompletesIff`,
  `OnlyBareCloseIff`).
- A close leaves the profit of header accounts standing, because postings accept such
  accounts and the balances of a close leave them out (`ClosedAccountIsZeroIff`,
  `HeaderIncomeSurvivesClose`); for the same reason the reports are out by the rows on header
  accounts (`ReportsAfterRun`).
- With Retained Earnings on a header account the close takes the profit off the balance
  sheet (`CloseKeepsEquityIff`).
- Once the fiscal start has changed, two years can overlap; closing both leaves the profit of
  the first, which the close entry hands to the second, in the unclosed earnings although
  every row lies in a closed year (`EarningsAreUnclosed`, `OverlapLeavesProfit`,
  `ChangedStartOverlaps`).
- The opening memorandum of a close writes a balance on the wrong side of zero with its sign
  lost (`MemoCarriesIff`).
- A bank deposit whose allocations are refused has already raised its account's balance, and
  the balance stays raised (`ReachesLedgerIff`, `BalanceGrows`). An import whose cash back exceeds its receipts,
  by more than one unit, always ends there: its transaction holds the size of its total and
  its allocations the sign, and every later try, with the same payload or a changed one, is
  refused (`TotalAcceptedIff`, `NegativeDepositStays`, `CashBackStays`).
- An invoice line that has no account, in a company without a revenue account, is left out of
  the entry: the invoice is then refused as unbalanced, or, when no line has one, passed over
  without an error (`InvoiceAcceptedIff`, `UnplacedLineIsRefused`, `UnplacedInvoiceIsSkipped`).
- A fiscal year that starts on 29 February loses its tiling around some leap years
  (`NextAgreesIff`), years below 100 are read as 1900 to 1999 (`PeriodContainsIff`), and every
  period after a seeded one ends on 30 December (`StoredEndAgreesIff`, `SeededYearsSlip`).
- Pages of the general ledger larger than the server's cap lose rows: the interface accepts
  pages of up to 5000 rows, and of 1500 rows read 2000 at a time under a cap of 1000 the last
  500 never come (`PagesMakeTheWholeIff`, `LargePagesLoseRows`). Under a cap below a thousand
  the scans for a page's starting balance stop early too, so pages that lose no row start from
  a wrong balance (`PageIsSliceIff`, `ThirdPageIsShort`).
- The database cuts a number that is longer than its padding, and a padding of ten prints
  numbers that cannot be read back, so numbers repeat (`NextIsFreshIff`,
  `PaddingTenReissues`); at the cap every allocation repeats (`CapRepeats`).
- Reversing an opening journal does not free its key, although the error text says to
  reverse it before retrying (`ReversalDoesNotFreeTheKey`).
- The unique index over bank-transaction sources refuses the two rows of every new bank
  transfer after its balances have moved, and nothing reaches the ledger (`StepAgreesIff`,
  `RefusedTransferMovesMoney`). Repeating the transfer gets past its checks only if the source
  account held the amount twice, moves no balance again, and posts the entry with whatever
  amount the repeat names (`RetryNeedsTwice`, `RetryMovesLedger`).
- A revaluation reads an account's rows in one query that the server cuts at its cap, so an
  account with more rows is revalued by the balance and the last rate of those that came
  (`WholeBalanceIff`, `RowBeyondTheCap`).
- Revaluing twice books the same adjustment twice, and a single adjustment without its gain
  or loss account is marked posted without an entry (`RerunRepeatsAdjustments`,
  `MarkedWithoutEntryIff`).
- A search text is used as a pattern: searching for A_1 finds AB1, and searching for a text
  with a backslash misses that very text (`LikeIsContainsIff`, `SearchFaithfulIff`,
  `SearchTextIsAPattern`).
- OR over objects of several fields is flattened, a range inside OR loses its upper bound
  (`TwoFieldDisjunctIsFlattened`, `RangeInDisjunctIsHalf`), and NOT over several fields loses
  rows (`TwoFieldNegationLosesRows`); NOT over one field loses the
  rows without a value there (`NegationFaithfulIff`).

## Model

| member | source | states |
|---|---|---|
| LedgerService.LedgerTables.PostSourceDocument | src/lib/accounting/posting-service.ts:106-206 | the tables go to the state and outcome of `PostDocument`: validated, once per source, grouped, all rows or none |
| LedgerService.LedgerTables.CreateJournalDraft | src/lib/accounting/journal-operations.ts:71-126 | header first, then lines; refused lines leave a header without any |
| LedgerService.LedgerTables.PostJournalEntry | supabase/migrations/032_enterprise_accounting_hardening.sql:125-242 | a journal's lines become rows all together or not at all, under the service's checks, the database's, and the unique index that stops at a line equal to an earlier one |
| LedgerIndex.JournalRowsIndexedIff | supabase/migrations/032_enterprise_accounting_hardening.sql:33-35 | the index over origin, account, debit, credit and date takes all rows of a journal exactly when no two of its lines are equal |
| LedgerIndex.DocumentRowsIndexed | supabase/migrations/032_enterprise_accounting_hardening.sql:33-35 | it never refuses grouped document rows |
| LedgerIndex.TransferLinesDistinct | src/lib/banking/transfers.ts:49-70 | nor the two lines of a transfer journal |
| YearClose.ClosingDistinct | src/lib/accounting/year-close.ts:84-121 | nor closing lines: one for each account with a balance, and one for retained earnings |
| LedgerIndex.RunKeepsIndex | supabase/migrations/032_enterprise_accounting_hardening.sql:33-35 | over every run of operations, keyed attempts and crashes, the ledger meets the index |
| LedgerService.LedgerTables.ReverseJournalEntry | src/lib/accounting/journal-operations.ts:128-190 | drafts, posts and links the swapped entry, or stops at the first check or write that fails |
| LedgerService.LedgerTables.CreateAdjustingJournalEntry | src/lib/accounting/journal-operations.ts:216-265 | drafts the adjustment of a posted journal and posts it when asked |
| LedgerService.LedgerTables.BuildClosingLines | src/lib/accounting/year-close.ts:70-121 | the loops give the closing lines and the net income |
| LedgerService.LedgerTables.CloseFiscalYear | src/lib/accounting/year-close.ts:21-258 | every write of the close in its order, including those that stay behind when a later one fails |
| LedgerService.LedgerTables.OpenNextPeriod | src/lib/accounting/year-close.ts:159-258 | the memorandum journal, the next period, the close and its record, refused as a whole when the period exists |
| LedgerService.LedgerTables.EnsureCurrentFiscalPeriod | src/lib/accounting/fiscal-periods.ts:56-82 | adds the computed period unless one lies inside it |
| LedgerService.LedgerTables.CloseFiscalPeriod | src/lib/accounting/fiscal-periods.ts:33-54 | the bare close sets the status of the period and writes nothing else |
| LedgerService.LedgerTables.DeleteLedgerAccount | src/lib/accounting/validation.ts:186-205 | an account is deleted, softly, exactly when no ledger row stands on it |
| Upkeep.AccountOpened | src/lib/accounting/account-type-map.ts:4-40 | a new account is active, on the side of its type, in its place by number, and leaves every other account as it was; a known number changes nothing |
| Upkeep.NamesOfTypes | src/lib/accounting/account-type-map.ts:4-40 | exactly which names make a liability, equity, income, expense or cost of goods sold |
| Upkeep.AccountChanged | src/lib/accounting/validation.ts:186-203 | activating touches one field of one account; so does deleting, and only when no row stands on it |
| Upkeep.PeriodsChanged | src/lib/accounting/fiscal-periods.ts:33-82 | the added period is open and as computed, a bare close closes one period, and nothing else changes |
| Upkeep.StartRoundTrip | src/lib/accounting/fiscal-calendar.ts:1-6 | a month and day written as MM-DD are read back; a text of another shape means 1 January |
| BookRuns.EnsuredPeriodCoversIff | src/lib/accounting/fiscal-periods.ts:56-82 | an added period contains the date it is added for exactly when the date lies within a year of its boundary, as it always does for a day some year has |
| BookRuns.EnsureTwice | src/lib/accounting/fiscal-periods.ts:65-73 | ensuring the current period twice is ensuring it once |
| Accounts.InferNormalBalance | src/lib/accounting/normal-balance.ts:3-9 | debit exactly for assets, expenses and cost of goods sold |
| Accounts.ResolveClassification | src/lib/accounting/account-type-map.ts:4-40 | whatever the type name, the normal side is that of the canonical type |
| Posting.ValidateBalanced | src/lib/accounting/validation-rules.ts:17-26 | passes exactly when debits and credits differ by at most 0.01 and debits are positive |
| Posting.GroupLines | src/lib/accounting/posting-service.ts:147-153 | the insertion-ordered map, filled line by line, is the grouping function |
| Posting.BuildRows | src/lib/accounting/posting-service.ts:147-182 | one row a group, converted at the overriding or looked-up rate |
| Posting.GroupKeys | src/lib/accounting/posting-service.ts:147-153 | groups have distinct account and direction, and exactly those of the lines with a positive side |
| Posting.GroupTraits | src/lib/accounting/posting-service.ts:149-152 | a group has a cost centre exactly when all its lines share it, and the rate of its first line |
| Posting.RowIsConverted | src/lib/currency/fx-accounts.ts:42-83 | every row has its document's date and currency, and is converted at the rate of the first of its lines, its own before the looked-up one, to within half a unit a side |
| Posting.MovesAtRate | src/lib/accounting/posting-service.ts:147-182 | when all lines ask for one rate, by their own or the looked-up one, that rate is in every row and each account moves in base by it times its net, never out by more than one unit |
| Posting.AtMostTwoRowsPerAccount | src/lib/accounting/posting-service.ts:147-153 | no account gets three rows |
| Posting.GroupKeepsTotals | src/lib/accounting/posting-service.ts:147-153 | non-negative lines: grouping keeps each account's debits, credits and net |
| Posting.GroupImbalance | src/lib/accounting/posting-service.ts:121-153 | for any lines, the rows are out of balance by the lines less those that were dropped |
| Posting.GroupKeepsSum | src/lib/accounting/posting-service.ts:147-153 | for any lines, grouping adds up exactly what the lines with a positive side weigh |
| Posting.DocumentBaseImbalance | src/lib/currency/fx-conversion.ts:15-51 | at one rate the base imbalance is rate times transaction imbalance, to within half a unit a row |
| Posting.BaseMovementAtOne | src/lib/currency/fx-conversion.ts:24-51 | a document in the base currency moves each account in base by exactly its amounts |
| Posting.GroupMirror | src/lib/accounting/posting-service.ts:147-153 | grouping commutes with swapping every line's sides |
| Posting.MirroredDocumentsCancel | src/lib/accounting/posting-service.ts:106-206 | mirrored documents at one rate cancel on every account in both currencies |
| Books.FirstPostingAppends | src/lib/accounting/posting-service.ts:135-192 | an accepted first posting appends exactly its rows, and only with positive debits |
| Books.PostedRowsAre | supabase/migrations/032_enterprise_accounting_hardening.sql:184-232 | posting a journal adds its lines in order, each with the journal's date, currency and origin and no base amounts, sets its status, and changes nothing else |
| Refusals.ContextIff | src/lib/accounting/validation.ts:205-222 | lines are accepted on a date exactly when they balance to 0.01 with positive debits, no closed period holds the date and every account is live and active; otherwise the first reason that holds is given |
| Refusals.DocumentOutcome | src/lib/accounting/posting-service.ts:106-206 | a document is refused for the first such reason, passed over when the ledger has it, refused when a row would be negative or two-sided, and posted otherwise |
| Refusals.DraftOutcome | src/lib/accounting/journal-operations.ts:71-126 | a negative total leaves no trace of a draft, a negative line leaves its header without lines, anything else is the last journal, field by field |
| Refusals.JournalOutcome | supabase/migrations/032_enterprise_accounting_hardening.sql:125-242 | a journal posts exactly when it is a draft, its lines are accepted, its totals agree above zero and its lines are one-sided and distinct; every other outcome has its own condition |
| Refusals.ReversalOutcome | src/lib/accounting/journal-operations.ts:128-190 | a reversal goes through exactly when its journal is posted and not reversed, its date is open and its accounts are in use; each refusal has its condition |
| Refusals.AdjustmentOutcome | src/lib/accounting/journal-operations.ts:216-265 | so does an adjustment, exactly when its journal is posted, its lines are accepted and not negative, and, posted at once, balance exactly and are one-sided and distinct |
| Refusals.RetainedIsFirst | src/lib/accounting/year-close.ts:76-82 | the retained-earnings account is the first one in the chart that qualifies |
| Refusals.CloseRefusedIff | src/lib/accounting/year-close.ts:31-82 | why a close does not begin, each refusal with its exact condition |
| BookInvariants.DocumentKeeps | src/lib/accounting/posting-service.ts:106-206 | posting a document keeps the invariant: known accounts, totalled journals, sound links, closed years at zero |
| BookInvariants.PostKeeps | supabase/migrations/032_enterprise_accounting_hardening.sql:125-242 | so does posting a journal |
| BookInvariants.ReversalPosts | src/lib/accounting/journal-operations.ts:156-190 | once a reversal's date is valid its draft always posts |
| BookInvariants.ReverseKeeps | src/lib/accounting/journal-operations.ts:128-190 | reversing keeps the invariant |
| BookInvariants.AdjustKeeps | src/lib/accounting/journal-operations.ts:216-265 | adjusting keeps the invariant |
| Reversals.ReversePosts | src/lib/accounting/journal-operations.ts:156-184 | a completed reversal changes the books by a posted journal of the swapped lines, of its own date and the currency of its journal, by its rows, and by the link back |
| Reversals.AdjustPosts | src/lib/accounting/journal-operations.ts:245-262 | a completed adjustment adds a journal of its lines in the currency of its journal, with its rows if it is posted, and changes nothing else |
| YearClose.ClosingTotals | src/lib/accounting/year-close.ts:70-121 | closing debits and credits are income and expenses, each raised to the larger when net income exceeds one unit |
| YearClose.ClosingBalancesIff | src/lib/accounting/year-close.ts:84-121 | the closing entry balances exactly if and only if net income is not one unit either way |
| YearClose.ClosingUndoes | src/lib/accounting/year-close.ts:63-103 | the closing lines undo the period's movement of each listed income, cost and expense account and leave a header account alone |
| YearClose.ClosingPostsIff | src/lib/accounting/year-close.ts:123-157 | the closing journal posts exactly when every balance is on its normal side, net income is not one unit, and the accounts are active |
| YearClose.CloseCompletesIff | src/lib/accounting/year-close.ts:63-258 | and the close completes exactly when, besides, the following period does not exist |
| YearClose.PeriodZero | src/lib/accounting/year-close.ts:63-157 | after the closing journal, each profit-and-loss account's movement in the period is zero if it is listed and what it was if it is not |
| YearClose.CloseKeeps | src/lib/accounting/year-close.ts:21-258 | a close, completed or cut short, keeps the invariant |
| CloseEffect.CloseRows | src/lib/accounting/year-close.ts:123-240 | a close changes the ledger by all its closing rows or by none; the opening memorandum adds none |
| CloseEffect.ClosingRowsBalance | src/lib/accounting/year-close.ts:84-157 | the closing rows net to zero over any dates |
| CloseEffect.CloseKeepsAssetsAndLiabilities | src/lib/accounting/year-close.ts:70-157 | total assets and total liabilities are the same at every date |
| CloseEffect.CloseKeepsEquity | src/lib/accounting/year-close.ts:70-157 | so is equity with unclosed earnings, when retained earnings is a listed account |
| CloseEffect.CloseKeepsEquityIff | src/lib/accounting/year-close.ts:78-121 | from the period's end on, exactly when it is listed or the period made no profit |
| CloseEffect.CloseMovesProfit | src/lib/accounting/year-close.ts:105-121 | the retained-earnings account moves by exactly the net income |
| CloseEffect.CloseMovesAccount | src/lib/accounting/year-close.ts:86-103 | over any dates, a listed income, cost or expense account moves by the opposite of its period's movement, at the period's end |
| CloseEffect.NetIncomeIsNetProfit | src/lib/accounting/trial-balance.ts:96-131 | the net income closed is the net profit the profit-and-loss report shows |
| CloseEffect.MemoCarriesIff | src/lib/accounting/year-close.ts:181-199 | the opening memorandum carries a balance forward exactly when it is zero or above one unit on its normal side |
| CloseRecords.MemorandumIsStored | src/lib/accounting/year-close.ts:181-236 | the last journal after a close is a draft opening of the next period's start; its stored lines carry every listed asset, liability and equity account to its balance, exactly under the condition above |
| CloseRecords.MemorandumAccounts | src/lib/accounting/year-close.ts:181-199 | and it has no line of another account, nor a two-sided or negative one |
| CloseRecords.CloseIsRecorded | src/lib/accounting/year-close.ts:201-258 | a close stores its closing journal, the next period and a record of the year's net profit and of both journals, and closes its own period |
| CloseRecords.YearClosesOnce | src/lib/accounting/year-close.ts:52-59 | whatever runs in between, closing a period that ends in a closed fiscal year is refused and changes nothing |
| BookRuns.ApplyKeeps | src/lib/accounting/posting-service.ts:21-206 | every operation keeps the invariant, bare closes and account deletions included: no row is on a deleted account, and every recorded close has settled a year of its own |
| BookRuns.RunKeeps | src/lib/accounting/posting-service.ts:21-206 | so does every run of operations |
| BookRuns.RunGrows | src/lib/accounting/validation.ts:50-65 | rows are never changed, closed periods stay closed, and no row is added inside one |
| BookRuns.ClosedYearIsFinal | src/lib/accounting/year-close.ts:61-157 | after a close, over every later run, the period stays closed and gets no row; its listed income, cost and expense accounts stay at zero and header ones at what the close left |
| BookRuns.ClosedAccountIsZeroIff | supabase/migrations/053_quickbooks_accounting_certification.sql:59 | such an account has no movement left in the year exactly when it is listed or had none |
| Shop.SaleClosesIff | src/lib/accounting/year-close.ts:84-157 | a year with one sale closes exactly when that is two units or more; one unit or a credit note leaves it open, with no new row |
| HeaderAccounts.HeaderIncomeSurvivesClose | src/lib/accounting/validation.ts:23-48 | a shop whose sales account is a header: its sale posts, the year closes, and the income still stands in it |
| LedgerRuns.EarningsAreUnclosed | src/lib/accounting/balance-sheet-math.ts:3-19 | over every run and at any date, the earnings on the balance sheet are those of rows outside the years closed and ended by then, plus the profit such years have in common |
| LedgerRuns.OneStartRepeatsNothing | src/lib/accounting/year-close.ts:159-179 | which is nothing when the company keeps one annual fiscal start |
| FiscalRuns.RunYears | src/lib/accounting/fiscal-periods.ts:56-82 | over every run under one start, the periods are distinct fiscal years |
| OverlappingYears.OverlapLeavesProfit | src/lib/accounting/year-close.ts:63-157 | any two overlapping years: both close, no row lies outside them, and the earnings still show the amount of the first year's sale |
| OverlappingYears.ChangedStartOverlaps | src/lib/db/settings.repository.ts:124 | changing the start from January to July makes two such years |
| LedgerRuns.DocumentNet | src/lib/accounting/posting-service.ts:121-153 | for any lines, a document that posts changes the ledger's net by its lines' imbalance less that of the lines dropped, and any other not at all |
| LedgerRuns.RunDrift | src/lib/accounting/validation-rules.ts:17-26 | over any run, debits and credits drift by at most 0.01 a document and what its dropped lines come to, and not at all if each document's rows balance |
| LedgerRuns.CleanSlack | src/lib/accounting/validation-rules.ts:17-26 | for n documents without a negative side that bound is 0.01 n |
| CleanDocuments.InvoicesAndPurchasesClean | src/lib/accounting/document-posting.ts:87-232 | no line of an invoice, credit note, bill or expense has a negative side, so none is dropped |
| CleanDocuments.ExpensesClean | src/lib/accounting/document-posting.ts:390-437 | nor of an expense, whatever account pays it |
| CleanDocuments.ReceiptsAndCreditsClean | src/lib/accounting/document-posting.ts:337-362 | nor any of a receipt or vendor credit with a total the tables can hold |
| CleanDocuments.PaymentsClean | src/lib/accounting/document-posting.ts:303-331 | nor any of a payment and its realized differences |
| CleanDocuments.RevaluationsClean | src/lib/currency/revaluation.ts:179-210 | nor of a revaluation |
| CleanDocuments.BankEntriesClean | src/lib/banking/transactions.ts:25 | nor any of a transfer that passes its checks or of an imported deposit of a positive amount |
| LedgerRuns.ReportsAfterRun | src/lib/accounting/trial-balance.ts:6-94 | from empty books and after any run, the reports are out by the rows on header accounts to within that bound; with exact documents the sheet balances exactly when those rows net to nothing |
| KeyedRuns.RunKeepsInv | src/lib/accounting/opening-balances.ts:74-86 | the invariant holds over runs that hold keyed attempts too, wherever these were cut short |
| KeyedRuns.RunGrowsToo | src/lib/accounting/validation.ts:50-65 | over such runs rows are never changed, closed periods stay closed and get no row |
| KeyedRuns.ClosedYearStaysFinal | src/lib/accounting/year-close.ts:61-157 | a closed year is as final when attempts and crashes follow it |
| KeyedRuns.EarningsStayUnclosed | src/lib/accounting/balance-sheet-math.ts:3-19 | the earnings shown are those no closed year has absorbed, over such runs as well |
| KeyedRuns.ReversedOnceStays | src/lib/accounting/journal-operations.ts:143-154 | a reversed journal cannot be reversed again, over such runs as well |
| KeyedRuns.TryNet | src/lib/accounting/opening-balances.ts:57-88 | an attempt never moves the ledger's net, wherever it stops |
| KeyedRuns.DriftIsOfDocuments | src/lib/accounting/validation-rules.ts:17-26 | so debits and credits drift by what the ordinary documents allow and by nothing else |
| KeyedRuns.ReportsAfterKeyedRun | src/lib/accounting/trial-balance.ts:6-94 | and the reports are out by the rows on header accounts to within that |
| LedgerRuns.DocumentPostsOnce | src/lib/accounting/posting-service.ts:135-145 | whatever runs after a document was posted, its rows stay those of that one posting |
| LedgerRuns.OnlyBareCloseIff | src/lib/accounting/year-close.ts:165-179 | a period whose successor exists is closed after a run exactly when it was before or the run closes it bare |
| Reversals.AtMostOneReversal | src/lib/accounting/journal-operations.ts:143-154 | after any run, no journal is reversed by two |
| Reversals.ReversedOnce | src/lib/accounting/journal-operations.ts:143-154 | after a reversal and any run, reversing again is refused and changes nothing |
| Reversals.ReversalsNeverCycle | src/lib/accounting/journal-operations.ts:170-190 | after any run, following reversals never comes back to a journal |
| Reversals.ChainAlternates | src/lib/accounting/journal-operations.ts:156-190 | after any run, a chain moves each account by the original amount or by zero, alternately |
| Reports.ComputeUnclosedEarnings | src/lib/accounting/balance-sheet-math.ts:9-19 | the loop gives income less cost less expense |
| Reports.BuildBalanceSheet | src/lib/accounting/trial-balance.ts:52-94 | sections, the earnings line and totals, with lines of at most one unit left out |
| Reports.BuildProfitLoss | src/lib/accounting/trial-balance.ts:96-141 | totals by kind, and net profit equal to unclosed earnings |
| Reports.SheetDifferenceIsNet | src/lib/accounting/trial-balance.ts:52-94 | whatever was posted, assets less liabilities, equity and earnings is the net of the rows on listed accounts |
| Reports.AccountingIdentity | src/lib/accounting/trial-balance.ts:52-94 | with every row on a listed account, that difference is the ledger's own net |
| Reports.ReportedSheet | src/lib/accounting/trial-balance.ts:67-92 | the totals shown differ by what the ledger is out by, to within one unit a line left out |
| Reports.SheetBySection | src/lib/accounting/trial-balance.ts:52-94 | each section holds exactly the accounts of its kind with more than one unit, once each, equity the earnings last; each total alone is that of its kind to within a unit a line left out; balanced means the totals agree |
| Reports.AggregateApart | supabase/migrations/053_quickbooks_accounting_certification.sql:39-65 | the balances of a chart have one for each account, as that needs |
| Reports.TrialBalanceDifference | src/lib/accounting/trial-balance.ts:26-49 | the trial balance's debits less credits is exactly the ledger's net |
| Reports.TrialBalanceTotals | src/lib/accounting/trial-balance.ts:26-49 | exactly the accounts with a debit, a credit or more than a unit of balance are shown, and total debits and total credits are, each by itself, those of the rows on listed accounts |
| GeneralLedger.Scan | src/lib/accounting/ledger.ts:149-162 | the scan ends for any number of rows; an unbounded one misses nothing exactly when the server's cap allows a full chunk or the rows fit under it, and sums all but what it misses |
| GeneralLedger.WithRunningBalance | src/lib/accounting/ledger-report-math.ts:43-49 | each row with the balance after it |
| GeneralLedger.RunningSlice | src/lib/accounting/ledger-report-math.ts:39-49 | a slice of the running report is the report of the slice from the balance carried in |
| GeneralLedger.GetGeneralLedgerReport | src/lib/accounting/ledger.ts:110-210 | under any cap: a page is its rows with balances from what the scans reach, and opening, closing and totals are out by exactly the rows missed |
| GeneralLedger.CarriedIsShort | src/lib/accounting/ledger.ts:149-175 | what the scans carry into a page is short of the balance before it by the net of the rows they miss |
| GeneralLedger.PageIsSliceIff | src/lib/accounting/ledger.ts:140-200 | a returned page is the matching slice of the whole running report exactly when it is empty or the rows missed net to nothing |
| GeneralLedger.UnshiftedUnder | src/lib/accounting/ledger.ts:108-162 | which they do under any cap of a full chunk, or when all the rows fit under the cap |
| GeneralLedger.LastIsClosing | src/lib/accounting/ledger.ts:200-207 | the last running balance is the closing balance |
| GeneralLedger.OpeningIsPriorClosing | src/lib/accounting/ledger.ts:163-170 | a report that starts where another ends opens with its closing balance |
| GeneralLedger.ClosingIsMovement | src/lib/accounting/ledger.ts:202-207 | for one account the closing balance is the movement the balance reports show |
| GeneralLedger.PagesMakeTheWholeIff | src/lib/accounting/ledger.ts:137-200 | consecutive pages as they are returned are the whole report exactly when a page is no larger than the cap or the whole fits under it, and no page is short of its starting balance |
| GeneralLedger.LargePagesLoseRows | src/app/api/reports/general-ledger/route.ts:23 | 1500 rows, pages of 2000, a cap of 1000: however many pages are read, 1000 rows come |
| GeneralLedger.ThirdPageIsShort | src/lib/accounting/ledger.ts:149-175 | 1500 rows of net one, pages and cap of 500: no row is lost and the third page starts 500 short |
| FiscalCalendar.DayFromYearIsClosedForm | src/lib/accounting/fiscal-calendar.ts:3-4 | counting days year by year gives the closed form ECMA-262 (section 21.4.1) defines for Date |
| FiscalCalendar.PeriodContainsIff | src/lib/accounting/fiscal-calendar.ts:1-6 | an instant lies in its computed period exactly when no year below 100 is passed to Date.UTC |
| FiscalCalendar.PeriodUnique | src/lib/accounting/fiscal-calendar.ts:1-6 | no instant lies in two computed periods |
| FiscalCalendar.NextAgreesIff | src/lib/accounting/fiscal-calendar.ts:8-11 | the next period is the computed one of the next instant, except for a 29 February start before a leap year that follows a common one |
| FiscalCalendar.NextFallsShort | src/lib/accounting/fiscal-calendar.ts:8-11 | from any stored end the next period falls short of a year by the time of day at which it starts |
| FiscalCalendar.StoredEndAgreesIff | src/lib/accounting/fiscal-calendar.ts:8-11 | stepping from a stored end agrees with computing exactly when the end is just before the start of a fiscal year |
| FiscalCalendar.SeededYearsSlip | supabase/migrations/025_accounting_engine.sql:120-127 | from a seeded year on, every later period ends on 30 December |
| FiscalCalendar.StepsAgree | src/lib/accounting/fiscal-calendar.ts:8-11 | any number of steps gives the computed period that many years on |
| FiscalCalendar.LabelsIncrease | src/lib/accounting/fiscal-calendar.ts:1-11 | consecutive periods adjoin and their labels grow by one |
| Payments.BuildEntry | src/lib/accounting/document-posting.ts:278-319 | the payment's lines and the realized pairs, collected allocation by allocation, or the first error |
| Payments.RealizedMoves | src/lib/accounting/document-posting.ts:306-319 | realized lines balance; any account is moved by the booked differences as control, the gains as gain and the losses as loss account, by all of them if it is several |
| Payments.PaymentBase | src/lib/accounting/document-posting.ts:306-307 | in base currency the amount at its rate goes from control to settlement or back, and nowhere when they are one account |
| Payments.RelievesCarriedValue | src/lib/accounting/document-posting.ts:306-331 | fully allocated, the base value relieved is the documents' to within 0.01 an unbooked difference and (n+1)/2 units |
| Payments.OneAllocationIsExact | src/lib/currency/fx-conversion.ts:53-61 | one booked allocation is relieved of exactly its original base value |
| Payments.ControlIsRelieved | src/lib/accounting/document-posting.ts:303-331 | a complete foreign payment moves every account by the relieved value as control and by its share as settlement, gain or loss account |
| Payments.PaymentClearsDocuments | src/lib/accounting/document-posting.ts:303-331 | fully allocated, it relieves the control account of the documents' carried value within a stated bound, besides what the account gets in another role |
| Payments.RepeatChangesNothing | src/lib/accounting/document-posting.ts:320-331 | posting a completed payment again changes nothing |
| Payments.PaymentStops | src/lib/accounting/document-posting.ts:278-301 | a payment of neither subledger or of both, without an account to go through, or without its control account, stops there and posts nothing |
| Payments.PaymentSettles | src/lib/accounting/document-posting.ts:278-331 | complete, it moves in base the account it names, or its linked bank's, or the company's, against receivable for a customer and payable for a vendor; in the base currency these two and no other |
| Payments.BookedBeyondCent | src/lib/accounting/document-posting.ts:308-318 | an allocation books the difference between its document's rate and the payment's beyond 0.01, and nothing without a document rate |
| Payments.PaymentMovement | src/lib/accounting/document-posting.ts:303-331 | by date, in the amounts of the rows: the payment's own amount and the realized differences, on the payment's date |
| Payments.PaymentRowsAre | src/lib/accounting/document-posting.ts:320-331 | all it adds is rows of its two entries: its own in its currency at its rate, the realized ones in the base currency at one |
| Payments.RealizedBuiltIff | src/lib/accounting/document-posting.ts:306-319 | realized lines are built exactly when every booked gain and loss has its account; otherwise the error names the one missing |
| PostingOutcomes.PaymentCompletesIff | src/lib/accounting/document-posting.ts:248-331 | a payment completes exactly when it has one subledger, an amount, an open date, its two accounts in use and, if foreign, accounts in use for the gains and losses it has |
| Documents.BuildInvoice | src/lib/accounting/document-posting.ts:87-133 | receivable, revenue and tax lines, with the sides of a credit note swapped |
| Documents.BuildPurchase | src/lib/accounting/document-posting.ts:175-232 | expense lines with reductions, tax, and the payable or paying account |
| Documents.BuildReceipt | src/lib/accounting/document-posting.ts:355-362 | deposit, sales and discount lines and tax, or the first error |
| Documents.BuildVendorCredit | src/lib/accounting/document-posting.ts:337-343 | credited lines, swapped tax and the payable account, or the first error |
| Tax.BuildTaxJournalLines | src/lib/tax/journal-posting.ts:33-80 | the tax lines, component by component, or the first account that is missing |
| Tax.TaxMoves | src/lib/tax/journal-posting.ts:45-77 | charged tax is owed on sales and reclaimed on purchases, a reverse charge is both, withheld tax is on its own account; no line has a negative side |
| Tax.TaxBuiltIff | src/lib/tax/journal-posting.ts:45-77 | the lines are built exactly when every positive component finds the accounts it needs; otherwise the error is that of the first one that does not |
| Tax.SingleTax | src/lib/accounting/document-posting.ts:204-223 | the one component of a bill, receipt or credit comes to the document's tax, on its side |
| Documents.InvoiceMoves | src/lib/accounting/document-posting.ts:87-133 | on any accounts: receivable debited by the total, each line's account credited by the line, tax on top; a credit note the opposite |
| Documents.PurchaseMoves | src/lib/accounting/document-posting.ts:175-232 | on any accounts: lines debited, reductions taken off, tax on top, the total credited to the paying account |
| Documents.ReceiptMoves | src/lib/accounting/document-posting.ts:357-362 | on any accounts: deposit debited by the total, sales credited and discounts debited line by line |
| Documents.VendorCreditMoves | src/lib/accounting/document-posting.ts:338-343 | on any accounts: lines credited, purchase tax taken back, payable debited by the total |
| Documents.InvoiceImbalance | src/lib/accounting/document-posting.ts:87-133 | out of balance by total less posted lines and tax; a credit note by the opposite |
| Documents.PurchaseImbalance | src/lib/accounting/document-posting.ts:402-437 | for any mix of reductions, out by posted lines plus tax less total |
| Documents.ExpenseWithoutLinesBalances | src/lib/accounting/document-posting.ts:393-437 | an expense without lines always balances, and needs a settlement account or, when not imported, the bank |
| Documents.ReceiptImbalance | src/lib/accounting/document-posting.ts:357-362 | for any mix of sales and discounts, out by total less lines and tax |
| Documents.VendorCreditImbalance | src/lib/accounting/document-posting.ts:338-343 | out by total less lines and tax |
| Documents.InvoiceAcceptedIff | src/lib/accounting/document-posting.ts:87-148 | for any amounts and books, a sent invoice is refused as unbalanced exactly when total, posted lines and tax differ by more than 0.01; lines without an account are the ones not posted |
| Documents.UnplacedLineIsRefused | src/lib/accounting/document-posting.ts:58-105 | an invoice of two equal lines, one without an account, is refused whatever the books |
| Documents.UnplacedInvoiceIsSkipped | src/lib/accounting/document-posting.ts:137-148 | with no line on an account and no tax it is passed over without an error |
| Documents.CreditNoteMirrors | src/lib/accounting/document-posting.ts:87-133 | the credit note's lines are the invoice's with sides swapped |
| Documents.CreditNoteCancels | src/lib/accounting/document-posting.ts:87-148 | posting both leaves every account unmoved in both currencies |
| Documents.InvoiceThenCreditNote | src/lib/accounting/document-posting.ts:135-148 | so on the books, after both, every balance is what it was |
| PostedDocuments.InvoicePosted | src/lib/accounting/document-posting.ts:62-148 | on the books, a posted invoice moves each account by receivable, lines and tax, in its own currency and at its rate in base to within one unit, by rows of its date, currency and rate only; a credit note the opposite |
| PostedDocuments.BillPosted | src/lib/accounting/document-posting.ts:150-246 | so does a bill by lines, reductions, tax and payable |
| PostedDocuments.ExpensePosted | src/lib/accounting/document-posting.ts:368-449 | an expense is paid from the account it names, or from the bank if it is not imported, and its subtotal is what the total leaves after tax |
| PostedDocuments.ReceiptPosted | src/lib/accounting/document-posting.ts:348-366 | a receipt by deposit, sales less discounts, and tax |
| PostedDocuments.VendorCreditPosted | src/lib/accounting/document-posting.ts:334-346 | a vendor credit by payable, lines and the tax taken back |
| PostedDocuments.ReceiptTaken | src/lib/accounting/document-posting.ts:355-361 | a receipt is built exactly when it has a deposit account, its lines come to its subtotal to 0.01 and each has an account; each error has its condition |
| PostedDocuments.VendorCreditTaken | src/lib/accounting/document-posting.ts:336-341 | the same of a vendor credit and its payable account |
| PostedDocuments.ItemIsPosted | src/lib/accounting/document-posting.ts:87-230 | every positive line with an account is among the posting lines of invoice, credit note, bill and expense: on its side, with its amount, cost centre and the document's rate |
| PostedDocuments.CreditIsPosted | src/lib/accounting/document-posting.ts:341-361 | so is every line of a receipt, discounts debited, and of a vendor credit |
| PostingOutcomes.InvoiceFiled | src/lib/accounting/document-posting.ts:75-148 | an invoice or credit note goes to the ledger exactly when sent and of two lines or more, counted from the paper; it is then refused for the first reason that holds, passed over when known, and posted otherwise |
| PostingOutcomes.BillFiled | src/lib/accounting/document-posting.ts:163-246 | so does a received bill |
| PostingOutcomes.ExpenseFiled | src/lib/accounting/document-posting.ts:381-449 | and an approved expense, but an imported one without an account to pay from is not built |
| PostingOutcomes.ReceiptFiled | src/lib/accounting/document-posting.ts:334-366 | receipts and vendor credits go to the ledger whenever they can be built |
| Revaluation.CurrencyTotals | src/lib/currency/revaluation.ts:62-71 | the map of balances and last rates, filled row by row |
| Revaluation.PreviewCurrencyRevaluation | src/lib/currency/revaluation.ts:50-122 | the preview lines over the rows the server's cap lets through, and their total gain and loss |
| Revaluation.TotalsAreBalances | src/lib/currency/revaluation.ts:62-71 | one total for each foreign currency of the rows, equal to their net in it |
| Revaluation.PreviewIsTrue | src/lib/currency/revaluation.ts:54-109 | each line holds an active asset or liability's balance in a foreign currency less that of the rows beyond the cap, the last rate of the rows read, the current rate, and an adjustment of at least 0.01 |
| Revaluation.WholeBalanceIff | src/lib/currency/revaluation.ts:54-60 | a line is the whole balance exactly when the rows missed net to nothing in its currency, as they do when the account's rows are no more than the cap |
| Revaluation.PreviewIsComplete | src/lib/currency/revaluation.ts:62-109 | every foreign balance that was read has its line exactly when it is worth adjusting |
| Revaluation.RowBeyondTheCap | src/lib/currency/revaluation.ts:54-60 | for every cap, an account with one row more is revalued without it |
| Revaluation.BuildEntry | src/lib/currency/revaluation.ts:179-210 | the posting lines, adjustment by adjustment |
| Revaluation.EntryImbalance | src/lib/currency/revaluation.ts:181-210 | the entry is out of balance by the gains or losses whose account is missing |
| Revaluation.EntryBalances | src/lib/currency/revaluation.ts:179-210 | with both accounts, each side is total gain plus total loss |
| Revaluation.EntryMoves | src/lib/currency/revaluation.ts:181-209 | the entry moves any account by its own adjustments, the total loss as loss account and the total gain as gain account, by all of them if it is several |
| Revaluation.NetAdjustment | src/lib/currency/revaluation.ts:108-121 | gain less loss is the sum of the adjustments |
| Revaluation.RevaluationMoves | src/lib/currency/revaluation.ts:212-224 | posted, each account moves from the rounded old base values to the rounded new ones, besides the gain or loss it collects, and no foreign balance changes |
| Revaluation.RevaluationMovement | src/lib/currency/revaluation.ts:212-224 | by date: the same movements on the date of the revaluation and on no other, in rows of the base currency |
| Revaluation.RerunRepeatsAdjustments | src/lib/currency/revaluation.ts:62-66 | a second run books the same adjustments again |
| Revaluation.MarkedWithoutEntryIff | src/lib/currency/revaluation.ts:212-231 | marked posted without an entry exactly when the one adjustment lacks its account; the books then stay as they were, as when the ledger refuses or nothing is to revalue |
| Revaluation.PostedEntryIsThere | src/lib/currency/revaluation.ts:212-231 | marked posted with an entry, the ledger has it |
| PostingOutcomes.RevaluationPostsIff | src/lib/currency/revaluation.ts:212-231 | with something to revalue and an entry, it is marked posted exactly when the ledger accepts the entry, and stops for the reason it does not |
| KeyedService.KeyedTables.PostIdempotentOpeningBalance | src/lib/accounting/opening-balances.ts:57-88 | an attempt with a budget of writes goes to the state of `TryPost`, wherever it stops |
| KeyedService.KeyedTables.PostIdempotentTransferJournal | src/lib/banking/transfers.ts:42-79 | the same for transfers, whose writes come in another order |
| KeyedService.KeyedTables.Put | src/lib/accounting/opening-balances.ts:74-86 | each single write |
| KeyedJournals.TryOnce | src/lib/accounting/opening-balances.ts:57-88 | an attempt cut short or refused leaves the ledger rows as they were |
| KeyedJournals.RunPostsOnce | src/lib/accounting/validation.ts:168-184 | over runs of attempts, crashes and every other operation, each journal's lines are in the ledger once if posted and not at all if not |
| ExactlyOnce.AttemptUnrolled | src/lib/accounting/opening-balances.ts:74-86 | whatever earlier attempts left, the writes end by posting exactly the wanted lines |
| ExactlyOnce.CompletedPostsWanted | src/lib/accounting/opening-balances.ts:74-87 | a completed attempt posts the wanted lines and nothing else, under a key that had posted nothing |
| ExactlyOnce.OpeningMoves | src/lib/accounting/opening-balances.ts:61-86 | a completed opening moves each account by its opening balance |
| ExactlyOnce.TransferMoves | src/lib/banking/transfers.ts:49-78 | a completed transfer journal takes the amount from one account and gives it to the other |
| ExactlyOnce.CompletesIff | src/lib/accounting/opening-balances.ts:60-87 | an attempt allowed to finish completes exactly when its own lines meet the posting rules, no two of them equal |
| KeyedRecords.CompletedJournal | src/lib/accounting/opening-balances.ts:65-87 | the journal a completed attempt leaves, field by field, built anew or from an earlier draft; the key names it and no other journal changes |
| KeyedRecords.RefusedOutright | src/lib/accounting/opening-balances.ts:60-64 | an opening of fewer than two lines with amounts, or out of balance, and a transfer to itself or of nothing, are refused with nothing written |
| KeyedRecords.CompletesWhen | src/lib/accounting/opening-balances.ts:57-88 | one that is not completes exactly when its lines are accepted on its date, balance exactly, and are one-sided and distinct |
| KeyedRecords.CrashAfterOneWrite | src/lib/banking/transfers.ts:57-63 | dying after one write, an opening has lost its old lines under its old header, a transfer has its new header over its old lines |
| LedgerIndex.RepeatedLineNeverPosts | supabase/migrations/032_enterprise_accounting_hardening.sql:33-35 | a request with two equal lines is never posted, however often it is tried and whatever runs in between |
| LedgerIndex.HalvedOpeningIsRefused | src/app/api/migration-wizard/opening-balances/route.ts:9-11 | an opening in two equal halves leaves its draft and no row, every retry is refused, and the same balance in one line posts |
| ExactlyOnce.PostsExactlyOnce | src/lib/accounting/opening-balances.ts:65-73 | after a completed attempt and any run, the rows are there once, the same lines in any order are acknowledged, others refused, and nothing changes |
| ExactlyOnce.ReversalDoesNotFreeTheKey | src/lib/accounting/opening-balances.ts:71 | a changed retry is still refused after the journal was reversed |
| Subledger.OpeningDocuments.MaterializeOpeningSubledgerBalances | src/lib/accounting/opening-balances.ts:24-55 | clears, then revives or inserts a document for each balance |
| Subledger.LatestBalancesOnly | src/lib/accounting/opening-balances.ts:27-53 | the live documents are those the latest balances call for, in the table their sign picks; other reconciliations are untouched |
| Subledger.HistoryDoesNotMatter | src/lib/accounting/opening-balances.ts:18-31 | any history of earlier runs leads to the same live documents |
| Subledger.OneDocumentEach | src/lib/accounting/opening-subledger-engine.ts:6-14 | with distinct keys, one live document for each balance that is not negligible |
| Subledger.DocumentIs | src/lib/accounting/opening-balances.ts:32-53 | the document of the last balance under a key: its table by kind and sign, its party, the run's date and currency, its size to half a ten-thousandth, on one line or none |
| Subledger.TotalsAgree | src/lib/accounting/opening-subledger-engine.ts:6-9 | and their signed total is that of the balances as stored |
| Subledger.TotalsNear | src/lib/accounting/opening-balances.ts:33-35 | which is the exact total to within half a ten-thousandth a balance |
| BankingService.BankTables.RecordBankTransaction | src/lib/banking/transactions.ts:5-18 | a known source is confirmed, a new one moves the balance by its amount |
| BankingService.BankTables.CreateBankDeposit | src/lib/banking/transactions.ts:21-28 | the transaction and the balance, then the allocations, then the ledger entry; a refusal leaves what came before it |
| BankingService.BankTables.StorePayment | supabase/migrations/010_database_hardening.sql:56-57 | a payment is stored once, not negative, with nothing deposited |
| BankRecords.PaymentStored | supabase/migrations/010_database_hardening.sql:56-57 | once and never negative, with its amount and nothing deposited, and every other payment as it was |
| BankingService.BankTables.ReplaceDepositAllocations | supabase/migrations/057_quickbooks_deposit_materialization.sql:143-161 | the deposit's old rows go and the new ones come, under the checks of function and tables, and the totals of the payments of both are restated |
| BankingService.BankTables.CreateBankTransfer | src/lib/banking/transfers.ts:5-30 | balances, transactions and ledger entry in the order they are written |
| Banking.StepAgreesIff | src/lib/banking/transfers.ts:17-27 | a step keeps balance = opening + credits - debits exactly unless it is a new transfer under the unique index |
| Banking.RunDriftIs | src/lib/banking/transactions.ts:13-17 | over every run, the balance differs from its transactions by the transfers the index refused and by nothing else |
| Banking.TransferConserves | src/lib/banking/transfers.ts:13-24 | a transfer takes what it gives, touches no other account and never overdraws |
| Banking.TransferMovesLedger | src/lib/banking/transfers.ts:14-28 | one call moves the stored balances if its number is new and the ledger accounts if it posts an entry; under the unique index never both |
| Banking.RefusedTransferMovesMoney | supabase/migrations/057_quickbooks_deposit_materialization.sql:60-62 | under the index a new transfer moves both balances, fails, and leaves no transaction and no entry |
| Banking.RetryNeedsTwice | src/lib/banking/transfers.ts:13 | repeated at once, it passes the checks exactly when the source account held the amount twice |
| Banking.RetryMovesLedger | src/lib/banking/transfers.ts:14-28 | a later call under the number moves no balance, and brings the ledger to where the failed call left the balances exactly when it posts an entry of the same amount |
| Deposits.AcceptedIff | supabase/migrations/057_quickbooks_deposit_materialization.sql:151-159 | allocations are accepted exactly when each is sound, they come to the transaction's amount to within a unit, and no payment is brought in beyond its amount: the payment table leaves the function's tolerance unused |
| Deposits.RefusedFor | supabase/migrations/057_quickbooks_deposit_materialization.sql:143-161 | and why they are refused, each reason with its exact condition |
| Deposits.RunKeepsPayments | supabase/migrations/057_quickbooks_deposit_materialization.sql:12-16 | over every run no payment is deposited for more than its amount, and its stored total and status are those of its allocations |
| Deposits.RunKeepsExplained | supabase/migrations/057_quickbooks_deposit_materialization.sql:154-155 | over every run the allocations of a deposit come to what its bank transaction says, to within a unit |
| Deposits.ImportTakesIff | src/lib/import-export/quickbooks/deposit-relationships.ts:17-31 | the import takes a deposit exactly when none of its lines is zero and they come to its total to within a unit; its entry lines are these at its rate |
| Deposits.BuildOffsets | src/lib/import-export/registry/modules/quickbooks-extended.module.ts:365-379 | source lines credit their accounts and cash back debits them |
| Deposits.TotalAcceptedIff | src/lib/import-export/quickbooks/deposit-relationships.ts:29-30 | an import's lines agree with its transaction exactly for a positive total, and for minus one unit when they come to nothing |
| Deposits.ReachesLedgerIff | src/lib/banking/transactions.ts:21-25 | a recorded import reaches the ledger exactly when each allocation is sound, the payments can bear them and the total is such; otherwise its transaction and its balance are all that was written |
| Deposits.BalanceGrows | src/lib/banking/transactions.ts:14-25 | a deposit recorded for the first time has raised the balance by its size, whatever its allocations and its entry come to |
| Deposits.ImportedPostsIff | src/lib/banking/transactions.ts:24-25 | and a positive one is posted exactly when, besides, its date is open and its accounts are usable |
| Deposits.PostedDepositMoves | src/lib/import-export/registry/modules/quickbooks-extended.module.ts:365-383 | a posted import moves the stored balance by its size, every account by what its lines brought or took, the bank's by its amount, and the ledger's net by at most one unit |
| Deposits.NegativeDepositStays | supabase/migrations/057_quickbooks_deposit_materialization.sql:155 | a negative import leaves a transaction and a balance raised by its size and nothing else, and no later try under its number gets further, whatever runs in between |
| Deposits.CashBackStays | src/lib/import-export/quickbooks/deposit-relationships.ts:27-30 | receipts and twice as much cash back, for any amount above one unit: taken by the import, and left so |
| Banking.RepeatMovesNothing | src/lib/banking/transfers.ts:14-17 | a used transfer number never moves money again, whatever ran in between |
| Banking.SourceMovesOnce | src/lib/banking/transactions.ts:8-12 | nor does a source that has been recorded |
| BankRecords.RecordNew | src/lib/banking/transactions.ts:6-17 | a new transaction is stored by its size and moves its account by it, one of zero or of a missing account is refused |
| BankRecords.RecordAgain | src/lib/banking/transactions.ts:8-12 | a known source is confirmed exactly when account, size, direction, date and hash agree, lending its hash to one without, and refused otherwise |
| BankRecords.RecordAmbiguous | src/lib/banking/transactions.ts:9-10 | a source stored twice is refused, whatever the transaction says |
| BankRecords.TransferRefusedIff | src/lib/banking/transfers.ts:6-13 | why a transfer is refused, each reason with its exact condition |
| BankRecords.TransferRecords | src/lib/banking/transfers.ts:17-26 | a new one without the index leaves a debit and a credit of its amount, date and number, and both balances, and nothing else |
| BankRecords.TransferRowsAre | src/lib/banking/transfers.ts:28 | its entry's rows are of its date, in the currency of the account it leaves, at the looked-up rate |
| PostingOutcomes.TransferCompletesIff | src/lib/banking/transfers.ts:5-30 | a transfer between accounts with ledger accounts goes through exactly when it passes its checks, its date is open, both ledger accounts are in use and its number is not new under the index |
| BankRecords.DepositRecords | src/lib/banking/transactions.ts:22-28 | a deposit first records its own credit, stops there if that is rejected, and touches no transaction or balance afterwards |
| BankRecords.DepositPosted | src/lib/banking/transactions.ts:22-25 | any deposit that posts, imported or not, moves every account by its amount and its offsets, on its date, in its currency or the bank account's |
| BankRecords.ImportAtItsRate | src/lib/banking/transactions.ts:25 | an imported one is converted at its own rate, to within one unit an account, whatever is looked up |
| BankRecords.DepositNeedsAccount | src/lib/banking/transactions.ts:23 | a deposit to an account that is not there writes nothing |
| NumberFormat.MatchBodyIff | src/lib/document-numbering/format.ts:66-71 | the digits captured are exactly those the pattern describes |
| NumberFormat.RoundTripIff | src/lib/document-numbering/format.ts:14-75 | for a prefix that is not blank, parsing gives back the printed number exactly when the prefix does not end in white space, the padding is at most nine and the suffix can be stepped over |
| NumberFormat.BlankPrefixRoundTripIff | src/lib/document-numbering/format.ts:57-64 | for a blank one, exactly when nothing follows and the padding is at most nine, or the suffix ends in that very number |
| NumberFormat.FormatInjective | src/lib/document-numbering/format.ts:14-30 | different numbers print differently, whatever the settings |
| NumberFormat.PaddingTenUnread | src/lib/document-numbering/format.ts:26-28 | with a padding of ten and a prefix nothing is read back |
| NumberFormat.FormattersAgreeIff | supabase/migrations/042_document_sequences.sql:46-64 | the database prints what the service prints exactly when the number is no longer than its padding |
| NumberFormat.OverflowRepeats | supabase/migrations/042_document_sequences.sql:57-62 | a longer number prints like an earlier one that is not |
| NumberingService.DocumentNumbering.GetInvoiceNumberingContext | src/lib/document-numbering/service.ts:273-318 | the greatest issued number under the prefix and the last live invoice that has it |
| NumberingService.DocumentNumbering.ValidateDocumentSequenceUpdate | src/lib/document-numbering/validation.ts:49-115 | every violation, in field order |
| NumberingService.DocumentNumbering.RepairInvoiceDocumentSequence | src/lib/document-numbering/service.ts:136-171 | the row is rebuilt from the issued invoices |
| NumberingService.DocumentNumbering.UpdateDocumentSequence | src/lib/document-numbering/service.ts:320-365 | the accepted settings, or the errors and no change but a repair |
| NumberingService.DocumentNumbering.ResetDocumentSequenceToDefault | src/lib/document-numbering/service.ts:371-380 | a reset is a repair |
| NumberingService.DocumentNumbering.AllocateDocumentNumber | src/lib/document-numbering/service.ts:233-256 | the healed sequence's next number, and the sequence moved on |
| NumberSequence.AcceptedValues | src/lib/document-numbering/validation.ts:49-115 | no violation exactly when every field is in range and the next number is not below the floor |
| NumberSequence.MaxIssuedIsMaximum | src/lib/document-numbering/service.ts:301-317 | it bounds every live number of the prefix and is one of them |
| NumberSequence.NextIsFreshIff | supabase/migrations/042_document_sequences.sql:130-173 | the next number differs from every live one, whatever those below it are, exactly when it is at most nine digits wide and not cut |
| NumberSequence.UpdateKeepsIff | src/lib/document-numbering/service.ts:329-342 | an accepted change keeps the next number above the live ones exactly when none has reached the cap |
| NumberSequence.SeedIsSound | src/lib/document-numbering/service.ts:402-421 | a new company's sequence starts inside the invariant |
| NumberSequence.IssuedNumbersAreFresh | src/lib/document-numbering/service.ts:136-365 | over every run of allocations, settings changes, repairs, resets, deletions and hand-entered numbers that meet those conditions, an issued number is no live invoice's |
| NumberSequence.AllocatesInOrder | supabase/migrations/042_document_sequences.sql:130-173 | allocations in a row issue the next number and those after it without a gap, leave the next number on by as many and every other setting as it was |
| NumberSequence.AllocationIssues | src/lib/document-numbering/service.ts:136-171 | any allocation: the next number, or after a rebuild one more than the greatest issued under the preferred prefix |
| NumberSequence.UpdateAcceptedIff | src/lib/document-numbering/service.ts:320-365 | a change is accepted exactly when its fields, given or kept, are in range and its next number is above every issued one under its prefix, or one has reached the cap |
| NumberSequence.UpdateStores | src/lib/document-numbering/service.ts:320-365 | an accepted change stores each field it gives and keeps every other; a refused one stores none |
| NumberSequence.ReportedViolations | src/lib/document-numbering/validation.ts:49-115 | each violation is reported exactly when its condition holds |
| NumberSequence.PreferredIs | src/lib/document-numbering/service.ts:37-46 | a blank preference means INV-, any other is taken without white space around it |
| NumberSequence.CapRepeats | src/lib/document-numbering/service.ts:52-58 | past the cap, allocating twice issues the same number twice |
| NumberSequence.PaddingTenReissues | src/lib/document-numbering/service.ts:371-380 | with a padding of ten, a reset reissues a live number |
| Filters.ApplyWhere | src/lib/prisma.ts:198-250 | the query grows by exactly the compiled filters, recursing into AND |
| Filters.LikeIsContainsIff | src/lib/prisma.ts:170 | the pattern %x% selects just the texts that contain x if and only if x has no %, no _ and no backslash |
| Filters.SearchFaithfulIff | src/lib/prisma.ts:231-232 | a search on one column is compiled faithfully for every row exactly when its text has no pattern characters |
| Filters.SearchTextIsAPattern | src/app/api/bills/route.ts:28 | A_1 finds AB1; a text with a backslash does not find itself |
| Filters.WhereFaithful | src/lib/prisma.ts:165-250 | over rows with a value in every column a negation asks about, the filters select exactly the rows the tree describes, however deeply AND is nested: any search texts read as patterns, plain ones as what they say |
| Filters.NegationFaithfulIff | src/lib/prisma.ts:217-226 | a negated field is compiled faithfully for a row exactly when the row has a value there or a null is what is negated |
| Filters.NullIsNoValue | src/lib/prisma.ts:180 | asking a column for null selects exactly the rows without a value in it, and negating that the others |
| Filters.TwoFieldDisjunctIsFlattened | src/lib/prisma.ts:186-196 | a disjunct of two fields selects rows that meet only one |
| Filters.FirstOperatorIsUsed | src/lib/prisma.ts:165-250 | of several operators on one field OR and NOT ask the first only, in the order contains, equals, in, not and the bounds; so does the top level unless all are bounds |
| Filters.RangeInDisjunctIsHalf | src/lib/prisma.ts:165-196 | inside OR a range loses its upper bound: exactly the rows from the lower one on are selected |
| Filters.TwoFieldNegationLosesRows | src/lib/prisma.ts:217-226 | a negation of two fields loses rows that meet only one |
| Filters.FindMany | src/lib/prisma.ts:309-333 | the pages add up to the wanted rows, or to the first page when the server's cap is below a page |

## Left out

- Binary floating point: amounts are exact ten-thousandths and rates exact reals, so the rounding noise of the services' sums does not appear.
- Amounts with more than four decimals: the tables round them on storing; only the opening sub-ledger models that. An opening journal with such amounts would not recognise its own stored lines.
- Concurrency: each operation is one step, except that keyed journals may stop between any two writes; two requests interleaving inside one operation are not modelled.
- Currency, cost-centre, department and tax-rate checks of the posting context, and the refusal of a line with an unknown account at insert time: the same entry is refused when it is posted.
- The stored balance column of accounts, posting sequence numbers, entry numbers, descriptions and audit records.
- Undeleting accounts, deleting journals, and editing an account's type or header flag through src/app/api/accounts/[id]/route.ts.
- Inventory postings, system-account search by name, the split of an invoice's tax into components, and exchange-rate lookup: components, accounts and rates are inputs.
- Reporting-currency amounts, which follow the base-currency ones at another rate.
- Parsing of report date bounds, and ties in the order of ledger rows: rows have one fixed order, which also decides the last rate a revaluation uses.
- NumberSequence.IssuedNumbersAreFresh: only invoices, because other document types have no floor from issued documents; the sequence row exists, since a missing one is inserted from one whatever has been issued.
- LedgerRuns.OneStartRepeatsNothing: periods come from one annual start, so a period seeded with another end of year, or bounds edited by hand, are covered only by the general law before it.
- FiscalCalendar.PeriodContainsIff: instants from year 1 on.
- NumberFormat.RoundTripIff: letters are compared without case over ASCII; Unicode case folding can change a text's length.
- Numbers of deleted invoices, which the unique constraint still holds, and the collision of opening document numbers made of the last twelve characters of a key.
- Subledger.OneDocumentEach: the hash in a key is a value of its own, so distinct keys are assumed and not derived from distinct source keys.
- Payroll, refund, card-payment and tax-settlement entries, vendor open items, resolving the accounts and payments an allocation names, editing or deleting payments, and cheques.
- The rate, currency and line-key constraints of deposit allocations: the import gives each line its own key and a positive rate.
- Reads the server could cut that are taken as whole: the issued invoice numbers (src/lib/document-numbering/service.ts:293-297), the lines of one journal beyond the cap, the account lists and the rows of the balance aggregation for a chart longer than it, and the accounts a revaluation goes through.
- Revaluation.RowBeyondTheCap: the rows that come are the first ones in the order of the ledger; the query asks for no order, so which ones come is up to the database.
- QuickBooks journals, which are posted as source documents under the type and id of a journal: they would share its origin in the unique index.
- Comparing with {not: null}, which asks whether the column differs from the text null (src/lib/zatca/persistence.ts:29).
- The retry of a sales receipt as an invoice where the database does not know its source type (src/lib/accounting/document-posting.ts:364).
- Filter escaping of commas and parentheses in values, the interface's reading of * as %, ordering, selection, includes and the aggregate helpers of the query shim; nested combinators inside OR and NOT.
- Screens, import wizards, authentication and tax-authority integration.
