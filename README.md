# PrevMora credit-portfolio core, modelled in Dafny

PrevMora manages a lender's portfolio of credits. Clients take credits, credits are paid in installments, managers contact clients about late installments, and payments are reconciled against credits. This project models the parts of its services that compute something from data, rather than storing or displaying it:

- **Monthly statistics** (`MonthlyBuckets`, `Analytics`, `MoraStats`, `MoneyRecovery`, `AnalyticsContacts`). Installments are put into twelve month buckets named Enero to Diciembre. Per month the model counts delinquent installments, computes a delinquency percentage and the change from the previous month, and sums amounts collected, debt, balance and amounts recovered. It also averages recovery over chosen months and groups contact events per manager. The statistics service holds three versions of these rules, and each one is modelled separately. Lemmas state where the versions disagree.
- **Overdue table and month comparison** (`OverdueStats`). The older statistics service counts and sums "Vencida" installments per month. It computes a rounded month-over-month change and compares a reference month with a second month.
- **Paying a credit** (`Payments`). The model covers which credit is chosen, the payload sent to the payment gateway, and how gateway answers and failures become HTTP errors. It also covers settlement: open installments become "Pagada", one reconciliation is written per installment, and the credit closes once every installment is paid.
- **Workbook ingestion** (`CreditLoader`, `ReconciliationLoader`).
  - The credit-management loader reads seven sheets in a fixed order. It maps state strings onto fixed vocabularies and remaps workbook ids to database ids. It also keeps per-sheet counters and an error list.
  - The reconciliation loader reads a sheet of payments, matches each payment to a credit by reference, and cancels that credit. It also counts loaded and skipped rows, writes warnings, and validates the sheet format.
- **Portfolio report** (`Reports`). The model covers the filter predicate built from state, zone, debt age, period and manager, then the manager shown for each credit and the report's statistics, file name and result.
- **Listing pagination** (`Pagination`). This is the offset, the extra row that signals a next page, and the page count.
- **Reminder notices** (`Notions`). This covers the message template chosen from the days left until the due date, the parsing of the `specialDays` parameter, and the recipient list.
- **Upload client** (`ExcelService`). This is the web front end's file validation and the mapping of upload answers and failures to messages.

Shared modules:

- `Text` models the string functions the code relies on: `str.split`, `str.strip`, `int()` on text, ASCII lower-casing, `dict.get`, `str.replace`, `lastIndexOf` and `substring`.
- `Dates` models dates, their ISO 8601 text (the complete calendar-date extended format, section 5.2.1.1 of ISO 8601:2004) and Python's `date.toordinal`.
- `Wrappers` holds `Option` and `Result`.

Queries, sessions, HTTP calls and clocks are inputs of the model. Query results arrive as sequences of rows, and the current date or time is a parameter. An HTTP exchange is a datatype of the answers it can give. Loops that update state in the code are methods with loop invariants, proved against the functions that state their result. The credit loader (`CreditLoader.ExcelLoaderService`) and the payment ledger (`Payments.Ledger`) are classes whose fields their methods update. The reconciliation loader passes the database and its results along as values. Percentages and money are exact `real` numbers. Python's `round`, floor division, truncating `int()` and `timedelta.days` are written out explicitly.

## Model

| member | source | states |
|---|---|---|
| Dates.Iso | backend/stats2/app/controllers/analytics.py:92 | the `isoformat()` text of a date: ten characters, with hyphens at positions 4 and 7 |
| Dates.IsoOrder | backend/stats2/app/controllers/analytics.py:170-171 | comparing two ISO texts as strings gives the same answer as comparing the dates, and two texts are equal exactly when the dates are, so the string test on payment dates means "paid after the due date" |
| Dates.OrdinalOrder | backend/analytics/app/utils/ReportGeneratorService.py:150-153 | day numbers (`toordinal`) are ordered exactly as the dates and are equal exactly when the dates are, so date comparisons in the query can go through day numbers |
| Dates.MonthIndex | backend/stats2/app/controllers/analytics.py:266-267 | `MONTHS.index(name)`: when found, the index is below 12 and names that month; when not found, the name is not a month name |
| Dates.MonthIndexOfName | backend/stats2/app/controllers/analytics.py:14-27 | every month name is found at its own position, so the twelve names are distinct |
| Dates.MonthNameFromDate | backend/stats2/app/controllers/analytics.py:54-58 | a name exactly when there is a date, and it is the name of that date's month |
| Text.Split | backend/service_template/notions/main.py:66 | `str.split(c)`: at least one piece, and no piece contains the separator |
| Text.JoinSplit | backend/service_template/notions/main.py:66 | joining the pieces with the separator gives back the original text |
| Text.ParseIntText | backend/service_template/notions/main.py:76-80 | `int()` reads the decimal text of every integer, negative ones included, back as that integer |
| Text.ParseInt | backend/service_template/notions/main.py:76-77 | `int()` of stripped text succeeds exactly for an optional sign followed by ASCII digits with single underscores between digits; the value is the digits' number, negated after "-" |
| Text.StripCuts | backend/service_template/notions/main.py:69 | `strip()` returns a contiguous slice of the text; everything cut away is whitespace, and a non-empty result starts and ends with a non-space |
| Text.Lower | backend/service_template/notions/main.py:73 | `lower()` keeps the length and lower-cases each character on its own |
| Text.LookupCases | backend/credit_management/app/utils/ExcelLoaderService.py:79 | `dict.get(key, default)` gives the default when the key is absent and a value of the table when it is present |
| Text.ReplaceChar | backend/analytics/app/utils/ReportGeneratorService.py:68 | `replace(a, b)` keeps the length and changes exactly the occurrences of `a` |
| Text.LastIndexOf | frontend/src/services/excel-service.ts:222 | `lastIndexOf` gives -1 or an index holding the character, and the character does not occur after it |
| Text.SubstringFrom | frontend/src/services/excel-service.ts:222 | `substring(start)` is the suffix from `start`, clamped to the text's bounds |
| Text.PadOrder | backend/stats2/app/controllers/analytics.py:170-171 | zero-padded numbers of one width compare as strings exactly as they compare as numbers, and are equal exactly when the numbers are |
| MonthlyBuckets.ToItem | backend/stats2/app/controllers/analytics.py:88-96 | the item keeps the row's value and state; its due date is the ISO text of the date; it has a payment date exactly when the row has one, and then it is that date's ISO text |
| MonthlyBuckets.LateItemIsPaidLate | backend/stats2/app/controllers/analytics.py:170-171 | the string test `payment_date > due_date` on an item holds exactly when the row was paid after its due date |
| MonthlyBuckets.GroupByMonth | backend/stats2/app/controllers/analytics.py:75-97 | twelve buckets; bucket `m` holds, in row order, the items of the rows due in month `m + 1` |
| MonthlyBuckets.BucketSizesAddUp | backend/stats2/app/controllers/analytics.py:75-97 | undated rows are dropped and every dated row lands in exactly one bucket: the bucket sizes add up to the number of dated rows |
| MonthlyBuckets.BucketHoldsItsMonth | backend/stats2/app/controllers/analytics.py:54-58 | every item of bucket `m` has a ten-character due date whose month field reads `m + 1` |
| MonthlyBuckets.RowInItsBucket | backend/stats2/app/controllers/analytics.py:85-97 | the item of every dated row is in the bucket of its own month |
| MonthlyBuckets.WhereBucketIsSubBucket | backend/stats2/app/controllers/analytics.py:99-133 | for any filter (the overdue query), every month's filtered bucket is a sub-multiset of that month's full bucket, so the overdue count never exceeds the total |
| MonthlyBuckets.WhereMonotone | backend/stats2/app/controllers/analytics.py:99-107 | a filter implied by another gives, month by month, a bucket contained in the other's |
| MonthlyBuckets.DelinquencyPercent | backend/stats2/app/controllers/analytics.py:137-143 | 0 when either count is 0; otherwise the percentage times the total equals the overdue count times 100; between 0 and 100 when overdue does not exceed total |
| MonthlyBuckets.DelinquencyPercents | backend/stats2/app/controllers/analytics.py:137-143 | twelve percentages, each computed from that month's two bucket sizes |
| MonthlyBuckets.CompareWithPreviousMonth | backend/stats2/app/controllers/analytics.py:145-151 | the first comparison is 0 and each later one is the percentage minus the previous month's (a difference, not a ratio) |
| MonthlyBuckets.ComparisonsTelescope | backend/stats2/app/controllers/analytics.py:145-151 | the comparisons of the first `k` months add up to the change from January to month `k` |
| MonthlyBuckets.SumOfMonotone | backend/stats2/app/controllers/analytics.py:165-176 | when no item contributes more under `f` than under `g`, the total under `f` is at most the total under `g` |
| MonthlyBuckets.SumOfNonNegative | backend/stats2/app/controllers/analytics.py:165-176 | non-negative contributions give a non-negative total |
| MonthlyBuckets.BalancePerMonth | backend/stats2/app/controllers/analytics.py:178-179 | twelve balances, each the month's amount minus its debt |
| MonthlyBuckets.SumTwoPerMonth | backend/stats2/app/controllers/analytics.py:161-176 | the nested loops build two totals per month, each the sum of its contribution over that month's bucket |
| Analytics.InstallmentsByMonth | backend/stats2/app/controllers/analytics.py:61-187 | per month: the bucket; the total; the overdue count (rows paid late or in state "Vencida"), never above the total; the percentage, between 0 and 100; the comparison with the previous month (0 for January); debt and collected amount as sums of their contributions; and the balance, collected minus debt |
| Analytics.LateAndVencidaDebtCountsTwice | backend/stats2/app/controllers/analytics.py:165-176 | a row that was paid late and is in state "Vencida" adds its value to its month's debt twice |
| Analytics.OverdueRowCountedOnce | backend/stats2/app/controllers/analytics.py:99-132 | for any table, a month's overdue bucket holds exactly as many items as there are rows due in that month that are paid late or in state "Vencida" (a row meeting both conditions counts once) |
| Analytics.RecoveryPercent | backend/stats2/app/controllers/analytics.py:243-251 | 0 when recovered or debt is 0; otherwise the percentage times the debt equals recovered times 100; above 0 and at most 100 when 0 < recovered <= debt |
| Analytics.MoneyRecoveryByMonth | backend/stats2/app/controllers/analytics.py:190-257 | per month: recovered is the sum of the late-paid values, debt is the sum of late-paid plus "Vencida" values, and the percentage is computed from the two |
| Analytics.RecoveredWithinDebt | backend/stats2/app/controllers/analytics.py:229-251 | with non-negative values, 0 <= recovered <= debt; the percentage lies between 0 and 100 and is above 0 once anything was recovered |
| Analytics.RecoveredWithinDebtPerMonth | backend/stats2/app/controllers/analytics.py:229-251 | with non-negative installment values, every month recovers between 0 and its debt, and its percentage lies between 0 and 100 |
| Analytics.SelectedValues | backend/stats2/app/controllers/analytics.py:264-268 | defined exactly when every selected name is a month name (otherwise `MONTHS.index` raises); then one value per name, in selection order, each the recovered total of that month |
| Analytics.AverageOfSelected | backend/stats2/app/controllers/analytics.py:260-273 | fails exactly when a selected name is not a month; otherwise echoes the selection with its values, and an empty selection averages to 0 |
| Analytics.AverageTimesCount | backend/stats2/app/controllers/analytics.py:268-269 | for a non-empty selection the average times the number of months equals the sum of their values: it is the arithmetic mean |
| Analytics.AverageOfOneMonth | backend/stats2/app/controllers/analytics.py:264-269 | a selection of one month averages to that month's recovered total |
| Analytics.AverageRecoveryForSelectedMonths | backend/stats2/app/controllers/analytics.py:260-273 | the endpoint's answer is the average of the selection over the monthly recovered totals |
| MoraStats.InstallmentsByMonth | backend/stats2/app/api/routes/stats_by_month_mora.py:50-169 | the same report as the controller's, except that overdue means state "Vencida" only, collected sums "Pagada" values and debt sums "Vencida" values |
| MoraStats.OverdueWithinSecondVersion | backend/stats2/app/api/routes/stats_by_month_mora.py:79-87 | per month the state-only overdue bucket is contained in the controller's bucket (late payment or "Vencida"), so this version never counts more |
| MoraStats.DebtWithinSecondVersion | backend/stats2/app/api/routes/stats_by_month_mora.py:157-160 | with non-negative values, this version's monthly debt is at most the controller's |
| MoraStats.LatePagadaDisagrees | backend/stats2/app/api/routes/stats_by_month_mora.py:157-158 | a row paid late and in state "Pagada" is overdue only for the controller; it is collected here but is debt, not collected, there |
| MoneyRecovery.UnguardedRecoveryPercent | backend/stats2/app/api/routes/money_recovery.py:103-107 | the division fails exactly when recovered is nonzero and debt is zero; otherwise it equals the controller's guarded percentage |
| MoneyRecovery.UnguardedPercents | backend/stats2/app/api/routes/money_recovery.py:103-107 | fails exactly when some month recovered something with a debt of 0; otherwise twelve percentages, each equal to the second version's guarded percentage of that month |
| MoneyRecovery.RecoveryByMonth | backend/stats2/app/api/routes/money_recovery.py:31-110 | fails exactly when some month divides by zero; otherwise the recovered and debt totals equal the controller's, and each percentage is computed from them |
| MoneyRecovery.NoZeroDivisionWithNonNegativeValues | backend/stats2/app/api/routes/money_recovery.py:93-107 | with non-negative values the unguarded division never divides by zero |
| MoneyRecovery.NegativeValueDividesByZero | backend/stats2/app/api/routes/money_recovery.py:95-107 | two rows due on 2024-03-10, one of 5 paid late and a "Vencida" one of -5, give March a recovered total of 5 and a debt of 0, the month on which the route divides by zero |
| MoneyRecovery.TickedNames | backend/stats2/app/api/routes/money_recovery.py:131-134 | at most `n` names, each the name of a ticked month among the first `n`, in strictly increasing calendar order |
| MoneyRecovery.TickedNamesComplete | backend/stats2/app/api/routes/money_recovery.py:131-134 | a month's name is collected exactly when the month is among the first `n` and its box is ticked |
| MoneyRecovery.TickedNamesEmpty | backend/stats2/app/api/routes/money_recovery.py:131-137 | the collected list is empty exactly when no box is ticked |
| MoneyRecovery.SelectedMonths | backend/stats2/app/api/routes/money_recovery.py:131-134 | the loop over the twelve flags collects the ticked months' names in calendar order (as `TickedNames` over all twelve) |
| MoneyRecovery.AverageRecoveryOfSelection | backend/stats2/app/api/routes/money_recovery.py:126-146 | with no box ticked: the "no month selected" message, an empty selection and average 0; otherwise it fails exactly when the recovery computation divides by zero, and else returns the ticked months with their values and their mean, as the controller computes them |
| AnalyticsContacts.ManagerPresence | backend/stats2/app/controllers/analytics.py:295-309 | a manager appears in the rows exactly when it has a first contact, a first name and a positive contact count; a manager that does not appear has no clients |
| AnalyticsContacts.ClientPresence | backend/stats2/app/controllers/analytics.py:305-309 | a client of a manager appears exactly when it has a first row and a last-written name |
| AnalyticsContacts.AppendRowManager | backend/stats2/app/controllers/analytics.py:295-309 | one more row adds one contact to its own manager only, adds its client to that manager's client set, keeps the first name already recorded, and fixes the first contact index of a new manager |
| AnalyticsContacts.AppendRowClient | backend/stats2/app/controllers/analytics.py:305-309 | one more row makes its name the client's name (the dictionary keeps the last name written) and leaves an earlier first row in place |
| AnalyticsContacts.FindManager | backend/stats2/app/controllers/analytics.py:299 | the `m_id not in by_manager` test: an index holding the manager, or the fact that no entry holds it |
| AnalyticsContacts.FindClient | backend/stats2/app/controllers/analytics.py:305-309 | an index holding the client, or the fact that no entry holds it |
| AnalyticsContacts.ClientsStep | backend/stats2/app/controllers/analytics.py:305-309 | adding a row's client keeps the client dictionary in agreement with the rows: clients known, all covered, in first-contact order, no more than the contacts |
| AnalyticsContacts.GroupStep | backend/stats2/app/controllers/analytics.py:295-309 | one loop iteration keeps the dictionary in agreement with the rows |
| AnalyticsContacts.CountContact | backend/stats2/app/controllers/analytics.py:296-309 | the loop body performs exactly one grouping step |
| AnalyticsContacts.GroupByManager | backend/stats2/app/controllers/analytics.py:295-309 | the grouped dictionary: one entry per manager that appears, in order of first contact, each with its contact count, first name and clients (each client once, with its last name), and the counts add up to the rows |
| AnalyticsContacts.ItemsOf | backend/stats2/app/controllers/analytics.py:311-322 | one item per dictionary entry, in order, with the number of unique clients |
| AnalyticsContacts.InsertByContactsSorted | backend/stats2/app/controllers/analytics.py:325 | inserting into a list sorted by contacts keeps it sorted and adds exactly that item |
| AnalyticsContacts.InsertByContactsPermutes | backend/stats2/app/controllers/analytics.py:325 | insertion keeps the multiset of items |
| AnalyticsContacts.InsertByContactsCounts | backend/stats2/app/controllers/analytics.py:325 | insertion keeps the relative order of items with equal counts |
| AnalyticsContacts.StableSortByContacts | backend/stats2/app/controllers/analytics.py:325 | sorted by contacts, descending; a permutation of the input; items with equal counts keep their order (`sort` is stable); the total of contacts is unchanged |
| AnalyticsContacts.SummariesMatch | backend/stats2/app/controllers/analytics.py:311-322 | every item agrees with the rows; items are in first-contact order; every manager in the rows has an item; the listed contacts add up to the number of rows |
| AnalyticsContacts.SortKeepsMembers | backend/stats2/app/controllers/analytics.py:325 | sorting keeps every item's agreement with the rows and keeps every manager listed |
| AnalyticsContacts.SortKeepsTies | backend/stats2/app/controllers/analytics.py:325 | after sorting, managers with equal counts stay in first-contact order, and no manager is listed twice |
| AnalyticsContacts.ContactsByManager | backend/stats2/app/controllers/analytics.py:277-326 | `count` is the number of items; every item agrees with the rows; every manager appears; the list is sorted by contacts with ties in first-contact order; no manager appears twice; the contacts add up to the rows |
| OverdueStats.IsoOf | backend/stats/app/api/routes.py:127-151 | an ISO text exactly when there is a date, and it is that date's text |
| OverdueStats.ToOverdueItems | backend/stats/app/api/routes.py:127-151 | one item per row, in order, and every item's due text can be parsed back to its month |
| OverdueStats.MonthOfIso | backend/stats/app/api/routes.py:167-194 | parsing the month field of an ISO due date gives back the date's month |
| OverdueStats.TotalsAreBuckets | backend/stats/app/api/routes.py:152-201 | each month's total value and count are the sum and the size of that month's bucket |
| OverdueStats.RebuildTotals | backend/stats/app/api/routes.py:152-201 | the loop fails exactly when some due text has no readable month, and otherwise yields the monthly totals |
| OverdueStats.OverdueTotalsAsWritten | backend/stats/app/api/routes.py:113-201 | as written, the table exists only once a "Vencida" row is read: an error exactly when there is none, and otherwise the monthly totals of the "Vencida" rows |
| OverdueStats.OverdueTotals | backend/stats/app/api/routes.py:152-201 | corrected: twelve totals, each the sum and count of that month's "Vencida" rows (all zeros when there are none) |
| OverdueStats.RoundHalfEven | backend/stats/app/api/routes.py:225 | Python's `round`: within one half of the value, and an exact half goes to the even integer |
| OverdueStats.PercentText | backend/stats/app/api/routes.py:225 | the text ends in `%` |
| OverdueStats.PercentTextReadsBack | backend/stats/app/api/routes.py:225 | without the `%`, the text reads back as the integer |
| OverdueStats.MomPercent | backend/stats/app/api/routes.py:218-228 | 0 when there is no previous count or it is 0; otherwise the rounded percentage change from the previous count |
| OverdueStats.MomPercentLandmarks | backend/stats/app/api/routes.py:224-225 | doubling gives 100, standing still gives 0, and dropping to nothing gives -100 |
| OverdueStats.RoundWhole | backend/stats/app/api/routes.py:225 | rounding keeps integers |
| OverdueStats.MonthOverMonth | backend/stats/app/api/routes.py:203-228 | twelve months with their totals; January's change is "0%" and every later month's is the change from the month before |
| OverdueStats.Direction | backend/stats/app/api/routes.py:242-245 | "aumentó" exactly when the count grew, "disminuyó" exactly when it fell, "igual" exactly when it stayed the same |
| OverdueStats.DeltaPercent | backend/stats/app/api/routes.py:246-250 | the "cannot compare" text exactly when the reference count is 0; otherwise the rounded percentage change |
| OverdueStats.CompareMonths | backend/stats/app/api/routes.py:230-259 | both names are months; it reports both names and their counts, the absolute difference, the direction and the percentage change |
| OverdueStats.CompareWithItself | backend/stats/app/api/routes.py:230-259 | a month compared with itself differs by 0, with direction "igual" |
| OverdueStats.OverdueInstallments | backend/stats/app/api/routes.py:103-261 | the endpoint, corrected as in the findings below: per month, the count and total of "Vencida" rows, the month-over-month text, and the comparison of the two months asked for |
| Payments.TruncDecBounds | backend/payments/app/controllers/payment.py:225 | `int()` of a decimal truncates toward zero: for a non-negative value it is the largest integer not above it, for a negative value the smallest integer not below it |
| Payments.DecTextReadsBack | backend/payments/app/controllers/payment.py:146-147 | `str()` of a decimal reads back as the same value |
| Payments.PendingPositions | backend/payments/app/controllers/payment.py:204-209 | the positions of exactly the installments of the credit in state "Pendiente" or "Vencida", in increasing order; empty exactly when there are none |
| Payments.SettlementFacts | backend/payments/app/controllers/payment.py:181-266 | with nothing pending, nothing changes; otherwise exactly the pending installments become "Pagada" with today's payment date, one reconciliation per pending installment is appended, and only the paid credit can change state, becoming "Pagado" exactly when all its installments are paid |
| Payments.ReceiptsPayPending | backend/payments/app/controllers/payment.py:219-236 | one reconciliation per pending installment, in order, on the automatic channel with the payment reference, today's date and the truncated installment value |
| Payments.PromiseKeepsCreditOpen | backend/payments/app/controllers/payment.py:239-247 | an installment of the credit in "Promesa de pago" is never paid here, so no credit changes its "Pagado" status |
| Payments.AutoProcessIdempotent | backend/payments/app/controllers/payment.py:181-266 | processing twice gives the same state as processing once |
| Payments.GatewayPayload | backend/payments/app/controllers/payment.py:128-179 | one gateway installment per installment, keeping ids, state and number, with value texts that read back as the values and dates in ISO text; missing totals become 0 |
| Payments.ConvertToGatewayFormat | backend/payments/app/controllers/payment.py:128-179 | the loop builds exactly the payload |
| Payments.RaisedByReply | backend/payments/app/controllers/payment.py:93-108 | no error exactly when the gateway answered 200 with success; a status other than 200 raises that status with the body as detail |
| Payments.CaughtAsWritten | backend/payments/app/controllers/payment.py:87-126 | as written: a connection failure becomes 503, but every error raised about a reply becomes 500, because `except Exception` also catches the raised HTTP error |
| Payments.GatewayStatusLost | backend/payments/app/controllers/payment.py:93-126 | a 402 reply yields 500 as written but 402 once corrected |
| Payments.Caught | backend/payments/app/controllers/payment.py:87-126 | corrected: 503 for a connection failure, the gateway's own status for a non-200 reply, 400 for a 200 reply without success, and no error exactly when the reply is 200 with success |
| Payments.FirstKept | backend/payments/app/controllers/payment.py:61-71 | the first credit the filter keeps, or the end of the list |
| Payments.KeepCredits | backend/payments/app/controllers/payment.py:61-71 | the filtered list is empty exactly when no credit is kept, and otherwise starts with the first kept credit |
| Payments.SelectCredit | backend/payments/app/controllers/payment.py:61-81 | succeeds exactly when some credit is kept, and then returns the first kept one (the credit asked for, when an id is given); otherwise a 404 with one message for a missing id and another for no credits at all |
| Payments.Decide | backend/payments/app/controllers/payment.py:28-126 | corrected as in the findings below: a 404 when the credit details fail; settlement exactly when the details arrive, a credit is selected and the gateway answers 200 with success; the settled credit is the selected one; a failed selection is refused with its 404, a gateway error with the error `Caught` gives it; a settlement's response is the reply's data, or a 500 when it does not fit the schema |
| Payments.CloseStep | backend/payments/app/controllers/payment.py:239-256 | with something pending, processing is settling every pending installment, closing the credit when all are paid, and appending the receipts |
| Payments.PayOpen | backend/payments/app/controllers/payment.py:219-236 | the loop over the pending positions pays exactly the pending installments and writes their receipts |
| Payments.Ledger.AutoProcessPendingInstallments | backend/payments/app/controllers/payment.py:181-266 | the ledger's new state is the processed state of the old one |
| Payments.Ledger.PayOpenInstallments | backend/payments/app/controllers/payment.py:219-236 | installments settled, receipts appended, credits unchanged |
| Payments.Ledger.InitializePayment | backend/payments/app/controllers/payment.py:28-126 | corrected as `Decide` is: a refusal returns its error and leaves the ledger alone; a settlement returns the response and processes the selected credit's pending installments |
| CreditLoader.NormalizeIdempotent | backend/credit_management/app/utils/ExcelLoaderService.py:65-79 | a normalised value is the default or a value of the table, and normalising again changes nothing |
| CreditLoader.ClientStatusCanonical | backend/credit_management/app/utils/ExcelLoaderService.py:65-70 | every stored client status maps to itself |
| CreditLoader.ManagerZoneCanonical | backend/credit_management/app/utils/ExcelLoaderService.py:100-108 | every stored zone maps to itself |
| CreditLoader.CreditStateCanonical | backend/credit_management/app/utils/ExcelLoaderService.py:129-134 | every stored credit state maps to itself |
| CreditLoader.InstallmentStateCanonical | backend/credit_management/app/utils/ExcelLoaderService.py:170-175 | every stored installment state maps to itself |
| CreditLoader.ContactMethodCanonical | backend/credit_management/app/utils/ExcelLoaderService.py:213-218 | every stored contact method maps to itself |
| CreditLoader.ContactResultCanonical | backend/credit_management/app/utils/ExcelLoaderService.py:219-225 | every stored contact result maps to itself |
| CreditLoader.AlertTypeCanonical | backend/credit_management/app/utils/ExcelLoaderService.py:262-266 | every stored alert type maps to itself |
| CreditLoader.ChannelCanonical | backend/credit_management/app/utils/ExcelLoaderService.py:311-316 | every stored channel maps to itself |
| CreditLoader.OverdueStatusRepaired | backend/credit_management/app/utils/ExcelLoaderService.py:65-70 | "En mora" is stored as "En Mora" |
| CreditLoader.UrbanZoneRepaired | backend/credit_management/app/utils/ExcelLoaderService.py:100-108 | "Urbana" is stored as "Urbano" |
| CreditLoader.UnknownStatusActive | backend/credit_management/app/utils/ExcelLoaderService.py:65-79 | an unknown status such as "Mora" falls back to "Activo" |
| CreditLoader.ManualFlagIgnoresCase | backend/credit_management/app/utils/ExcelLoaderService.py:273 | the manual-alert flag does not depend on letter case |
| CreditLoader.AlertClient | backend/credit_management/app/utils/ExcelLoaderService.py:277-286 | a given client cell must be a loaded client and maps to its new id; without a cell, the first client loaded is used |
| CreditLoader.DecisionFits | backend/credit_management/app/utils/ExcelLoaderService.py:58-334 | each sheet's row decision creates a record of that sheet's kind |
| CreditLoader.ApplyAccounting | backend/credit_management/app/utils/ExcelLoaderService.py:58-334 | one row either adds one to its sheet's count or appends one error, never both; other sheets' counts stay as they were |
| CreditLoader.FoldAccounting | backend/credit_management/app/utils/ExcelLoaderService.py:58-334 | after a sheet, its count plus its errors grew by exactly its number of rows, and no other sheet's numbers moved |
| CreditLoader.LoadAccounting | backend/credit_management/app/utils/ExcelLoaderService.py:26-56 | after the first `n` sheets, each of them has count plus errors equal to its rows, and the later sheets have none |
| CreditLoader.CreditNeedsClient | backend/credit_management/app/utils/ExcelLoaderService.py:136-138 | a credit whose client was not loaded is an error that leaves the mappings and session alone |
| CreditLoader.CountedRowsAreLinked | backend/credit_management/app/utils/ExcelLoaderService.py:136-270 | a credit, installment, portfolio or alert row is loaded only when the records it refers to were loaded |
| CreditLoader.UnkeyedClientStays | backend/credit_management/app/utils/ExcelLoaderService.py:72-91 | a client without a usable id is still stored, is not mapped, and records an error |
| CreditLoader.FoldKeepsOtherMappings | backend/credit_management/app/utils/ExcelLoaderService.py:58-204 | a sheet changes only its own id mapping |
| CreditLoader.MappingsSettled | backend/credit_management/app/utils/ExcelLoaderService.py:41-47 | once a sheet's stage is done, its id mapping no longer changes |
| CreditLoader.ApplyIntegrity | backend/credit_management/app/utils/ExcelLoaderService.py:58-334 | one row keeps the integrity of the session: mappings resolve to stored records and stored records point at stored records |
| CreditLoader.DecisionSound | backend/credit_management/app/utils/ExcelLoaderService.py:58-334 | every row decision only refers to records already stored |
| CreditLoader.FoldIntegrity | backend/credit_management/app/utils/ExcelLoaderService.py:58-334 | a whole sheet keeps the integrity |
| CreditLoader.LoadIntegrity | backend/credit_management/app/utils/ExcelLoaderService.py:26-56 | every stage of the load keeps the integrity |
| CreditLoader.ExcelLoaderService.Fail | backend/credit_management/app/utils/ExcelLoaderService.py:88-91 | the state after one failed row |
| CreditLoader.ExcelLoaderService.ProcessClientRow | backend/credit_management/app/utils/ExcelLoaderService.py:58-91 | the client row's decision applied to the state |
| CreditLoader.ExcelLoaderService.ProcessManagerRow | backend/credit_management/app/utils/ExcelLoaderService.py:93-120 | the manager row's decision applied to the state |
| CreditLoader.ExcelLoaderService.ProcessCreditRow | backend/credit_management/app/utils/ExcelLoaderService.py:122-161 | the credit row's decision applied to the state |
| CreditLoader.ExcelLoaderService.ProcessInstallmentRow | backend/credit_management/app/utils/ExcelLoaderService.py:163-204 | the installment row's decision applied to the state |
| CreditLoader.ExcelLoaderService.ProcessPortfolioRow | backend/credit_management/app/utils/ExcelLoaderService.py:206-253 | the portfolio row's decision applied to the state |
| CreditLoader.ExcelLoaderService.ProcessAlertRow | backend/credit_management/app/utils/ExcelLoaderService.py:255-302 | the alert row's decision applied to the state |
| CreditLoader.ExcelLoaderService.ProcessTransactionRow | backend/credit_management/app/utils/ExcelLoaderService.py:304-334 | the reconciliation row's decision applied to the state |
| CreditLoader.ExcelLoaderService.ProcessRow | backend/credit_management/app/utils/ExcelLoaderService.py:41-47 | the step for the row's sheet |
| CreditLoader.ExcelLoaderService.ProcessSheet | backend/credit_management/app/utils/ExcelLoaderService.py:41-47 | all the sheet's rows folded into the state |
| CreditLoader.ExcelLoaderService.LoadExcelToDatabase | backend/credit_management/app/utils/ExcelLoaderService.py:26-56 | an unreadable workbook returns its error and changes nothing; otherwise all seven stages run and the results are returned |
| ReconciliationLoader.Missing | backend/analytics/app/utils/ExcelLoaderService.py:65-74 | the missing columns are exactly the required ones absent from the header |
| ReconciliationLoader.FindCreditCases | backend/analytics/app/utils/ExcelLoaderService.py:102-116 | no match exactly when no credit has the reference; a unique match holds the reference and no other credit does; "several" means two credits share it |
| ReconciliationLoader.ChannelIsNamed | backend/analytics/app/utils/ExcelLoaderService.py:132-139 | the stored channel is always one of the four names |
| ReconciliationLoader.LowerCaseChannels | backend/analytics/app/utils/ExcelLoaderService.py:25-34 | lower-case and capitalised channel names map to the same channel |
| ReconciliationLoader.Assess | backend/analytics/app/utils/ExcelLoaderService.py:80-166 | a row judged loadable points at an existing credit |
| ReconciliationLoader.StepAccounting | backend/analytics/app/utils/ExcelLoaderService.py:80-174 | one row adds one to loaded plus skipped; the row counter moves only for loaded rows and failures; reconciliations and ids grow with the loaded count |
| ReconciliationLoader.SkipAccounting | backend/analytics/app/utils/ExcelLoaderService.py:83-139 | a skipped row adds one to the skipped count and changes nothing else |
| ReconciliationLoader.StepLoads | backend/analytics/app/utils/ExcelLoaderService.py:146-166 | a loadable row appends its reconciliation, cancels its credit and adds a warning for each non-positive amount or unknown channel; any other row appends nothing |
| ReconciliationLoader.StepSettles | backend/analytics/app/utils/ExcelLoaderService.py:158-166 | only credits named in the updated list are cancelled, and the others are unchanged |
| ReconciliationLoader.StepLabels | backend/analytics/app/utils/ExcelLoaderService.py:80-174 | every note carries a row label between the start and the current counter |
| ReconciliationLoader.RunAccounting | backend/analytics/app/utils/ExcelLoaderService.py:80-174 | the step accounting, summed over a whole sheet |
| ReconciliationLoader.RunSettles | backend/analytics/app/utils/ExcelLoaderService.py:80-174 | settlement holds over a whole sheet |
| ReconciliationLoader.RunLabels | backend/analytics/app/utils/ExcelLoaderService.py:80-174 | labels stay within the range over a whole sheet |
| ReconciliationLoader.MissingColumnStopsLoad | backend/analytics/app/utils/ExcelLoaderService.py:65-74 | a missing required column stops the load with one error naming it, and nothing is stored |
| ReconciliationLoader.LoadReport | backend/analytics/app/utils/ExcelLoaderService.py:36-192 | loaded plus skipped is the row count; one reconciliation and one id per loaded row; only updated credits are cancelled; every note is labelled in the range |
| ReconciliationLoader.IncompleteRowsShareLabel | backend/analytics/app/utils/ExcelLoaderService.py:83-88 | skipped rows do not advance the counter, so two incomplete rows are both reported at row 2 |
| ReconciliationLoader.ProcessRow | backend/analytics/app/utils/ExcelLoaderService.py:80-174 | the loop body performs one step |
| ReconciliationLoader.LoadReconciliationsFromExcel | backend/analytics/app/utils/ExcelLoaderService.py:36-192 | corrected as in the findings below: an unreadable file returns its own read error and stores nothing; otherwise the result of loading the sheet |
| ReconciliationLoader.RaisedByHandler | backend/analytics/app/utils/ExcelLoaderService.py:187-192 | the handler re-raises the caught error once `results` is assigned, and raises `UnboundLocalError` before that |
| ReconciliationLoader.ReadErrorLostAsWritten | backend/analytics/app/utils/ExcelLoaderService.py:187-192 | as written, two different read errors reach the caller as the same message, and at least one of them is not its own read error |
| ReconciliationLoader.LoadReconciliationsFromExcelAsWritten | backend/analytics/app/utils/ExcelLoaderService.py:49-192 | as written: an unreadable file yields the `UnboundLocalError` message instead of its read error, and stores nothing; a readable one loads as corrected |
| ReconciliationLoader.DuplicatedCountsRepeats | backend/analytics/app/utils/ExcelLoaderService.py:233-238 | the duplicate count plus the number of distinct references is the number of rows |
| ReconciliationLoader.DuplicatedIffRepeat | backend/analytics/app/utils/ExcelLoaderService.py:233-238 | the duplicate count is positive exactly when two entries are equal |
| ReconciliationLoader.DuplicatedRows | backend/analytics/app/utils/ExcelLoaderService.py:233-238 | the count is positive exactly when two rows share a reference |
| ReconciliationLoader.Header | backend/analytics/app/utils/ExcelLoaderService.py:215-218 | a loader's column is among the sheet's columns exactly when its header is one of the sheet's headers |
| ReconciliationLoader.ValidateExcelFormat | backend/analytics/app/utils/ExcelLoaderService.py:194-247 | an unreadable file gives one error; otherwise the row count, every column header of the sheet in order (unknown ones included), errors for missing columns and an empty sheet, valid exactly when there are no errors, and a duplicates warning exactly when the reference column has a repeat |
| Reports.Conditions | backend/analytics/app/utils/ReportGeneratorService.py:130-167 | fails exactly when a debt-age filter goes before year 1; otherwise a record meets all the conditions exactly when it is selected by the state, zone, debt-age, period and manager filters; no filters give no conditions |
| Reports.FilterPart | backend/analytics/app/utils/ReportGeneratorService.py:133-147 | the filter conditions, failing exactly when a debt age overflows the calendar |
| Reports.FilterConditionsSelect | backend/analytics/app/utils/ReportGeneratorService.py:133-147 | the filter conditions hold exactly when the state and zone match where given and the debt age is within the bounds given |
| Reports.PeriodConditionsSelect | backend/analytics/app/utils/ReportGeneratorService.py:150-153 | disbursed on or after the start and on or before the end, where given |
| Reports.ManagerConditionSelect | backend/analytics/app/utils/ReportGeneratorService.py:156-164 | with a nonzero manager id, the credit must be assigned to that manager |
| Reports.ConditionsSelect | backend/analytics/app/utils/ReportGeneratorService.py:130-167 | all conditions together select exactly the selected records |
| Reports.Filter | backend/analytics/app/utils/ReportGeneratorService.py:166-171 | the filtered rows are the rows that satisfy the predicate |
| Reports.FilterSame | backend/analytics/app/utils/ReportGeneratorService.py:166-171 | predicates that agree on the rows filter alike |
| Reports.FirstManagerIsFirst | backend/analytics/app/utils/ReportGeneratorService.py:174-192 | the manager shown is that of the first assignment of the credit, and there is none exactly when the credit has no assignment |
| Reports.CreditManagers | backend/analytics/app/utils/ReportGeneratorService.py:174-192 | the map holds exactly the selected credits with an assignment, each with its first manager |
| Reports.ClientsAtMostCredits | backend/analytics/app/utils/ReportGeneratorService.py:218-225 | there are no more distinct clients than credits, and at least one when there is a credit |
| Reports.TotalAmountAppend | backend/analytics/app/utils/ReportGeneratorService.py:194-216 | the total amount is additive over concatenation |
| Reports.Aggregate | backend/analytics/app/utils/ReportGeneratorService.py:194-225 | one row per record, in order, and the statistics: distinct clients, credits and the total amount (a missing amount counts 0) |
| Reports.CollectData | backend/analytics/app/utils/ReportGeneratorService.py:102-225 | fails exactly when a debt-age filter overflows; otherwise the statistics of the selected records and one row per selected record, in order, whose fields are the record's (id, payment reference, client name and document, amount, date, state, zone) and whose manager is the shown one |
| Reports.Stamp | backend/analytics/app/utils/ReportGeneratorService.py:67 | fifteen characters: eight digits, an underscore, six digits |
| Reports.FileName | backend/analytics/app/utils/ReportGeneratorService.py:67-68 | the name with spaces replaced by underscores, an underscore, the stamp and ".pdf" |
| Reports.FileNameKeepsName | backend/analytics/app/utils/ReportGeneratorService.py:68 | a character of the file name is an underscore exactly when the name had a space or an underscore there; other characters are kept |
| Reports.GenerateReport | backend/analytics/app/utils/ReportGeneratorService.py:39-100 | corrected as in the findings below, the reference shown as its text: fails with the date error when a debt-age filter overflows; otherwise fails with the formatting error exactly when one of the first 100 selected records has no amount; otherwise it fails with the PDF's error or completes with the path, the size and the statistics of the selected records |
| Reports.GenerateReportAsWritten | backend/analytics/app/utils/ReportGeneratorService.py:39-100 | as written: fails with the date error when a debt-age filter overflows; otherwise any selected record makes the table's first row raise `TypeError` on slicing the integer reference; with none selected, the PDF's error or completion with zero totals |
| Reports.CreditCells | backend/analytics/app/utils/ReportGeneratorService.py:366-376 | one table row: fails on an integer reference and, after a text one, on a missing amount; otherwise seven cells, the reference cut to 15 characters, the name to 20, the manager to 15, and the amount and date formatted |
| Reports.CreditTable | backend/analytics/app/utils/ReportGeneratorService.py:347-377 | the header row and one row per one of the first 100 credits, each that credit's cells; fails exactly when some listed credit's row fails, with the error of the first such row |
| Reports.Shown | backend/analytics/app/utils/ReportGeneratorService.py:365 | `[:100]`: the first 100 credits, or all of them when there are fewer |
| Reports.Slice | backend/analytics/app/utils/ReportGeneratorService.py:369 | slicing fails exactly on an integer, with `TypeError`'s message; a text is cut to its first k characters |
| Reports.AmountCell | backend/analytics/app/utils/ReportGeneratorService.py:372 | fails exactly for a missing amount; otherwise a dollar sign and the grouped amount |
| Reports.AmountCellReadsBack | backend/analytics/app/utils/ReportGeneratorService.py:372 | the amount cell without its dollar sign and commas is read back by `int()` as the amount, negative amounts included |
| Reports.DateCell | backend/analytics/app/utils/ReportGeneratorService.py:373 | `strftime("%d/%m/%Y")`: ten characters with slashes at positions 2 and 5 |
| Reports.DateCellReadsBack | backend/analytics/app/utils/ReportGeneratorService.py:373 | the day, month and year fields of the date cell read back as the date's day, month and year |
| Reports.ReferenceCellCases | backend/analytics/app/utils/ReportGeneratorService.py:369 | the integer reference as written makes every row fail; its text as intended gives a row exactly when the amount is present |
| Text.Take | backend/analytics/app/utils/ReportGeneratorService.py:369-375 | `s[:k]`: the first k characters, or all of a shorter text |
| Text.Grouped | backend/analytics/app/utils/ReportGeneratorService.py:372 | the `,` format of a natural number: digits and commas, beginning and ending with a digit |
| Text.GroupedReadsBack | backend/analytics/app/utils/ReportGeneratorService.py:372 | the grouped text's digits are the number's decimal digits |
| Text.GroupedCommaSpacing | backend/analytics/app/utils/ReportGeneratorService.py:372 | every comma of the grouped text is followed by exactly three digits and then the end or another comma |
| Text.GroupedParses | backend/analytics/app/utils/ReportGeneratorService.py:372 | with its commas dropped, the grouped text is read back by `int()` as the number |
| Text.PadParses | backend/analytics/app/utils/ReportGeneratorService.py:373 | a number padded with zeros to a width it fits is read back by `int()` as the number |
| Pagination.FloorDiv | backend/credit_management/app/repository/portfolio.py:63-67 | Python's `//`: the quotient rounded toward minus infinity, for either sign of the divisor |
| Pagination.Window | backend/credit_management/app/repository/portfolio.py:47-49 | defined exactly when offset and limit are non-negative; then at most `limit` rows, consecutive from the offset, and fewer only at the end of the table |
| Pagination.DropLast | backend/credit_management/app/repository/portfolio.py:53-55 | `items[:-1]`: everything but the last element |
| Pagination.PageCount | backend/credit_management/app/repository/portfolio.py:63-67 | fails exactly when there are rows and the page size is 0; 0 pages for no rows; otherwise the smallest number of pages that holds all rows |
| Pagination.Paginate | backend/credit_management/app/repository/portfolio.py:47-78 | the next-page flag is set exactly when the extra row came back, and the page drops it; the counts are filled in only when asked for |
| Pagination.GetMultiPaginated | backend/credit_management/app/repository/portfolio.py:44-78 | fails exactly when the offset or the limit is negative, or when counting with rows and a page size of 0 |
| Pagination.PageContents | backend/credit_management/app/repository/portfolio.py:34-78 | for positive page and size: the page holds the rows from its offset, at most a page of them, and announces a next page exactly when rows remain |
| Pagination.NextPageContinues | backend/credit_management/app/repository/portfolio.py:34-78 | page `k + 1` begins where page `k` ends, and after a page with no next page there is nothing |
| Notions.PickTemplate | backend/service_template/notions/main.py:25-36 | the overdue template exactly when the days are at most 15, the default template otherwise |
| Notions.TokenDay | backend/service_template/notions/main.py:68-80 | a blank token adds nothing; "neg" in any case adds the marker; any other token adds its number when `int()` reads it, and nothing otherwise |
| Notions.AllowedOfMembers | backend/service_template/notions/main.py:65-80 | an element is allowed exactly when some token adds it |
| Notions.AllowedDays | backend/service_template/notions/main.py:65-80 | the loop builds exactly the set the tokens determine |
| Notions.NegInAnyCase | backend/service_template/notions/main.py:73-74 | a token reading "neg" in any case adds the marker |
| Notions.NumberToken | backend/service_template/notions/main.py:76-80 | the text of a natural number adds that number |
| Notions.DaysUntil | backend/service_template/notions/main.py:20-22 | the whole days from now until the due date's midnight, rounded down |
| Notions.DueSoonIsOverdueTemplate | backend/service_template/notions/main.py:82-93 | a client due within fifteen days gets the overdue template |
| Notions.PastDueIsOverdueTemplate | backend/service_template/notions/main.py:82-93 | a client due today or earlier gets the overdue template |
| Notions.DueLaterIsDefaultTemplate | backend/service_template/notions/main.py:82-93 | a client due more than sixteen days ahead gets the default template |
| Notions.Recipients | backend/service_template/notions/main.py:82-93 | one recipient per client, in order, with the ISO due date and the template its days choose |
| Notions.NotionsToday | backend/service_template/notions/main.py:58-144 | the phone and language from the environment or their defaults, and exactly one recipient per hard-coded client, whatever the query parameters say |
| ExcelService.FileExtension | frontend/src/services/excel-service.ts:219-222 | with a dot, the lower-cased suffix from the last dot; without a dot, the whole lower-cased name |
| ExcelService.ValidateFile | frontend/src/services/excel-service.ts:212-245 | valid exactly when the type is accepted and the size is within the limit; a type error first, then a size error |
| ExcelService.UpperCaseExtension | frontend/src/services/excel-service.ts:219-222 | ".XLSX" is accepted as ".xlsx" |
| ExcelService.NoDotNoExtension | frontend/src/services/excel-service.ts:214-222 | a name without a dot passes only on its MIME type |
| ExcelService.SizeLimitInclusive | frontend/src/services/excel-service.ts:236-242 | a file of exactly the limit is accepted and one byte more is rejected |
| ExcelService.ErrorMessage | frontend/src/services/excel-service.ts:63-85 | a text detail is the message itself; with no detail, "Error status: statusText" |
| ExcelService.StatusReadsBack | frontend/src/services/excel-service.ts:63-85 | the status can be read back from the fallback message |
| ExcelService.ItemsReadBack | frontend/src/services/excel-service.ts:63-85 | the items can be read back from the joined message by splitting at commas |
| ExcelService.StatusOutcome | frontend/src/services/excel-service.ts:87-124 | rejected exactly when the status is "failed", with the server's message when there is one; otherwise the data, filled with a default message for "processing" and "completed" |
| ExcelService.CaughtMessage | frontend/src/services/excel-service.ts:125-149 | a thrown non-error gives the unknown-error text; a `TypeError` about "fetch" gives the no-server text |
| ExcelService.ConnectionMessageUnreachable | frontend/src/services/excel-service.ts:125-149 | the connection-error text is returned only when the thrown error carried that very text |
| ExcelService.UploadExcel | frontend/src/services/excel-service.ts:11-150 | an invalid file is rejected before anything is sent; uploaded exactly when the file is valid and the server answered OK with a status other than "failed"; a thrown fetch goes through the catch; a non-OK answer gives the error message; an OK answer goes by its body's status (a "failed" one rejected with the server's message or the default) and a body that cannot be parsed goes through the catch |

## Left out

- Database access: queries, sessions, `flush`, `commit` and `rollback` are not modelled. Query results arrive as sequences of rows, and stored records are sequences that the model extends.
- Logging, `print` and the log messages are not modelled, because they change no result.
- The PDF layout of the report (backend/analytics/app/utils/ReportGeneratorService.py:227-411) is a drawing library's work. Only the credits table's cells are modelled (see Reports.GenerateReport); the drawing's outcome, a file size or an error, is a parameter.
- Percentages are exact reals rather than binary floating point, because floating-point error is outside the model. `round` itself is modelled (OverdueStats.RoundHalfEven), but a float that lies next to a half in binary, and the printed form of a float percentage (`f"{...}"` at backend/stats2/app/controllers/analytics.py:143), are not.
- MonthlyBuckets.Summaries: the `datos` sentence built from each month's counts, percentage and comparison (backend/stats2/app/controllers/analytics.py:153-159, and the twelve sentences at backend/stats2/app/api/routes/stats_by_month_mora.py:136-147) is not modelled; only its parts are.
- Dates.CalDate: years run from 1000 to 9999, so that a date's ISO text has four year digits. Python dates from year 1 to 999 are outside the model.
- Text.IsSpace: only the white-space characters among the first 256 code points are modelled. `str.strip` also removes U+1680, U+2000 to U+200A, U+2028, U+2029, U+205F and U+3000, which `Text.Strip` keeps.
- CreditLoader.RowError: a row's error is its sheet and a `Reason`, not the message text the loader writes (for example backend/credit_management/app/utils/ExcelLoaderService.py:88-91).
- Reports.GenerateReport: the PDF outcome `pdf` stands only for `doc.build` and the file size (backend/analytics/app/utils/ReportGeneratorService.py:85-90); the credits table (backend/analytics/app/utils/ReportGeneratorService.py:347-377) is modelled, including the `TypeError` of `credit["payment_reference"][:15]` at :369 and of `f"${amount:,}"` at :372. The other tables and paragraphs of the layout are not.
- Reports.CreditCells: the client name, document, state and manager name arrive as text and the date as a date. A missing one, which would raise on slicing or on `strftime`, is outside the model.
- Text.ParseInt: only ASCII digits are digits. Python's `int()` also accepts the other Unicode decimal digits (for example Arabic-Indic ones), and the model rejects those.
- Analytics.AverageOfSelected: the error is a reason naming the failure (a month name not in `MONTHS`), not Python's `ValueError` text, which is "'X' is not in list" for the first such name.
- Reports.OUT_OF_RANGE stands for the failure of a debt-age filter, not always for its text. An age that leaves the calendar gives `OverflowError: date value out of range`. An age above 999999999 days already fails in `timedelta(days=...)`, with an `OverflowError` whose message names the bound.
- ReconciliationLoader.Header: a header is matched to the loader's columns by exact text; pandas' handling of a duplicated header (which it renames with a suffix) is outside the model.
- ReconciliationLoader.UNBOUND_RESULTS is the message of Python 3.11 and later. Older versions word the same `UnboundLocalError` differently.
- `formatFileSize` (frontend/src/services/excel-service.ts:157-165) is not modelled, so the size message of `validateFile` keeps only the size, not its printed form.
- `checkTaskStatus` in the upload client and the client-alerts endpoint of the older statistics service (backend/stats/app/api/routes.py:41-100) are outside the modelled core.
- SQL `DISTINCT` in the report's manager query is not modelled. The model keeps the first assignment of each credit, which is what the loop at backend/analytics/app/utils/ReportGeneratorService.py:190-192 retains either way.
- A negative `OFFSET` or `LIMIT` is modelled as an error, because the database refuses it.
- `Text.Lower` lower-cases ASCII letters only. Unicode case folding is outside the model.
- ExcelService.ErrorMessage: the inner `catch` for a body that is not JSON, and for error items of an unexpected shape, is merged into the no-detail case.
- Reports.GenerateReport: the output path is written as the directory, "/" and the file name, and the current date and time are separate parameters.
- ExcelService.StatusOutcome: a missing `message` field is modelled as the empty text, which JavaScript's `||` treats the same way.
- Notions.NotionsToday: `includeAll` is accepted and ignored, as in the code. The environment variables are parameters. The default `specialDays` text is parsed like any other, but no lemma states its concrete set.
- Payments.GatewayPayload: `str(Decimal)` is modelled for plain positional notation. Exponent notation, which `str` uses for very small or very large exponents, is not modelled.
- Payments.Caught: `str(HTTPException)` inside the generic handler is modelled as the status and the detail.
- CreditLoader: the pandas conversions of cells arrive as already-typed optional cells. A cell that fails to convert is an absent one.
- CreditLoader.ExcelLoaderService.ProcessCreditRow: the interest rate cell arrives already scaled by `INTEREST_RATE_MULTIPLIER` and truncated to an integer. The loader imports that constant from app/models/Credit.py (backend/credit_management/app/utils/ExcelLoaderService.py:11), which does not define it, and its own definition at :17 is commented out; the model takes the intended scaling as given.
- CreditLoader: the records follow the loader's keyword arguments, not the ORM classes in backend/credit_management/app/models, and the model does not capture that, as written, the module fails to import (`ImportError` for `INTEREST_RATE_MULTIPLIER`, backend/credit_management/app/utils/ExcelLoaderService.py:11) and its constructor calls do not fit those classes: `Client(status=...)` at :79 (the class has `client_state`), `installments_number`/`installments_value` at :189-190 (the class has `installment_number`/`installment_value`), `Alert(client_id=...)` at :290 (the column is commented out), and texts passed to the relationships `manager_zone` (:108), `credit_state` (:144), `contact_method` (:240) and `payment_channel` (:322). The loaded counts describe the loader as its arguments intend it.
- `PortfolioRepository.__init__` (backend/credit_management/app/repository/portfolio.py:15-20) passes `get_schema` and `list_schema` to `BaseRepository.__init__` (backend/credit_management/app/repository/base.py:14), which takes only `model`, so constructing it raises `TypeError`. The model covers its paginated query (`get_multi_paginated`) as if the repository were constructed.

## Findings

| source | as written | input that shows it | evidently intended | confidence | as-written member | corrected member |
|---|---|---|---|---|---|---|
| backend/stats/app/api/routes.py:152-220 | the per-month table is first bound inside the loop over rows, so the month-over-month loop reads an unbound name when the query returns no "Vencida" row | an installment table with no row in state "Vencida" | twelve months of zero totals, each with change "0%" | not executed | OverdueStats.OverdueTotalsAsWritten | OverdueStats.OverdueTotals |
| backend/payments/app/controllers/payment.py:93-126 | `except Exception` also catches the `HTTPException` raised for a gateway error status or an unsuccessful reply, and re-raises it as a 500 | a gateway reply with status 402 (or 200 with `success` false, which should give 400) | the gateway's own status (or 400) reaches the client | not executed | Payments.CaughtAsWritten, Payments.GatewayStatusLost | Payments.Caught |
| backend/analytics/app/utils/ExcelLoaderService.py:49-192 | `pd.read_excel` runs before `results` is assigned, so when it raises, the handler's `results["errors"].append` raises `UnboundLocalError`, and that error replaces the read error | a file pandas cannot read | the read error is re-raised and reaches the caller | not executed | ReconciliationLoader.LoadReconciliationsFromExcelAsWritten, ReconciliationLoader.ReadErrorLostAsWritten | ReconciliationLoader.LoadReconciliationsFromExcel |
| backend/analytics/app/utils/ReportGeneratorService.py:369 | `collect_data` copies the integer `payment_reference` (line 205), and the credits table slices it with `[:15]`, which raises `TypeError` for an integer, so every report that lists a credit fails | any report whose filters select at least one credit | the reference's text cut to 15 characters, `str(credit["payment_reference"])[:15]` | not executed | Reports.GenerateReportAsWritten, Reports.ReferenceCellCases | Reports.GenerateReport |
