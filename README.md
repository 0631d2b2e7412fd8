# aMorti amortization engine, modelled in Dafny

This project models the loan-amortization core of the aMorti repository.
That repository holds the current engine, aMorti, and an older revision, AmortSchedule.
The model covers both:

- **Calendar stepping.** The day-of-month clamping `AddMonths` and both `AddFrequency` overloads (module `Extensions`), on a model of .NET's `DateTime` reduced to the date (`Calendar`). Frequencies and their monthly multipliers are in `Common`.
- **Day-count interest.** `Interest.Calculate` (module `Interest`) and the older engine's `CalcInterest` (module `AmortEngine`).
- **aMorti's date table.** `BuildDateTable` as a loop method proved against a recursive specification (module `DateTable`).
- **aMorti's repayment generation.** Both `GenerateRepayments` overloads (module `Repayments`):
  - over a table of due dates, with the ideal repayment, the capital holiday and the reconciliation of the last entry;
  - of a set value, until the balance is repaid.
- **The ideal repayment.** The geometric-series closed form and its zero-rate counterpart, the product the source writes beside the share it evidently intends (module `Annuity`).
- **`Fill`.** The balance-movement timeline: movements in date order, each cutting off later entries, re-amortizing the signed balance and rebuilding the schedule entries (module `Timeline`).
- **The older engine.** `BuildDateTable` with `NextDateUsingFrequency`, and `GenerateRepayments` with its retry loop (module `AmortEngine`). That loop runs passes over an array of entries in place, nudges the ideal by `difference / instances` and settles a residual under 1 on the last entry.
- **Bookkeeping.**
  - The transaction with its clamped `Repay`, and aMorti's schedule entry with its sums (module `Ledger`).
  - The older schedule entry with its paid and outstanding figures (module `AmortLedger`).

Decimals are modelled as `real` and `Math.Round` as round-half-to-even (module `Decimals`).
Every exception the engines raise is an error value of `Failures.Result`.

## Model

| member | source | states |
|---|---|---|
| Decimals.RoundHalfEven | aMorti/aMorti/Schedule.cs:532 | `Math.Round(x)`: within half of x, a tie going to the even integer |
| Decimals.RoundHalfEvenUnique | aMorti/aMorti/Schedule.cs:532 | any integer meeting the rounding rule is the rounding of x |
| Decimals.Round2 | aMorti/aMorti/Schedule.cs:555 | `Math.Round(x, 2)`: whole cents, within half a cent of x |
| Decimals.Round2OfCents | aMorti/aMorti/Schedule.cs:596 | rounding a whole-cents value leaves it unchanged |
| Decimals.Round2Monotone | aMorti/aMorti/Schedule.cs:596 | rounding to cents never reverses the order of two values |
| Calendar.DaysInMonth | aMorti/aMorti/Extensions.cs:16 | `DateTime.DaysInMonth`: 28 to 31 days, 31 exactly in the long months, 29 in February exactly in leap years |
| Calendar.LexBeforeIff | aMorti/aMorti/Schedule.cs:489 | calendar order (year, month, day) is the same order as the day-number order `DateTime` compares by |
| Calendar.DayNumberInjective | aMorti/aMorti/Schedule.cs:578 | two dates with the same day number are the same date |
| Calendar.NextDay | aMorti/aMorti/Schedule.cs:575 | the day after is one day number later |
| Calendar.PrevDay | aMorti/aMorti/Schedule.cs:575 | `AddDays(-1)` fails exactly on `MinValue` |
| Calendar.NextPrevRoundTrip | aMorti/aMorti/Schedule.cs:575 | the day before the day after is the date itself, and the other way round |
| Calendar.AddDays | aMorti/aMorti/Extensions.cs:37-38 | `AddDays(n)` moves the day number by n and fails only before `MinValue` |
| Calendar.NetAddMonths | aMorti/aMorti/Extensions.cs:15 | `AddMonths(k)` lands k months on, on the same day clamped to that month's length |
| Calendar.NetAddYears | aMorti/aMorti/Extensions.cs:42-43 | `AddYears(k)` keeps month and day k years on (29 February falls back to the 28th) |
| Common.Ordinal | aMorti/aMorti/Common.cs:11-20 | the seven declared members in declaration order |
| Common.MonthlyMultiplier | aMorti/aMorti/Common.cs:22-35 | `GetMonthlyMultiplier` is positive exactly for a declared frequency, 0 otherwise |
| Common.MultiplierIncreasesWithOrdinal | aMorti/aMorti/Common.cs:11-35 | multipliers strictly increase in declaration order, both directions |
| Common.MultipliersAreMonthsPerPeriod | aMorti/aMorti/Common.cs:26-32 | the values 0.25, 0.5, 1, 2, 3, 12, 24 are months per period ("bi" doubles, quarter is 3, year is 12) |
| Common.DeclaredHasRatio | aMorti/aMorti/Schedule.cs:540 | for a declared frequency `1200 / multiplier` is defined and positive |
| Extensions.AddMonthsClamped | aMorti/aMorti/Extensions.cs:12-16 | lands `months` months on with the year rolling over, on `min(dayofmonth, DaysInMonth)`; a day below 1 or a month before year 1 fails |
| Extensions.AddFrequency | aMorti/aMorti/Extensions.cs:33-47 | an undeclared frequency throws; any other failure is an invalid date |
| Extensions.AddFrequencySucceeds | aMorti/aMorti/Extensions.cs:33-47 | a step succeeds exactly for a declared frequency, with a day of month of at least 1 for the month-based ones |
| Extensions.AddFrequencyWeekly | aMorti/aMorti/Extensions.cs:37-38 | WEEKLY and BI_WEEKLY move 7 and 14 days |
| Extensions.AddFrequencyMonthly | aMorti/aMorti/Extensions.cs:39-41 | MONTHLY, BI_MONTHLY and QUARTERLY move 1, 2 and 3 months, onto the clamped day |
| Extensions.AddFrequencyYearly | aMorti/aMorti/Extensions.cs:42-43 | YEARY and BI_YEARLY move 1 and 2 years ignoring the day of month; 29 February becomes the 28th in a common year |
| Extensions.AddFrequencyIsLater | aMorti/aMorti/Extensions.cs:37-43 | every successful step is strictly later, for every frequency and day of month |
| Extensions.AddFrequencyBy | aMorti/aMorti/Extensions.cs:18-31 | the scaled overload moves 7k or 14k days, k, 2k or 3k months, or k or 2k years; undeclared throws |
| Extensions.AddFrequencyByIsLater | aMorti/aMorti/Extensions.cs:22-28 | with k >= 1 the scaled step never fails for a declared frequency and moves forward |
| Extensions.OneIncrementIsOneStep | aMorti/aMorti/Extensions.cs:18-47 | one increment of the scaled overload equals one step of the day-of-month overload at dt's own day |
| Interest.DaysBetween | aMorti/aMorti/Interest.cs:13 | the whole-day count is 0 exactly when the dates are equal |
| Interest.Calculate | aMorti/aMorti/Interest.cs:11-19 | fails (divide by zero) exactly when the days in a year are 0 |
| Interest.CalculateSymmetric | aMorti/aMorti/Interest.cs:13 | swapping the dates gives the same interest |
| Interest.CalculateZero | aMorti/aMorti/Interest.cs:13-17 | a balance <= 0 or an empty span accrues exactly 0 |
| Interest.CalculateNonNegative | aMorti/aMorti/Interest.cs:14-17 | with rate >= 0 and a positive year the interest is never negative |
| Interest.DaysBetweenAdds | aMorti/aMorti/Interest.cs:13 | day counts add over adjacent spans |
| Interest.CalculateAdditiveInDays | aMorti/aMorti/Interest.cs:13-17 | the interest over two adjacent spans is the interest over their union |
| Interest.CalculateLinearInBalance | aMorti/aMorti/Interest.cs:16-17 | interest is additive in non-negative balances |
| Annuity.LevelPayment | aMorti/aMorti/Schedule.cs:540-544 | the closed form `x / y` fails exactly when one of its divisors is zero |
| Annuity.BalanceAfterClosedForm | aMorti/aMorti/Schedule.cs:536-544 | closed form of the balance after k periods of growth and payment |
| Annuity.LevelPaymentAmortizes | aMorti/aMorti/Schedule.cs:536-544 | the level payment leaves exactly nothing after `instances` periods |
| Annuity.PaymentEquation | aMorti/aMorti/Schedule.cs:542-544 | `x / y` times `(p - 1)` is `balance * (ir - 1) * p` |
| Annuity.LevelPaymentSingle | aMorti/aMorti/Schedule.cs:540-544 | one instalment is the balance plus one period's interest |
| Annuity.ZeroRateIdealAsWrittenOvershoots | aMorti/aMorti/Schedule.cs:532 | as written, `Math.Round(1000 * 4)` asks 4000 per instalment of a 1000 balance |
| Annuity.ZeroRateIdeal | aMorti/aMorti/Schedule.cs:532 | the corrected zero-rate ideal fails exactly with no instances |
| Annuity.ZeroRateIdealSharesBalance | aMorti/aMorti/Schedule.cs:532 | n payments of the corrected ideal come within n/2 of the balance |
| Annuity.ZeroRateShareAmortizes | aMorti/aMorti/Schedule.cs:529-544 | at a zero rate the exact share `B / n` repays the balance, the factor-1 case of the closed form |
| DateTable.BuildDateTable | aMorti/aMorti/Schedule.cs:464-500 | the three argument checks in order, then exactly the table of `Rest` steps |
| DateTable.TableIsFinish | aMorti/aMorti/Schedule.cs:475-484 | the table is the start (when used as first) followed by the dates after the start |
| DateTable.FinishAdvance | aMorti/aMorti/Schedule.cs:478-497 | one turn of the loop: a failing step fails, a step past the end closes, any other step appends |
| DateTable.RestBounds | aMorti/aMorti/Schedule.cs:486-493 | every date after dt is later than dt and at or before the end, strictly ascending |
| DateTable.RestSteps | aMorti/aMorti/Schedule.cs:486-496 | first date one step from dt, each later one a step from the one before, one more step passes the end |
| DateTable.RestSucceeds | aMorti/aMorti/Schedule.cs:486 | the dates after dt can be listed exactly for a declared frequency |
| DateTable.TableSucceeds | aMorti/aMorti/Schedule.cs:478-499 | the table exists exactly for a declared frequency, else the invalid-frequency exception |
| DateTable.TableAscending | aMorti/aMorti/Schedule.cs:475-499 | only dates at or before the end, strictly ascending |
| DateTable.TableFirst | aMorti/aMorti/Schedule.cs:483-484 | the first date is the start if and only if `useStartAsFirst` |
| DateTable.TableSteps | aMorti/aMorti/Schedule.cs:486-496 | each later date is `AddFrequency` of the one before |
| DateTable.TableCloses | aMorti/aMorti/Schedule.cs:486-490 | one more step from the last date (the start if none) passes the end: the table is complete |
| Repayments.SignedCapital | aMorti/aMorti/Schedule.cs:32-38 | `ValueCapitalSigned` negates a `Repay` capital and keeps any other; its size is \|capital\| |
| Repayments.InstalmentInterest | aMorti/aMorti/Schedule.cs:572-582 | interest of one instalment, zero on the start date, failing only through the day before or the delegate |
| Repayments.InstalmentInterestValues | aMorti/aMorti/Schedule.cs:572-582 | with `Interest.Calculate`: 0 on the start date, otherwise fails iff no days in a year, non-negative at a non-negative rate |
| Repayments.CountAfter | aMorti/aMorti/Schedule.cs:526 | the count of dates after the holiday end is at most the count of dates |
| Repayments.IdealFor | aMorti/aMorti/Schedule.cs:529-545 | with no interest the ideal is `Math.Round(balance * instances)`, within 0.5 of the product, and never fails; with interest and no instances the closed form divides by zero; any failure is a division by zero at a non-zero rate |
| Repayments.CountIdeal | aMorti/aMorti/Schedule.cs:521-555 | refused as zero exactly when the ideal is exactly 0; any other failure is the ideal's own; a success is whole cents within half a cent of the ideal |
| Repayments.CountCapital | aMorti/aMorti/Schedule.cs:585-596 | the capital of one instalment is whole cents |
| Repayments.CountCapitalLevel | aMorti/aMorti/Schedule.cs:594-596 | outside the holiday, not last, interest covered: capital plus interest is exactly the ideal |
| Repayments.CountCapitalBounds | aMorti/aMorti/Schedule.cs:585-596 | capital lies between 0 and the ideal |
| Repayments.GenerateRepaymentsByCount | aMorti/aMorti/Schedule.cs:511-613 | the empty-table exit, the ideal with its refusals and rounding, the loop over the due dates then the reconciliation equal `GenerateByCount` |
| Repayments.ReconcileKeepsPrefix | aMorti/aMorti/Schedule.cs:602-610 | every instalment but the last is unchanged; the last capital grows by the difference |
| Repayments.ReconcileRepaysBalance | aMorti/aMorti/Schedule.cs:602-610 | with a non-negative last capital and earlier ones within the balance, the capitals then sum exactly to the balance |
| Repayments.GenerateByCountIsPass | aMorti/aMorti/Schedule.cs:561-610 | the result is the pass over the dates, reconciled |
| Repayments.GenerateByCountAt | aMorti/aMorti/Schedule.cs:561-600 | the k-th instalment is what its due date calls for after the ones before it |
| Repayments.GenerateByCountInterest | aMorti/aMorti/Schedule.cs:572-597 | one `Repay` per due date, on that date; interest from the previous due date on the balance less capital repaid before it |
| Repayments.GenerateByCountLevel | aMorti/aMorti/Schedule.cs:585-594 | every instalment but the last: no capital in the holiday or when interest exceeds the ideal, otherwise capital plus interest is the ideal |
| Repayments.GenerateByCountDates | aMorti/aMorti/Schedule.cs:561-597 | each instalment falls on its own due date |
| Repayments.GenerateByCountRepaysBalance | aMorti/aMorti/Schedule.cs:592-610 | on ascending dates with a non-negative ideal, the capitals repay exactly the balance |
| Repayments.GenerateByCountRepaidBefore | aMorti/aMorti/Schedule.cs:564-569 | the capital repaid before each due date is all the capital of the instalments before it |
| Repayments.GenerateByCountErrors | aMorti/aMorti/Schedule.cs:514-548 | empty tables come back empty; no instances throws "ideal repayment can't be zero" at no interest (the product is 0) and divides by zero at any other rate; an ideal of exactly 0 is refused |
| Repayments.GenerateByCountZeroRateOvershoots | aMorti/aMorti/Schedule.cs:529-610 | as written, with no interest, no holiday and two or more ascending due dates, the first instalment alone repays more capital than the balance, so the capitals repay more than the balance |
| Repayments.SumAbsCapitalCovers | aMorti/aMorti/Schedule.cs:603 | the total of \|capital\| is at least the \|capital\| of any one entry |
| Repayments.ZeroRateInterest | aMorti/aMorti/Schedule.cs:572-582 | with `Interest.Calculate` at a zero rate every instalment accrues exactly 0 |
| Repayments.ValueCapital | aMorti/aMorti/Schedule.cs:660-671 | the capital of a set-value instalment is whole cents |
| Repayments.ValueCapitalCases | aMorti/aMorti/Schedule.cs:662-671 | below the balance it pays exactly the value; otherwise it pays off the balance left, or balance left in capital and interest together |
| Repayments.RunShape | aMorti/aMorti/Schedule.cs:641-678 | the loop stops once the capital repaid reaches the balance and not before; each date is the next-date step of the one before |
| Repayments.RunLoop | aMorti/aMorti/Schedule.cs:641-678 | the while loop equals `Run` |
| Repayments.GenerateRepaymentsByValue | aMorti/aMorti/Schedule.cs:625-681 | the zero check then the loop equal `GenerateByValue` |
| Repayments.GenerateByValueErrors | aMorti/aMorti/Schedule.cs:632-641 | a value of 0 throws; no balance means no instalments |
| Repayments.GenerateByValueShape | aMorti/aMorti/Schedule.cs:635-678 | stops only once the capital repaid reaches the balance; first on `dateStart`, each later one `AddFrequency` of the previous |
| Repayments.GenerateByValueAt | aMorti/aMorti/Schedule.cs:643-677 | the k-th instalment is what its date calls for on the balance less capital repaid so far |
| Repayments.GenerateByValueLevel | aMorti/aMorti/Schedule.cs:662-669 | each instalment splits per the branches: none in the holiday, exactly the value, or the balance left |
| Repayments.GenerateByValueLast | aMorti/aMorti/Schedule.cs:641 | once the balance is repaid no further instalment follows |
| Repayments.GenerateByValuePaysOff | aMorti/aMorti/Schedule.cs:664-669 | an instalment that can pay off the balance within the value does so, is the last, and the total repaid is exactly the balance |
| Repayments.GenerateByValueFirst | aMorti/aMorti/Schedule.cs:643-658 | the first instalment falls on the start date and accrues no interest |
| Repayments.GenerateByValueAscending | aMorti/aMorti/Schedule.cs:674-675 | the due dates strictly ascend |
| Timeline.TermsCalculateInterest | aMorti/aMorti/Schedule.cs:66 | the terms Fill passes compute interest with `Interest.Calculate` at the parsed rate and holiday |
| Timeline.MaxDateIsLater | aMorti/aMorti/Schedule.cs:393-399 | `maxDate` is the later of its arguments and one of them |
| Timeline.InsertByDateContents | aMorti/aMorti/Schedule.cs:401 | inserting by date keeps every entry |
| Timeline.InsertByDateSorts | aMorti/aMorti/Schedule.cs:401 | inserting into a date-ordered list keeps it ordered |
| Timeline.OrderByDateSorts | aMorti/aMorti/Schedule.cs:401 | `OrderBy(n => n.Date)` yields the movements in date order, each exactly once |
| Timeline.RemoveAfterKeeps | aMorti/aMorti/Schedule.cs:404 | `RemoveAll(n => n.Date > d)` keeps exactly the entries dated on or before d |
| Timeline.SignedUpToAll | aMorti/aMorti/Schedule.cs:407 | with nothing dated later, the balance is the signed capital of all entries |
| Timeline.ListedKeeps | aMorti/aMorti/Schedule.cs:446 | exactly the entries that are not `Outstanding` become schedule entries |
| Timeline.OutstandingSplits | aMorti/aMorti/Schedule.cs:687-700 | `Outstanding()` is `Outstanding(Capital) + Outstanding(Interest)` |
| Timeline.ShownOwesAll | aMorti/aMorti/Schedule.cs:444-452 | freshly filled entries owe all their capital and all their interest |
| Timeline.FilledErrors | aMorti/aMorti/Schedule.cs:334-441 | without repayment parameters the payments alone; no option or several options throw |
| Timeline.ReplayFailureSticks | aMorti/aMorti/Schedule.cs:401-437 | a failure part way through the movements fails all of Fill |
| Timeline.MoveCutsOff | aMorti/aMorti/Schedule.cs:404-435 | one movement keeps the entries on or before it in order, adds itself, then the repayments of the signed balance |
| Timeline.RepaymentsAfterCases | aMorti/aMorti/Schedule.cs:410-436 | no option repays nothing; an empty table throws; with instances the maturity is after the first date |
| Timeline.NewEntry | aMorti/aMorti/Schedule.cs:448-450 | a new schedule entry of the entry's type and date, with its capital and interest, unrepaid |
| Timeline.ReplayMovements | aMorti/aMorti/Schedule.cs:401-437 | the movement loop equals `Replay` |
| Timeline.Schedule.constructor | aMorti/aMorti/Schedule.cs:86-90 | version and start date set, no entries |
| Timeline.Schedule.Fill | aMorti/aMorti/Schedule.cs:311-453 | the result is `Filled`; on success the entries show its Pay and Repay entries, unrepaid; on failure nothing changes |
| Timeline.Schedule.Refill | aMorti/aMorti/Schedule.cs:444-452 | cleared, then one fresh entry per listed entry, in order |
| Ledger.RepaidOutstanding | aMorti/aMorti/ScheduleEntryTransaction.cs:37 | subtracts the amount, never below 0 |
| Ledger.RepayBounds | aMorti/aMorti/ScheduleEntryTransaction.cs:37 | the new outstanding lies in [0, old outstanding]; repaying 0 changes nothing |
| Ledger.RepayTwiceIsRepaySum | aMorti/aMorti/ScheduleEntryTransaction.cs:35-39 | two repayments are one repayment of their sum |
| Ledger.Transaction.constructor | aMorti/aMorti/ScheduleEntryTransaction.cs:23-28 | a new transaction has `Outstanding == Value` |
| Ledger.Transaction.Repay | aMorti/aMorti/ScheduleEntryTransaction.cs:35-39 | subtracts `min(Outstanding, amount)`, returns the new outstanding, and changes nothing else |
| Ledger.SumsSplitByType | aMorti/aMorti/ScheduleEntry.cs:108-128 | untyped sums are capital plus interest sums |
| Ledger.UnrepaidOutstandingIsValue | aMorti/aMorti/ScheduleEntry.cs:108-118 | before any repayment outstanding sums equal value sums |
| Ledger.OutstandingWithinValue | aMorti/aMorti/ScheduleEntry.cs:108-118 | partly repaid transactions keep outstanding sums between 0 and value sums |
| Ledger.ScheduleEntry.constructor | aMorti/aMorti/ScheduleEntry.cs:136-141 | type and date set, no transactions |
| Ledger.ScheduleEntry.AddScheduleEntryTransaction | aMorti/aMorti/ScheduleEntry.cs:143-148 | appends one fresh transaction, outstanding = value; only its type's sum grows |
| Ledger.ScheduleEntry.SignedFigures | aMorti/aMorti/ScheduleEntry.cs:51-98 | signed figures are negated on `Repay` entries; `TotalSigned` is the total under that sign |
| Ledger.ScheduleEntry.TotalsCoverAllTransactions | aMorti/aMorti/ScheduleEntry.cs:82-158 | `OutstandingTotal` and `Total` cover every transaction |
| Ledger.ScheduleEntry.UnrepaidEntryIsOutstanding | aMorti/aMorti/ScheduleEntry.cs:86-128 | before any repayment `OutstandingTotal == Total` |
| Ledger.SumValueAppend | aMorti/aMorti/ScheduleEntry.cs:45-66 | appending adds the value to its own type's sum only |
| Ledger.CapitalBalanceIsCapitalLessLaterSigned | aMorti/aMorti/ScheduleEntry.cs:31-37 | `CapitalBalance` is own capital less later signed capital; with nothing later it is own capital |
| Ledger.LaterSignedAgree | aMorti/aMorti/ScheduleEntry.cs:35 | the source's sum of later capital is the negated signed sum |
| AmortLedger.SumPaidIsValueLessOutstanding | AmortSchedule/AmortSchedule/ScheduleEntry.cs:51-67 | paid is value less outstanding |
| AmortLedger.SumsConcat | AmortSchedule/AmortSchedule/ScheduleEntry.cs:126-129 | typed sums add over concatenation |
| AmortLedger.ScheduleEntry.constructor | AmortSchedule/AmortSchedule/ScheduleEntry.cs:113-117 | date set, no transactions |
| AmortLedger.ScheduleEntry.AddScheduleEntryTransaction | AmortSchedule/AmortSchedule/ScheduleEntry.cs:119-124 | appends one fresh transaction; due grows, paid does not change |
| AmortLedger.ScheduleEntry.AddScheduleEntryTransactions | AmortSchedule/AmortSchedule/ScheduleEntry.cs:126-129 | appends all in order; each typed sum grows by theirs |
| AmortLedger.ScheduleEntry.PaidIsWhatWasPaidDown | AmortSchedule/AmortSchedule/ScheduleEntry.cs:41-108 | paid figures are what transactions were paid down by; `TotalPaid` and `TotalOutstanding` split by type |
| AmortLedger.ScheduleEntry.PaidBounds | AmortSchedule/AmortSchedule/ScheduleEntry.cs:51-78 | paid lies between 0 and due; before any repayment nothing is paid |
| AmortLedger.ScheduleOutstandingSplits | AmortSchedule/AmortSchedule/Schedule.cs:487-500 | `Outstanding()` is the capital plus the interest outstanding |
| AmortEngine.CalcInterest | AmortSchedule/AmortSchedule/Schedule.cs:472-480 | fails exactly when the year has 0 days |
| AmortEngine.SignedInterestVersusAccrued | AmortSchedule/AmortSchedule/Schedule.cs:477-478 | the unclamped interest equals the clamped one for non-negative balances, is negative for negative ones |
| AmortEngine.CalcInterestVersusCalculate | AmortSchedule/AmortSchedule/Schedule.cs:472-480 | agrees with `Interest.Calculate` on non-negative balances, differs below; symmetric, 0 over no days |
| AmortEngine.NextDateUsingFrequencyLands | AmortSchedule/AmortSchedule/Schedule.cs:309-314 | `period` months on, exactly on `day`, failing iff the month lacks the day; a positive period moves forward |
| AmortEngine.BuildDateTableByPeriod | AmortSchedule/AmortSchedule/Schedule.cs:273-307 | the loop equals `PeriodTable` |
| AmortEngine.PeriodFinishAdvance | AmortSchedule/AmortSchedule/Schedule.cs:284-303 | one turn of the loop in terms of the rest of the table |
| AmortEngine.PeriodRestBounded | AmortSchedule/AmortSchedule/Schedule.cs:292-296 | every date after dtLast is at or before the end |
| AmortEngine.PeriodRestSteps | AmortSchedule/AmortSchedule/Schedule.cs:292-302 | each date is `NextDateUsingFrequency` of the one before |
| AmortEngine.PeriodRestAscends | AmortSchedule/AmortSchedule/Schedule.cs:292-302 | with a positive period the dates strictly ascend |
| AmortEngine.PeriodRestFuelSuffices | AmortSchedule/AmortSchedule/Schedule.cs:292-302 | with a positive period, fuel above the months from dtLast to the end never runs out |
| AmortEngine.PeriodTableFuelSuffices | AmortSchedule/AmortSchedule/Schedule.cs:273-306 | with a positive period, fuel above the months from the start to the end never runs out |
| AmortEngine.PeriodTableShape | AmortSchedule/AmortSchedule/Schedule.cs:273-306 | only dates at or before the end; the start first when asked; ascending with a positive period |
| AmortEngine.RowAt | AmortSchedule/AmortSchedule/Schedule.cs:386-425 | fails only on a row dated `MinValue`; keeps the date, in whole cents; no capital when the interest exceeds the ideal, capital plus interest equal to the ideal when a later row exists, capital at most the ideal on the latest row |
| AmortEngine.RowOf | AmortSchedule/AmortSchedule/Schedule.cs:408-421 | the row keeps its date, in whole cents; no capital when the interest exceeds the ideal, capital plus interest equal to the ideal when a later row exists, capital at most the ideal on the latest row |
| AmortEngine.RowRule | AmortSchedule/AmortSchedule/Schedule.cs:389-421 | the row made: interest is the opening interest plus `CalcInterest` at 364 days from dtLast to the day before, none accrued when dtLast is the row's date, rounded to cents; capital 0 when that exceeds the ideal, `round(ideal - interest, 2)` with a later row, `round(min(balance owed, ideal), 2)` on the latest |
| AmortEngine.LevelCapital | AmortSchedule/AmortSchedule/Schedule.cs:414-421 | rounding ideal less interest changes nothing; capital stays at most the ideal |
| AmortEngine.PassFrom | AmortSchedule/AmortSchedule/Schedule.cs:386-427 | a successful pass keeps the number of rows |
| AmortEngine.PassFromLevel | AmortSchedule/AmortSchedule/Schedule.cs:410-421 | the dates and the rows before k are kept; every rewritten row is in cents with no capital when the interest exceeds the ideal; with a whole-cents ideal, capital plus interest is the ideal when a later row exists and capital is at most the ideal on the latest row |
| AmortEngine.PassFromFirstRule | AmortSchedule/AmortSchedule/Schedule.cs:381-425 | the first row rewritten follows the row rule from dtLast with the opening interest, on the rows as given |
| AmortEngine.PassFromLaterRule | AmortSchedule/AmortSchedule/Schedule.cs:381-425 | each later row follows the row rule from the previous row's date with no opening interest, on the rows as they stand with those before it already rewritten |
| AmortEngine.PassFromInPlace | AmortSchedule/AmortSchedule/Schedule.cs:381-425 | each row is worked from the rows as they then stand; the opening interest goes into the first row only |
| AmortEngine.AbsTotalCents | AmortSchedule/AmortSchedule/Schedule.cs:430 | a sum of whole-cents capitals is whole cents |
| AmortEngine.WithLastCapital | AmortSchedule/AmortSchedule/Schedule.cs:442-448 | the rows before the last are unchanged; the last keeps its date and interest and takes the new capital |
| AmortEngine.SettleSucceedsIff | AmortSchedule/AmortSchedule/Schedule.cs:439-457 | settling succeeds exactly when the last capital covers an overpayment, and then repays the balance to the cent |
| AmortEngine.SettleShape | AmortSchedule/AmortSchedule/Schedule.cs:442-448 | a settled pass keeps the dates, is whole cents and repays exactly the balance; the only failure is an incomplete schedule |
| AmortEngine.TurnAt | AmortSchedule/AmortSchedule/Schedule.cs:368-465 | a turn that retries keeps the row count |
| AmortEngine.TurnAtNudges | AmortSchedule/AmortSchedule/Schedule.cs:463 | a retry moves the ideal by at least 1/instances toward the balance |
| AmortEngine.TurnAtRepays | AmortSchedule/AmortSchedule/Schedule.cs:368-465 | a finished turn repays the balance exactly on the same dates or fails for a known reason |
| AmortEngine.AttemptsRepayBalance | AmortSchedule/AmortSchedule/Schedule.cs:368-465 | any outcome of the retry loop repays the balance exactly, in cents, on the same dates |
| AmortEngine.PassFromFails | AmortSchedule/AmortSchedule/Schedule.cs:402 | a pass fails only on a row dated `MinValue` |
| AmortEngine.GeneratedCases | AmortSchedule/AmortSchedule/Schedule.cs:328-368 | no rows come back unchanged; a zero multiplier or rate is refused; any other outcome repays the balance |
| AmortEngine.RunPass | AmortSchedule/AmortSchedule/Schedule.cs:379-427 | the foreach over the array in place equals `PassFrom` |
| AmortEngine.SettleLast | AmortSchedule/AmortSchedule/Schedule.cs:439-457 | settling the last entry in place equals `Settle` |
| AmortEngine.RunTurn | AmortSchedule/AmortSchedule/Schedule.cs:371-463 | one turn in place equals `TurnAt` |
| AmortEngine.AttemptsTurn | AmortSchedule/AmortSchedule/Schedule.cs:368-465 | the loop proceeds one turn at a time |
| AmortEngine.GenerateRepayments | AmortSchedule/AmortSchedule/Schedule.cs:325-469 | the checks then the retry loop in place equal `Generated` |

## Left out

- Time of day is not modelled: a date is (year, month, day), so `.Date` is the identity. The upper limit of year 9999 is not modelled.
- Floating point: the older engine's closed-form first guess goes through `Math.Pow` over doubles. `AmortEngine.GenerateRepayments` takes that guess as a parameter. In `Annuity.LevelPayment` aMorti's ideal is evaluated exactly over reals.
- Parsing the string parameter bag (`ParseParameter`, `ParseParameterJSON`, the parameter classes) is not modelled. `Timeline` takes already typed payments and options.
- Termination: the set-value loop, the older engine's retry loop and its date table are bounded by a `fuel` argument. Running out gives `DoesNotTerminate`, where the source either loops for ever or, with too little fuel, would still have finished. For the older date table `AmortEngine.PeriodTableFuelSuffices` bounds the fuel it needs with a positive period; no such bound is proved for the other two loops.
- Repayments.IdealFor: at a zero rate it follows the source's product `Math.Round(capitalBalance * instances)`, so the engine's zero-rate schedules overpay (see Findings); the intended share `Annuity.ZeroRateIdeal` is modelled and proved beside it but not used by the engine.
- `InterestCalcFunc` is a field of `Repayments.Terms`. `Timeline` fills it with `Interest.Calculate`, and the properties about interest are stated under that assumption.
- Dates are compared in calendar order (`LexBefore`); `Calendar.LexBeforeIff` proves it equal to the `DateTime` order.
- Timeline.OrderByDateSorts: the sort is proved ordered and a permutation. It is not proved stable, as `OrderBy` is.
- AmortSchedule's `Fill` and constructors are half-written (wrong constructor arity, an undefined enum), so they are not part of this model. Neither is the back-reference from an entry to its schedule.
- UI code (`Form1.cs`, `GetList`, `ToString`, display attributes) is not part of this model. Nor is `ClosedEntry`, which is not defined in the entry class.
- Repayments.GenerateByCountRepaysBalance: it requires a non-negative ideal and earlier capitals within the balance. With a negative ideal the reconciled capitals need not repay the balance.
- Entries of the generators are values in a sequence, not shared mutable objects. The source's in-place writes through aliased entries are therefore modelled by rebuilding the list; the older engine keeps its entries in an array.
- AmortLedger.ScheduleOutstandingSplits: AmortSchedule's `Outstanding(type)` calls an `Outstanding(type)` its entry class does not declare. It is modelled with the entry's per-type outstanding getters.
- An empty table of rows comes back unchanged from the older engine whatever the balance, as in the source; no property about the balance is claimed for it.

## Findings

| source | as written | input that shows it | evidently intended | confidence | as-written member | corrected member |
|---|---|---|---|---|---|---|
| aMorti/aMorti/Schedule.cs:532 | with a zero interest rate the ideal repayment is `Math.Round(capitalBalance * instances)`, a product | balance 1000 over 4 instances asks 4000 per instalment | the balance shared over the instances, `Math.Round(capitalBalance / instances)` | not executed | Annuity.ZeroRateIdealAsWrittenOvershoots, Repayments.GenerateByCountZeroRateOvershoots | Annuity.ZeroRateIdeal |
