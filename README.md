# Dashboard financiero — a verified model of its bookkeeping

Dashboard financiero is a personal-finance dashboard. A React front end sits over a hosted row
store with four tables:

- `transacciones`: incomes (INGRESO), expenses (GASTO) and savings (AHORRO);
- `metas`: savings goals;
- `cuentas_pendientes`: bills paid in installments;
- `ahorro_libre`: a free-savings balance.

This project models, in Dafny, the logic between the store calls and the markup:

- the figures the dashboard derives for a selected month;
- the state changes the four data hooks make;
- the rules of the section components: progress, alerts, category grouping, the weekly and
  monthly series, the running balance;
- the input gates of the three dialogs.

The model has three layers.

- **Values.** `Entities` holds the records the screens show. `Store` holds the rows the tables
  keep. `Calendar` covers dates, with months 0..11 as in JavaScript. `Numbers` covers the NaN
  and infinity results of a division. `Text` covers `parseInt`, `parseFloat`, `toString`,
  `trim` and `toUpperCase`.
- **State.** `Store.Database` is the row store, a class whose methods take an `ok` flag for the
  backend's answer. Each hook is a class holding its list state and a reference to the store:
  - `TransactionsHook.TransactionsState`;
  - `GoalsHook.GoalsState`;
  - `FreeSavingsHook.FreeSavingsState`;
  - `BillsHook.BillsState`.

  `GoalsSection.GoalsSectionState` holds the goal screen's input fields. Each method states its
  new state. Lemmas show that a local update gives the same list a reload would give, under the
  row order the model fixes for each table (see "Left out").
- **Rules.** `Dashboard`, `GoalsSection`, `BillsSection`, `Alerts`, `Expenses`, `Income` and
  `Trends` hold the derivations. `AddTransactionDialog`, `AddGoalDialog` and `AddBillDialog` hold
  the dialogs.

Loops in the source are methods with loop invariants, proved against a specification function:

- the alert list built by `push`;
- the per-category `reduce` into a record;
- the in-place `sort`;
- the twelve-month loop;
- the running balance.

Amounts are exact reals. "Today" and the current instant are parameters.

## Model

| member | source | states |
|---|---|---|
| Numbers.CeilDiv | src/components/GoalsSection.tsx:73 | `Math.ceil(a / b)` is the least integer q with a <= q·b. |
| Numbers.Max | src/components/AddGoalDialog.tsx:78 | `Math.max` is an upper bound of both arguments and equal to one of them. |
| Calendar.DaysInMonth | src/components/ExpenseSection.tsx:52 | A month has 28 to 31 days; it has 29 exactly for February of a leap year and 28 exactly for February of other years. |
| Calendar.ShiftMonth | src/components/IncomeSection.tsx:35 | `new Date(y, m + d, 1)` lands in month 0..11, exactly d months after (y, m) on the month index. |
| Calendar.LastDayOfMonth | src/App.tsx:130 | `new Date(y, m + 1, 0)` is a valid date in month m, on or after every valid date of that month. |
| Calendar.AtOrBeforeLastDay | src/App.tsx:130-142 | A valid date lies on or before a month's last day exactly when its month index is at most that month's. |
| Calendar.AtOrBeforeTotalPreorder | src/hooks/useTransactions.ts:15 | The date comparison used for ordering is reflexive, transitive and total. |
| Text.ShowNat | src/hooks/useTransactions.ts:22 | `id.toString()` is a non-empty string of decimal digits. |
| Text.ParseInt | src/components/AddBillDialog.tsx:43-44 | `parseInt` without a radix is NaN (`None`) exactly when no digit of the base it reads follows the leading whitespace and optional sign. After a `0x`/`0X` prefix that base is 16, and otherwise it is 10. |
| Text.ParseIntHex | src/components/AddBillDialog.tsx:43-44 | After `0x` or `0X`, `parseInt` reads the base-16 value of the hexadecimal digits that follow. The prefix alone is NaN. |
| Text.ParseIntShowNat | src/hooks/useTransactions.ts:22 | Parsing the string of a row id gives the id back. |
| Text.ShowNatInjective | src/hooks/useTransactions.ts:22 | Distinct row ids give distinct id strings. |
| Text.ParseFloat | src/components/AddTransactionDialog.tsx:74 | `parseFloat` is NaN or a finite value, never an infinity, in this model. Its value is stated by the lemmas below. |
| Text.ParseFloatNaN | src/components/AddTransactionDialog.tsx:74 | `parseFloat` is NaN exactly when, after the whitespace and the sign, there is no digit either at the start or right after a leading point. |
| Text.ParseFloatDecimal | src/components/AddTransactionDialog.tsx:74 | Digits `w`, a point, digits `f`, then anything but a digit parse to value(w) + value(f) / 10^|f|; either side of the point may be empty, but not both. |
| Text.ParseFloatWhole | src/components/AddTransactionDialog.tsx:74 | Digits followed by anything but a digit or a point parse to the digits' value; the rest of the text is ignored. |
| Text.ParseFloatMinus | src/components/AddTransactionDialog.tsx:74 | A `-` before a number negates its value, and keeps NaN as NaN. |
| Text.ParseFloatPlus | src/components/AddTransactionDialog.tsx:74 | A `+` before a number leaves its value unchanged. |
| Text.ParseFloatShowNat | src/hooks/useFreeSavings.ts:32 | `parseFloat` of a whole number's text gives the number. |
| Text.ParseOfDigits | src/components/AddBillDialog.tsx:43-76 | A digit-only text parses to its digits' value under both `parseInt` and `parseFloat`. |
| Text.ParseEmpty | src/components/GoalsSection.tsx:78 | The empty text is NaN for both parsers, while the fallback `'0'` parses to 0. |
| Text.Trim | src/components/GoalsSection.tsx:113 | `trim()` never lengthens the text, and what it returns neither starts nor ends with whitespace, whitespace being every ECMAScript WhiteSpace and LineTerminator character (tab to carriage return, space, no-break space, U+1680, U+2000 to U+200A, the line and paragraph separators, U+202F, U+205F, U+3000, U+FEFF). |
| Text.TrimNonEmpty | src/components/GoalsSection.tsx:113 | A trimmed text is truthy exactly when the text has a character outside that whitespace set, so a reason made only of no-break spaces is blank. |
| Text.ToUpper | src/hooks/useBills.ts:108 | `toUpperCase()` upper-cases character by character over Basic Latin and Latin-1: a–z and à–þ (not ÷) one for one, ÿ to Ÿ, µ to Μ, and ß to the two letters SS. It never shortens the text and keeps its length when there is no ß. |
| Text.ToUpperAppend | src/hooks/useBills.ts:108 | Upper-casing a concatenation upper-cases each part. |
| Text.ToUpperIdempotent | src/hooks/useBills.ts:108 | Upper-casing twice is upper-casing once. |
| Ledger.TotalWhereSnoc | src/App.tsx:117-127 | Appending one transaction adds its amount to a filtered sum exactly when it passes the filter. |
| Ledger.TotalNonNegative | src/App.tsx:153-159 | A sum of non-negative amounts is non-negative. |
| Ledger.MonthTransactions | src/App.tsx:112-115 | A transaction is kept exactly when its month and year are the selected ones. |
| Ledger.Reverse | src/components/ExpenseSection.tsx:186 | `slice().reverse()` keeps the length and puts the i-th entry from the end at position i. |
| Ledger.Recent | src/components/ExpenseSection.tsx:186 | The recent list has min(5, n) entries, starting from the last-listed transaction and going backwards. |
| Ledger.TotalWhereBounds | src/App.tsx:117-127 | A filtered sum is non-negative over non-negative amounts, and 0 when nothing passes the filter. |
| Ledger.WhereEmpty | src/components/AlertsSection.tsx:74 | A filter keeps nothing exactly when no element passes it. |
| Ledger.CategoryTotals | src/components/ExpenseSection.tsx:36-39 | The per-category record has each category at most once, and its values add up to the list's total. |
| Ledger.CategoryTotalsCorrect | src/components/ExpenseSection.tsx:36-39 | The category record has each category seen exactly once, each value is that category's sum, and the values add up to the total. |
| Store.SortByFechaDesc | src/hooks/useTransactions.ts:15 | Ordering by `fecha` descending gives a permutation of the rows. |
| Store.SortByFechaDescSorted | src/hooks/useTransactions.ts:15 | The ordered rows are newest first and a permutation of the table. |
| Store.SortWhere | src/hooks/useTransactions.ts:11-15 | Filtering by owner and ordering by date commute for the stable date order the model fixes, in which rows of the same date keep table order. |
| Store.LoadedFrom | src/hooks/useGoals.ts:20-32 | A filtered and mapped table has at most as many entries as rows, the image of each row passing the filter, and nothing else. |
| Store.Database.InsertTransaction | src/hooks/useTransactions.ts:36-48 | A successful insert appends the row with the next id and returns it. A failed one changes nothing and returns nothing. |
| Store.Database.DeleteTransactions | src/hooks/useTransactions.ts:61 | A successful delete removes exactly the rows with that id. A failed one changes nothing. |
| Store.Database.InsertGoal | src/hooks/useGoals.ts:40-54 | A successful insert appends the row with the next id. A failed one changes nothing. |
| Store.Database.DeleteGoals | src/hooks/useGoals.ts:64 | A successful delete removes exactly the goal rows with that id. |
| Store.Database.UpdateGoalAccumulated | src/hooks/useGoals.ts:90-93 | A successful update sets `monto_acumulado` on the rows with that id only. |
| Store.Database.UpdateGoalCompleted | src/hooks/useGoals.ts:103-106 | A successful update sets `completada` on the rows with that id only. |
| Store.Database.InsertBill | src/hooks/useBills.ts:41-56 | A successful insert appends the bill row with the next id. |
| Store.Database.DeleteBills | src/hooks/useBills.ts:66 | A successful delete removes exactly the bill rows with that id. |
| Store.Database.UpdateBillPayment | src/hooks/useBills.ts:86-93 | A successful update sets `pagado` and `cuotas_pagadas` on the rows with that id only. |
| Store.Database.SelectFreeSingle | src/hooks/useFreeSavings.ts:49-53 | `.single()` finds a row exactly when the owner has one row, reports "not exactly one" (PGRST116) otherwise, and fails on error. |
| Store.Database.InsertFree | src/hooks/useFreeSavings.ts:74-76 | A successful insert appends a row holding the given amount for the owner. |
| Store.Database.UpdateFree | src/hooks/useFreeSavings.ts:64-67 | A successful update sets `monto_total` on the owner's rows only. |
| TransactionsHook.RemoveId | src/hooks/useTransactions.ts:66 | The filter keeps exactly the transactions whose id differs. |
| TransactionsHook.LoadTransactionsCorrect | src/hooks/useTransactions.ts:11-28 | The loaded list is newest first and holds exactly the owner's rows, mapped field by field. |
| TransactionsHook.DeleteMatchesReload | src/hooks/useTransactions.ts:61-67 | Dropping the id from local state gives the list a reload after the store delete would give. |
| TransactionsHook.AddedVisibleOnlyToStaticOwner | src/hooks/useTransactions.ts:14-40 | An added transaction reaches the reloaded list exactly when the hook's user is the fixed owner `1` the insert writes. |
| TransactionsHook.TransactionsState.constructor | src/hooks/useTransactions.ts:6-7 | A fresh hook is empty and loading. |
| TransactionsHook.TransactionsState.FetchTransactions | src/hooks/useTransactions.ts:9-32 | On success the list is the owner's rows, newest first. On error the list is kept. Loading ends either way. |
| TransactionsHook.TransactionsState.AddTransaction | src/hooks/useTransactions.ts:35-57 | A failed insert returns null and changes nothing, with no refetch. Otherwise the row is stored with owner `1` and the list is reloaded. |
| TransactionsHook.TransactionsState.DeleteTransaction | src/hooks/useTransactions.ts:60-68 | Returns whether the delete succeeded. On success exactly that id leaves the list, in order. On failure nothing changes. |
| GoalsHook.IndexOfId | src/hooks/useGoals.ts:85 | The position `find` stops at: the first goal with that id, or the length of the list when no goal has it. |
| GoalsHook.FindGoal | src/hooks/useGoals.ts:85 | `find` returns a listed goal with that id, and nothing exactly when no goal has it. |
| GoalsHook.WithAmount | src/hooks/useGoals.ts:88-92 | Only the goals with that id change, and only in their saved amount. |
| GoalsHook.MarkUsed | src/hooks/useGoals.ts:102-106 | Only the goals with that id change, and only in their `isUsed` flag. |
| GoalsHook.MarkUsedIdempotent | src/hooks/useGoals.ts:102-106 | Using a goal's savings twice is the same as once. |
| GoalsHook.LoadGoalsCorrect | src/hooks/useGoals.ts:13-32 | A fetch lists one goal per row of the owner, converted field by field, and nothing else, never more goals than rows. |
| GoalsHook.LoadAfterSetAccumulated | src/hooks/useGoals.ts:23-32 | After the amount update, a reload shows the new amount on that goal and nothing else changed. |
| GoalsHook.LoadAfterSetCompleted | src/hooks/useGoals.ts:23-32 | After the completed update, a reload shows that goal used and nothing else changed. |
| GoalsHook.DeleteMatchesReload | src/hooks/useGoals.ts:63-70 | Dropping the goal locally gives the list a reload after the store delete would give. |
| GoalsHook.AddedGoalListed | src/hooks/useGoals.ts:43-49 | A new goal is listed after the reload with 0 saved and not used. |
| GoalsHook.GoalsState.FetchGoals | src/hooks/useGoals.ts:13-36 | On success the list is the owner's goals in table order. On error the list is kept. |
| GoalsHook.GoalsState.AddGoal | src/hooks/useGoals.ts:38-61 | A goal row is inserted with `monto_acumulado` 0 and `completada` false, then the list is reloaded. |
| GoalsHook.GoalsState.DeleteGoal | src/hooks/useGoals.ts:63-71 | On success exactly that id leaves the list. On error nothing changes. |
| GoalsHook.GoalsState.QuickPayment | src/hooks/useGoals.ts:73-82 | Marks the goal completed in the store, then reloads. This is the same store effect as `useGoalSavings`. |
| GoalsHook.GoalsState.UpdateGoalAmount | src/hooks/useGoals.ts:84-100 | An id missing from the list changes nothing. Otherwise the stored amount becomes the listed amount plus `amount`. A successful reload then lists the stored goals with exactly that amount on that goal. |
| GoalsHook.StepWithReload | src/hooks/useGoals.ts:84-100 | A contribution to a goal listed with amount v, written and reloaded, stores v + amount and lists the goal with it. |
| GoalsHook.TwoWithReload | src/hooks/useGoals.ts:84-100 | Two contributions with a good reload between them leave the goal's amount plus both in the store, and the list a reload of that store gives. |
| GoalsHook.ContributionsCommute | src/hooks/useGoals.ts:84-100 | With the reload in between succeeding, two contributions give the same store and list in either order, the store holding the amount plus both. |
| GoalsHook.ContributionLostWithoutReload | src/hooks/useGoals.ts:84-100 | When that reload fails, the second contribution is computed from the stale listed amount and overwrites the first: the store holds the amount plus the second only, which differs from the good-reload outcome whenever the first is not 0. |
| GoalsHook.SetAccumulatedDiffers | src/hooks/useGoals.ts:90-93 | Writing two different amounts for a listed goal gives two different tables. |
| GoalsHook.FindAfterSetAccumulated | src/hooks/useGoals.ts:85-99 | After the amount update and a reload, `find` returns the goal it returned before, carrying the new amount. |
| GoalsHook.GoalsState.StoreAmount | src/hooks/useGoals.ts:90-99 | A successful write sets the goal's stored amount and reloads the list. A write error changes neither the store nor the list. |
| GoalsHook.GoalsState.UseGoalSavings | src/hooks/useGoals.ts:102-113 | Sets only `completada` and leaves the saved amount alone, then reloads. |
| FreeSavingsHook.LoadEntriesCorrect | src/hooks/useFreeSavings.ts:21-38 | The entries run from the largest id down, one per row of the owner, and the total shown is the owner's stored balance. |
| FreeSavingsHook.DepositAddsAmount | src/hooks/useFreeSavings.ts:61-80 | With or without an existing row, a deposit raises the owner's balance by exactly the amount. |
| FreeSavingsHook.OwnerTotalAfterSet | src/hooks/useFreeSavings.ts:64-67 | Rewriting the owner's single row to v makes the balance v. |
| FreeSavingsHook.OwnerTotalAfterInsert | src/hooks/useFreeSavings.ts:74-76 | An inserted row adds its amount to its owner's balance. |
| FreeSavingsHook.SingleRowTotal | src/hooks/useFreeSavings.ts:49-53 | With a single row, the balance is that row's amount. |
| FreeSavingsHook.WithdrawKeepsNonNegative | src/hooks/useFreeSavings.ts:113-123 | A withdrawal the guard lets through never leaves a negative balance. |
| FreeSavingsHook.FreeSavingsState.FetchEntries | src/hooks/useFreeSavings.ts:18-42 | On success the entries are the owner's rows, newest id first, and the total is their sum. On error nothing changes. |
| FreeSavingsHook.FreeSavingsState.AddFreeSaving | src/hooks/useFreeSavings.ts:44-89 | An amount <= 0, or a select error other than "not found", writes nothing. Otherwise the single row grows by the amount, or a new row holds exactly the amount. Then the entries are reloaded, or kept when the reload fails. |
| FreeSavingsHook.FreeSavingsState.Deposit | src/hooks/useFreeSavings.ts:60-80 | When the owner has exactly one row, its total grows by the amount. Otherwise a new row holds exactly the amount. A write error changes nothing. |
| FreeSavingsHook.FreeSavingsState.WithdrawFreeSaving | src/hooks/useFreeSavings.ts:92-133 | Nothing is written for an amount <= 0, a select error, no row, or an amount above the balance. Otherwise the row holds exactly old − amount. The entries and the total are reloaded only after a successful update. |
| BillsHook.NewBillRow | src/hooks/useBills.ts:39-54 | The inserted row's installment times the count is the total, with nothing paid and `pagado` false. |
| BillsHook.IndexOfBill | src/hooks/useBills.ts:76 | The position `find` stops at: the first bill with that id, or the length of the list when none has it. |
| BillsHook.FindBill | src/hooks/useBills.ts:76 | `find` returns a listed bill with that id, and nothing exactly when none has it. |
| BillsHook.WithPaid | src/hooks/useBills.ts:82-93 | Only the bill with that id changes, and only in its paid count. |
| BillsHook.LoadBillsCorrect | src/hooks/useBills.ts:13-32 | A fetch lists one bill per row of the owner, a null paid count read as 0, and nothing else, never more bills than rows. |
| BillsHook.LoadAfterSetPayment | src/hooks/useBills.ts:23-32 | After the payment update, a reload shows the new count on that bill and nothing else changed. |
| BillsHook.DeleteMatchesReload | src/hooks/useBills.ts:65-73 | Dropping the bill locally gives the list a reload after the store delete would give. |
| BillsHook.PaymentStep | src/hooks/useBills.ts:80-83 | A payable bill advances by exactly one installment and stays in range. It is fully paid exactly when the last installment is the one paid. |
| BillsHook.PaymentsPayOff | src/hooks/useBills.ts:80-92 | From any in-range state, `installments − paid` payments pay the bill off. |
| BillsHook.BillsState.FetchBills | src/hooks/useBills.ts:13-36 | On success the list is the owner's bills. A missing paid count loads as 0. On error the list is kept. |
| BillsHook.BillsState.AddBill | src/hooks/useBills.ts:38-63 | Inserts the bill with installment amount = total / installments and nothing paid, then reloads. |
| BillsHook.BillsState.DeleteBill | src/hooks/useBills.ts:65-73 | On success exactly that id leaves the list. On error nothing changes. |
| BillsHook.BillsState.QuickPayment | src/hooks/useBills.ts:75-120 | An unknown or paid-off bill changes nothing; otherwise the count rises by 1 and one GASTO of the installment is recorded, dated by its day only (details below; see "Left out"). |
| Dashboard.MonthlyIncome | src/App.tsx:112-119 | The month's income is non-negative over non-negative amounts, and 0 when the month holds no INGRESO. |
| Dashboard.MonthlyExpenses | src/App.tsx:112-123 | The month's expenses are non-negative over non-negative amounts, and 0 when the month holds no GASTO. |
| Dashboard.MonthlySavings | src/App.tsx:125-127 | The month's savings are non-negative over non-negative amounts, and 0 when the month holds no GASTO filed under "Ahorro", whatever AHORRO transactions it holds. |
| Dashboard.TotalUpTo | src/App.tsx:130-143 | A total of one type up to the month's last day is non-negative over non-negative amounts. |
| Dashboard.AccumulatedBalance | src/App.tsx:130-145 | Over non-negative amounts the balance never exceeds the income to date. |
| Dashboard.TotalGoalSavingsBounds | src/App.tsx:150 | With no negative amount, the goal savings are non-negative and at least any one goal's amount. |
| Dashboard.TotalAccumulatedSavings | src/App.tsx:151 | Over non-negative amounts the accumulated savings are at least the free savings. |
| Dashboard.TotalAccumulatedSavingsGrowth | src/App.tsx:139-151 | A free deposit raises the accumulated savings by exactly its amount, and so does an AHORRO dated up to the month's end; any other transaction leaves them unchanged. |
| Dashboard.PendingDebt | src/App.tsx:153-159 | The pending debt is never negative and at least any one bill's outstanding share. |
| Dashboard.PaymentIsMonthlyExpense | src/hooks/useBills.ts:102-110 | The expense a quick payment records raises its month's expenses by the installment and leaves that month's income and savings unchanged. |
| Dashboard.SavingsRate | src/App.tsx:147 | The rate is 0 when income <= 0, and otherwise savings / income · 100. |
| Dashboard.Outstanding | src/App.tsx:153-159 | A bill's share of the debt is never negative. It is 0 once fully paid, and otherwise (installments − paid) · installment for a non-negative installment. |
| Dashboard.PendingDebtBounds | src/App.tsx:153-159 | The pending debt is 0 when every bill is paid off. |
| Dashboard.MonthlyFiguresAppend | src/App.tsx:112-127 | One more transaction adds its amount to `monthlyIncome` exactly when it is an INGRESO in the month. The same holds for `monthlyExpenses` and GASTO, and for `monthlySavings` and a GASTO filed under "Ahorro". |
| Dashboard.SavingsWithinExpenses | src/App.tsx:121-127 | With non-negative amounts, `monthlySavings` lies between 0 and `monthlyExpenses`, because AHORRO transactions never count in it. |
| Dashboard.AccumulatedBalanceAppend | src/App.tsx:130-145 | A transaction dated up to the month's end adds an INGRESO and subtracts a GASTO or AHORRO; any other leaves the balance unchanged. |
| Dashboard.GoalSavingsUnchangedByUse | src/App.tsx:150 | `totalGoalSavings` sums used and unused goals alike, so using a goal's savings does not change it. |
| Dashboard.HandleUseGoalSavings | src/App.tsx:81-101 | A usable goal is marked used and one GASTO of its whole amount is recorded, and each hook reloads its list after its own successful write; anything else changes nothing (details below). |
| GoalsSection.Progress | src/components/GoalsSection.tsx:62-65 | Progress is 0 for a zero target. Otherwise it is min(current / target · 100, 100), so never above 100. |
| GoalsSection.ProgressFacts | src/components/GoalsSection.tsx:62-65 | For a positive target, progress is 100 exactly when the saved amount reaches the target, and it never falls as the amount grows. |
| GoalsSection.DaysUntilTarget | src/components/GoalsSection.tsx:68-74 | NaN for an unparseable date, and otherwise ceil(diff ms / 86 400 000). |
| GoalsSection.DueLabelCorrect | src/components/GoalsSection.tsx:68-74 | A goal shows days left exactly when its date is valid and still ahead. |
| GoalsSection.ToneMonotone | src/components/GoalsSection.tsx:128-140 | The colour thresholds at 100, 75 and 50 are monotone, so more progress never shows a worse colour. |
| GoalsSection.ControlsExclusive | src/components/GoalsSection.tsx:214-243 | The contribution field and the "use savings" button never show together (details below). |
| GoalsSection.ContributionText | src/components/GoalsSection.tsx:78 | The contribution text is never empty: an absent or empty field falls back to `'0'`. |
| GoalsSection.ContributionExpense | src/components/GoalsSection.tsx:84-91 | The recorded transaction is an AHORRO of the contributed amount, dated today. |
| GoalsSection.EmptyContributionIgnored | src/components/GoalsSection.tsx:78-79 | An absent or empty field never gives a positive amount. |
| GoalsSection.LoadedIdsDistinct | src/hooks/useGoals.ts:23-24 | Goals loaded from rows with increasing ids have distinct id strings. |
| GoalsSection.GoalSavingsWithAmount | src/App.tsx:150 | Setting one goal's amount changes the goal total by the difference. |
| GoalsSection.ContributionFillsGoal | src/components/GoalsSection.tsx:81 | A contribution raises `totalGoalSavings` by exactly the amount. |
| GoalsSection.ContributionLeavesBalance | src/components/GoalsSection.tsx:85-91 | The contribution's AHORRO transaction lowers the accumulated balance by the same amount when it is dated up to the selected month. |
| GoalsSection.GoalsSectionState.HandleContribution | src/components/GoalsSection.tsx:77-95 | A positive amount raises the goal by exactly that amount, records one AHORRO of it and reloads both lists; anything else changes nothing, lists included (details below). |
| GoalsSection.GoalsSectionState.Contribute | src/components/GoalsSection.tsx:81-91 | The goal update, then the AHORRO insert, each with its own success flag. The store rows and both hook lists are stated for every combination of the flags. |
| GoalsSection.GoalsSectionState.HandleDeleteGoal | src/components/GoalsSection.tsx:97-101 | The goal is deleted only when the user confirms. Otherwise nothing changes. |
| GoalsSection.GoalsSectionState.HandleUseGoalSaving | src/components/GoalsSection.tsx:121-126 | As wired by the dashboard, a listed and confirmed goal is marked used, and no expense is recorded. The goals list is reloaded after a successful write and reload, and is otherwise unchanged. A list in step with the store becomes that list with the goal marked used. |
| GoalsSection.GoalsSectionState.HandleUseGoalSavingIntended | src/App.tsx:81-101 | Wired to the dashboard's handler, a confirmed and usable goal is marked used when the goal update succeeds and its amount is recorded as a GASTO when the insert succeeds, each write failing on its own; each list is reloaded after its own successful write and reload and kept otherwise; otherwise the store and both lists are unchanged. |
| GoalsSection.GoalsSectionState.HandleAddFreeSaving | src/components/GoalsSection.tsx:103-109 | A positive amount is deposited and the field cleared. The entries and the total are reloaded when the select and the reload succeed; anything else leaves the store, the entries and the total unchanged. |
| GoalsSection.GoalsSectionState.HandleWithdrawFreeSaving | src/components/GoalsSection.tsx:111-118 | A withdrawal is attempted only for a positive amount and a non-blank reason. Both fields are then cleared and the reason is not stored. The store changes only when the hook lets the withdrawal go ahead and the write succeeds: the owner's row then holds the old total minus the amount. The entries and total are reloaded only after such a write, and are otherwise unchanged. |
| BillsSection.PaidShare | src/components/BillsSection.tsx:71 | Progress · installments = paid · 100, and the progress is not finite for zero installments. |
| BillsSection.Remaining | src/components/BillsSection.tsx:72 | The remaining amount is 0 when all installments are paid, positive while some are left, and negative past the last one because nothing clamps it (the last two for a positive installment). |
| BillsSection.View | src/components/BillsSection.tsx:70-113 | Quick pay is offered exactly when paid < installments. |
| BillsSection.Body | src/components/BillsSection.tsx:61-69 | Loading takes precedence over the empty message, which takes precedence over the list. |
| BillsSection.PaidOffView | src/components/BillsSection.tsx:71-113 | A paid-off bill shows 100 %, 0 remaining and no quick pay. |
| BillsSection.PaidShareBounds | src/components/BillsSection.tsx:71 | For an in-range bill the progress lies in [0, 100] and grows with each installment. |
| BillsSection.RemainingVersusDebt | src/components/BillsSection.tsx:72 | While installments are left, the remaining amount is the bill's debt share; past the last one they differ (details below). |
| BillsSection.QuickPayUntilPaidOff | src/components/BillsSection.tsx:113 | The button disappears exactly after the payment of the last installment. |
| Alerts.BudgetPercentage | src/components/AlertsSection.tsx:26 | The percentage is 0 when income <= 0, and otherwise expenses / income · 100. |
| Alerts.AlertSavingsRate | src/components/AlertsSection.tsx:39 | The rate is 0 when income <= 0, and otherwise (income − expenses) / income · 100. |
| Alerts.GoalProgress | src/components/AlertsSection.tsx:53-70 | For a non-zero target, progress is a finite p with p · target = current · 100. |
| Alerts.SystemAlerts | src/components/AlertsSection.tsx:22-82 | The system alerts number at most one per goal plus three, and there are none exactly when spending is within budget, the savings rate is not low and no goal is near its deadline or complete. |
| Alerts.BuildAlerts | src/components/AlertsSection.tsx:22-117 | The pushed alerts equal the rule-based list. The reminder comes last, and the count shown leaves it out. |
| Alerts.PushDeadlines | src/components/AlertsSection.tsx:57-66 | The `forEach` appends one deadline alert per goal near its deadline, in list order, after the alerts already pushed. |
| Alerts.BudgetAlertRule | src/components/AlertsSection.tsx:25-36 | "Gastos elevados" is raised exactly when expenses > 0.7 · income, and it comes first. |
| Alerts.SavingsAlertRule | src/components/AlertsSection.tsx:39-48 | The low-savings alert is raised exactly when income > 0 and the rate < 20. Such spending is always over budget too. |
| Alerts.RateBelowTwenty | src/components/AlertsSection.tsx:39-40 | A rate below 20 % means expenses above 80 % of a positive income. |
| Alerts.DeadlineAlertRule | src/components/AlertsSection.tsx:51-66 | There is one deadline alert per goal with 0 < days left <= 30 and progress < 100, and no others. |
| Alerts.CompletedAlertRule | src/components/AlertsSection.tsx:69-82 | At most one "Metas completadas" alert, the last system alert. It is raised exactly when some goal reaches 100 %, and reports how many do. |
| Alerts.AlertOrder | src/components/AlertsSection.tsx:28-108 | The alerts come in the order budget, savings rate, deadlines, completed, reminder. |
| Expenses.MonthTotalIsMonthlyExpenses | src/components/ExpenseSection.tsx:26-33 | Given the GASTO transactions, the section's total is the dashboard's `monthlyExpenses`. |
| Expenses.GroupByCategory | src/components/ExpenseSection.tsx:36-39 | The `reduce` loop builds the category record, whose keys are distinct and whose values add up to the month's total. |
| Expenses.SortByValueDesc | src/components/ExpenseSection.tsx:49 | The in-place sort leaves the array non-increasing in value and a permutation of what it was. |
| Expenses.InsertLeft | src/components/ExpenseSection.tsx:49 | One insertion step extends the sorted prefix by one and keeps the multiset. |
| Expenses.TopCategories | src/components/ExpenseSection.tsx:42-49 | At most 3 entries, from a permutation sorted largest first, and none smaller than a category left out. |
| Expenses.Percentage | src/components/ExpenseSection.tsx:45 | For a non-zero total, each share is a finite p with p · total = value · 100. |
| Expenses.PercentageSumCorrect | src/components/ExpenseSection.tsx:45 | The shares add up to the sum of the values / total · 100. |
| Expenses.PercentagesAddUp | src/components/ExpenseSection.tsx:36-45 | For a non-zero monthly total the category shares add up to 100. |
| Expenses.DailyAverage | src/components/ExpenseSection.tsx:52-53 | The daily average times the month's length is the month's total. |
| Expenses.WeeklyAverage | src/components/ExpenseSection.tsx:56 | The weekly average is 7 times the daily average. |
| Expenses.WeeklyData | src/components/ExpenseSection.tsx:59-72 | There are exactly 4 bars. |
| Expenses.BucketsTotal | src/components/ExpenseSection.tsx:59-72 | The first k bars add up to the expenses dated in the first 7k days. |
| Expenses.WeeklyDataMissesLateDays | src/components/ExpenseSection.tsx:59-72 | The 4 bars add up to the expenses of days 1–28 only. |
| Expenses.LateDayCounterexample | src/components/ExpenseSection.tsx:59-72 | An expense on the 29th is in the month's total and in no bar. |
| Expenses.WeeklyDataCovering | src/components/ExpenseSection.tsx:59-72 | The corrected bars number ceil(days in month / 7). |
| Expenses.WeeklyDataCoveringSums | src/components/ExpenseSection.tsx:59-72 | The corrected bars add up to the month's total. |
| Income.MonthTotalIsMonthlyIncome | src/components/IncomeSection.tsx:24-31 | Given the INGRESO transactions, the section's total is the dashboard's `monthlyIncome`. |
| Income.ChartData | src/components/IncomeSection.tsx:34-45 | The chart has exactly 6 bars. |
| Income.ChartDataCorrect | src/components/IncomeSection.tsx:34-45 | The bars are six consecutive months, oldest first, ending at the selected month across year boundaries. Each bar is that month's income. |
| Income.CategoriesAddUp | src/components/IncomeSection.tsx:48-51 | The per-category record has distinct keys and adds up to the month's total. |
| Trends.History | src/components/TrendsSection.tsx:21-58 | Twelve rows, the k-th dated 11 − k months before the current month, each with its balance split into a positive and a negative part. |
| Trends.GenerateHistoricalData | src/components/TrendsSection.tsx:21-58 | The loop from i = 11 down to 0 builds exactly the twelve-row history. |
| Trends.RowOf | src/components/TrendsSection.tsx:27-53 | A row belongs to its own month. Its balance is income − expenses − savings, split into a non-negative positive part and a non-negative negative part, at most one of them non-zero. |
| Trends.HistoryShape | src/components/TrendsSection.tsx:25-53 | Twelve consecutive months ending at the current one, each balance income − expenses − savings, split into two non-negative parts (details below). |
| Trends.BalanceHistory | src/components/TrendsSection.tsx:63-70 | The k-th cumulative balance is the sum of balances 0..k, and the final running balance is the sum of all of them. |
| Trends.Average | src/components/TrendsSection.tsx:73-75 | The average times the number of months is the column's sum. |
| Trends.PositiveMonths | src/components/TrendsSection.tsx:77 | The count of months with balance >= 0 is at most the number of months. |
| Trends.TrendSavingsRate | src/components/TrendsSection.tsx:78 | The rate is 0 when average income <= 0, and otherwise average savings / average income · 100. |
| Trends.ColumnSumZero | src/components/TrendsSection.tsx:73-75 | A column that is 0 in every month sums to 0. |
| Trends.WrittenTagsGiveZero | src/components/TrendsSection.tsx:32-78 | On stored transactions every month's income, expenses, savings and balance read 0. All 12 months then count as non-negative, and the savings rate is 0. |
| Trends.StoredTagsMatchDashboard | src/components/TrendsSection.tsx:32-42 | With the stored type tags, the current month's row reports `monthlyIncome`, `monthlyExpenses` and the month's AHORRO total. |
| AddBillDialog.KeyFilterLeavesDigits | src/components/AddBillDialog.tsx:112-134 | Text typed through the key filter is all digits, and `parseInt` reads it as that whole number. |
| AddBillDialog.Submit | src/components/AddBillDialog.tsx:36-64 | Nothing is submitted exactly when some field is empty. Otherwise both numbers are read with `parseInt`, the text fields are passed on and the form is emptied. |
| AddBillDialog.Preview | src/components/AddBillDialog.tsx:74-76 | The preview is 0 when either number field is empty. |
| AddBillDialog.FilteredFormParses | src/components/AddBillDialog.tsx:43-76 | Filtered number fields parse to their digits' value under both parsers. |
| AddBillDialog.PreviewMatchesStored | src/components/AddBillDialog.tsx:74-76 | The preview equals the installment `addBill` stores, and is positive exactly when the total is. |
| AddBillDialog.InstallmentAgrees | src/hooks/useBills.ts:39 | Total / count is the stored installment, and it is positive exactly when the total is. |
| AddTransactionDialog.TabName | src/components/AddTransactionDialog.tsx:48-73 | The type a tab writes is none of INGRESO, GASTO or AHORRO. |
| AddTransactionDialog.CategoriesFor | src/components/AddTransactionDialog.tsx:18-91 | Each tab has its own list, told apart by "Salario", "Vivienda" and "Fondo de Emergencia", and every list ends with "Otros". |
| AddTransactionDialog.Reset | src/components/AddTransactionDialog.tsx:56-63 | Amount, category and description are emptied and the date is today. |
| AddTransactionDialog.SwitchTab | src/components/AddTransactionDialog.tsx:136-139 | Changing tab clears the category and keeps the other fields. |
| AddTransactionDialog.Submit | src/components/AddTransactionDialog.tsx:65-83 | Nothing is submitted exactly when a field is empty; otherwise the type is the tab's name and the fields are passed on (details below). |
| AddTransactionDialog.SubmittedNeverCounted | src/components/AddTransactionDialog.tsx:73 | A transaction entered through the dialog changes none of the month's income, expenses or savings. |
| AddTransactionDialog.StoredKind | src/App.tsx:24 | Each tab stands for one of INGRESO, GASTO and AHORRO. |
| AddTransactionDialog.SubmitIntended | src/components/AddTransactionDialog.tsx:65-83 | The same guard and fields as `Submit`, with the stored type tag. |
| AddTransactionDialog.IntendedIncomeCounted | src/App.tsx:117-119 | With the stored tag, an income entered for the month adds exactly its amount to `monthlyIncome`. |
| AddTransactionDialog.IntendedExpenseCounted | src/App.tsx:121-123 | With the stored tag, an expense entered for the month adds exactly its amount to `monthlyExpenses`. |
| AddGoalDialog.SubmitGoal | src/components/AddGoalDialog.tsx:49-66 | Nothing is submitted exactly when a required field is empty; otherwise the fields are passed on without the description (details below). |
| AddGoalDialog.DescriptionDropped | src/components/AddGoalDialog.tsx:56-61 | The goal listed after the reload has no description, whatever was typed. |
| AddGoalDialog.SubmitGoalIntended | src/components/AddGoalDialog.tsx:49-66 | The same guard and fields, with the typed description passed on. |
| AddGoalDialog.IntendedDescriptionKept | src/hooks/useGoals.ts:51 | With the description passed on, the listed goal carries exactly the typed text. |
| AddGoalDialog.Analysis | src/components/AddGoalDialog.tsx:74-79 | For a valid date, the months are the time left divided by 30 days and rounded up; an invalid date gives NaN (details below). |
| AddGoalDialog.MonthsToTarget | src/components/AddGoalDialog.tsx:72-82 | There is no analysis (null) exactly when the date or the amount field is empty. |
| AddGoalDialog.WeeklyRequired | src/components/AddGoalDialog.tsx:203 | The weekly figure times 4 is the monthly figure. |
| AddGoalDialog.AnalysisShownWhenAhead | src/components/AddGoalDialog.tsx:188 | The analysis is shown exactly when both fields are filled and the date is valid and still ahead. |
| AddGoalDialog.AnalysisCovers | src/components/AddGoalDialog.tsx:77-78 | For a date ahead, months > 0. Monthly figure · months, and weekly figure · 4 · months, both give back the target amount. |

### Longer entries

The rows above that end in "details below" state in full:

- **BillsHook.BillsState.QuickPayment** (src/hooks/useBills.ts:75-120)
  - An unknown id or a bill already paid off changes nothing.
  - Otherwise the paid count rises by exactly 1, and `pagado` is set exactly when the new count
    equals the installments.
  - A failed update stops there.
  - After a successful update, one GASTO of the installment amount is inserted, with category
    "Pago de Cuenta" and description "PAGO DE CUOTA n/N PARA NAME" (the name upper-cased).
  - A failed insert does not undo the payment.
- **Dashboard.AccumulatedBalanceAppend** (src/App.tsx:130-145)
  - One more transaction dated up to the month's last day raises the accumulated balance by an
    INGRESO and lowers it by a GASTO or an AHORRO.
  - A transaction dated later, or of any other type, leaves the balance unchanged.
- **Dashboard.HandleUseGoalSavings** (src/App.tsx:81-101)
  - A missing goal, a goal with 0 saved, or a goal already used changes nothing.
  - Otherwise the goal is marked used and one GASTO of exactly its amount is recorded, with
    category "Uso de Meta". Each write succeeds or fails on its own.
  - The goals list is reloaded from the store when the goal update and the reload succeed, and
    is kept otherwise. The transactions list is reloaded the same way after the insert.
- **GoalsSection.ControlsExclusive** (src/components/GoalsSection.tsx:214-243)
  - The contribution field and the "use savings" button never show together.
  - For a positive target, the button shows exactly when the target is reached and the goal is
    unused.
- **GoalsSection.GoalsSectionState.HandleContribution** (src/components/GoalsSection.tsx:77-95)
  - For a positive amount, the goal's stored amount becomes the listed amount plus the amount.
  - One AHORRO of the amount is recorded.
  - Only that goal's field is cleared.
  - The goals list is what `updateGoal` leaves: reloaded after a successful write and reload, and
    kept otherwise. The transactions list is reloaded after a successful insert and reload, and
    kept otherwise.
  - Anything else changes nothing, in the store and in both lists.
- **BillsSection.RemainingVersusDebt** (src/components/BillsSection.tsx:72)
  - While installments are left, the remaining amount is the bill's share of the pending debt.
  - Past the last installment, the debt share is 0 while the remaining amount is not.
- **Trends.HistoryShape** (src/components/TrendsSection.tsx:25-53)
  - There are 12 consecutive months, oldest first, ending at the current month.
  - Each balance is income − expenses − savings.
  - balancePositive − balanceNegative = balance, and at most one of the two is non-zero.
- **AddTransactionDialog.Submit** (src/components/AddTransactionDialog.tsx:65-83)
  - Nothing is submitted exactly when amount, category or description is empty.
  - Otherwise the type is the tab's name, the amount is `parseFloat` of its field, and category,
    description and date are copied.
  - The form is then reset.
- **AddGoalDialog.SubmitGoal** (src/components/AddGoalDialog.tsx:49-66)
  - Nothing is submitted exactly when name, amount, date or category is empty.
  - Otherwise the goal has `parseFloat` of the amount and no description, and the form is
    emptied.
- **AddGoalDialog.Analysis** (src/components/AddGoalDialog.tsx:74-79)
  - For an invalid date, months and the monthly figure are NaN.
  - Otherwise months = ceil(time left / 30 days).
  - A NaN amount gives a NaN monthly figure.

## Left out

- I/O and the backend:
  - Supabase I/O is an in-memory `Store.Database`. Each call takes a success flag, and a refetch
    is a method call.
  - The asynchronous ordering of React state updates is not modelled.
  - Concurrent writes from several tabs or devices are not modelled.
  - A fetch issued without `await` counts as having completed before the next call.
- Dates and numbers:
  - `new Date()` and the current instant are parameters.
  - Time zones are left out, and so is the parsing of date strings. A goal's target date is
    given already parsed, as a millisecond stamp or invalid.
  - Amounts are exact reals, so floating-point rounding is not modelled.
- `BillsHook.BillsState.QuickPayment`: the payment's GASTO is stored with
  `new Date().toISOString()`, which is a full instant. Every other insert keeps only the date. The
  model dates the payment by its calendar day and drops the time of day. In the source, a payment
  made during the last day of the selected month is later than that day's local midnight, so it
  is left out of the accumulated balance. A payment made during day 7, 14, 21 or 28 is likewise
  left out of that week's bar. The model counts both (`Dashboard.AccumulatedBalanceAppend`,
  `Expenses.BucketsTotal`).
- `Text.ParseFloat`: reads an optional sign, digits and an optional fraction. An exponent
  (`"1.5e3"`) and `"Infinity"` are not modelled: the model stops before the `e`, and reads
  `"Infinity"` as NaN.
- Display: `toFixed`, `Intl.NumberFormat` and `toLocaleDateString` formatting, the charts,
  colours beyond the stated thresholds, and `confirm()`/toast side effects are left out. A
  confirmation is a boolean parameter.
- Number inputs: the `type="number"` fields are taken to hold numeric text when non-empty. This
  is why `Submit`, `SubmitGoal` and `AddBillDialog.Submit` require that a complete form's number
  fields parse.
- Browser constraints:
  - A paste can bypass the bill dialog's key filter. `AddBillDialog.PreviewMatchesStored`
    assumes filtered text.
  - The `min="1"` of the installments field is a browser constraint the submit does not check.
    `BillsHook.NewBillRow` requires at least one installment.
  - The `min={today}` of the goal date field is not checked on submit.
- `Trends.GenerateHistoricalData`: the twelve months end at the current month, which is a
  parameter, and not at the selected month.
- `Text.ToUpper`: upper-casing covers Basic Latin and Latin-1 (with ÿ to Ÿ, µ to Μ and ß to SS).
  Letters of other scripts, and the other one-to-many expansions of the Unicode case table
  (ligatures such as ﬁ, or ŉ), are left unchanged, because the model carries no full case table.
- Row order. The store promises no order for `metas` and `cuentas_pendientes`, which are fetched
  without `.order`. For `transacciones` it promises none among rows of the same `fecha`. The
  model fixes table order for the first two, and a stable date order (ties in table order) for
  the third. The following lemmas state list equality under that fixed order; under another
  order the two lists hold the same entries but may differ in order:
  - `Store.SortWhere`: relies on the stable date order.
  - `TransactionsHook.DeleteMatchesReload`: relies on the stable date order.
  - `GoalsHook.DeleteMatchesReload`: relies on table order.
  - `GoalsHook.LoadAfterSetAccumulated`: relies on table order.
  - `GoalsHook.LoadAfterSetCompleted`: relies on table order.
  - `BillsHook.DeleteMatchesReload`: relies on table order.
  - `BillsHook.LoadAfterSetPayment`: relies on table order.
  - `GoalsHook.ContributionsCommute`: its equal lists rely on table order.
- `Expenses.SortByValueDesc`: `Array.prototype.sort` is stable, while the insertion sort here
  proves only order and permutation. The order among equal values is not stated.
- Not part of this model:
  - src/components/LoginPage.tsx (authentication);
  - src/components/FinancialSummary.tsx and src/components/SavingsSection.tsx, which only render
    values computed elsewhere;
  - the unused mock arrays of src/App.tsx.
- Fixed owner: the owner of inserted transactions is the fixed text "1". `usuarioId` is a string
  in the model, whatever its declared type in each hook.

## Findings

| source | as written | input that shows it | evidently intended | confidence | as-written member | corrected member |
|---|---|---|---|---|---|---|
| src/components/TrendsSection.tsx:32-42 | the monthly filters compare the type with 'income', 'expense' and 'saving' | any stored INGRESO of 3500 in the current month: the month's income reads 0 | compare with INGRESO, GASTO and AHORRO, the tags of src/App.tsx:24 | high, not executed | Trends.WrittenTagsGiveZero | Trends.StoredTagsMatchDashboard |
| src/components/ExpenseSection.tsx:59-72 | four weekly bars, days 1–28 | a GASTO of 100 dated 2025-01-29: the month's total is 100, the bars sum to 0 | bars that cover every day of the month | medium, not executed | Expenses.LateDayCounterexample | Expenses.WeeklyDataCoveringSums |
| src/components/AddGoalDialog.tsx:56-61 | the goal handed on has no description | description "Para diciembre": the listed goal has none | pass the typed description on to `addGoal` | high, not executed | AddGoalDialog.DescriptionDropped | AddGoalDialog.IntendedDescriptionKept |
| src/components/AddTransactionDialog.tsx:73 | the type is the tab name | income tab, amount "100", dated in the selected month: `monthlyIncome` is unchanged | INGRESO, GASTO or AHORRO for the income, expense and saving tabs | high, not executed | AddTransactionDialog.SubmittedNeverCounted | AddTransactionDialog.IntendedIncomeCounted |
| src/App.tsx:229 | the goal section's "use savings" calls the hook's `useGoalSavings` | a goal with 2000 saved, confirmed: it is marked used and no expense is recorded | wire `handleUseGoalSavings` (src/App.tsx:81-101), which also records the expense | medium, not executed | GoalsSection.GoalsSectionState.HandleUseGoalSaving | GoalsSection.GoalsSectionState.HandleUseGoalSavingIntended |

The first and fourth findings offset each other in one case. A transaction entered through the
dialog, with its tab-name tag, does reach the trends series, but it never reaches the dashboard's
figures. The corrected members use the stored tags throughout.
