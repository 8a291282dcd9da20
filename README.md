# Finance ledger store and recurrence scheduler, in Dafny

This project models the core of a personal finance app (`gastos-personales`).
The app records income and expense transactions against categories and accounts.
It keeps reusable "quick" transaction templates, some of which recur daily, weekly, every two weeks or monthly.
When the app starts, it turns every recurring template that is due into a transaction.

The model covers two source files:

- `context/FinanceContext.tsx`: the store. This is the state of four lists (transactions, categories, quick templates, accounts) plus a loaded flag.
  It covers the reducer with its twelve actions, the read-only queries (totals, account balance and spending, lookups by id), the default data set, the fallback used when the stored copy is loaded, and the start-up recurrence sweep.
- `utils/format.ts`: the recurrence decision `shouldExecToday`, the rule label `formatRecurrence`, the relative-date label `formatDate` and `groupByDate`.

Modules:

| file | module | contents |
|---|---|---|
| `Common.dfy` | `Common` | `Option`, and the list operations the reducer uses: `Filter`, `Without` (delete by id), `ReplaceById` (update by id), `FindById` |
| `Format.dfy` | `Format` | clock moments, recurrence rules, `ShouldExecToday`, `FormatRecurrence`, `FormatDate`, `GroupByDate` |
| `Ledger.dfy` | `Ledger` | entities, `Action`, `Reduce`, the queries, the default data, `LoadedState` |
| `Scheduler.dfy` | `Scheduler` | the recurrence sweep as a fold over the template list, and what it guarantees |
| `Store.dfy` | `Store` | class `FinanceStore`: one mutable `state`, `Dispatch`, `LoadFrom`, and the sweep loop `RunRecurrences`, proved equal to the fold |

Modelling choices:

- The clock is an input. A `Moment` is a millisecond timestamp plus the local-calendar values the code reads: day of month, weekday, month and year.
  Two moments are on the same day when those four values agree. That is exactly what `toDateString()` compares.
- Dates stored as ISO strings (`date`, `lastAutoExec`) are modelled as `Moment` values.
- Amounts are integers, in the currency's smallest unit. The source's `type` fields are named `kind`, because `type` is a reserved word in Dafny.
- Fresh ids are inputs. `RunRecurrences` takes one id per template; an id is used only if that template fires.
- The sweep reads the template list as it stood when the sweep began. It then applies each `ADD_TRANSACTION` and `UPDATE_QUICK` to the current state, in order. This matches the effect's closure over `state.quickTransactions`.
- `formatDate` returns a `DateLabel`. It is either one of the relative texts ("Hoy", "Ayer", "Hace N días") or the calendar date the locale formatter would print: day, month, and the year only when it differs from the current year.
  `groupByDate` keys on that label. JavaScript lists an object's entries in insertion order as long as no key looks like an integer. No label does, so the groups come out in order of first occurrence.

Three behaviours of the code that are easy to misread:

- New transactions, including those from the sweep, go to the front of the list, not the end (`context/FinanceContext.tsx:125`).
- The sweep skips a template whose amount is 0, as well as one with no amount (`!qt.amount`, `context/FinanceContext.tsx:212`).
- A second sweep on the same calendar day can still add a transaction.
  The same-day guard only stops a template that was stamped today (`SameDayGuard`, `FiredNotAgainSameDay`), and a re-run at the same moment changes nothing (`SweepIdempotent`).
  But a weekly or biweekly rule compares elapsed milliseconds. Suppose its last run was on another weekday (the edit form keeps `lastAutoExec` when the weekday is changed) or a daylight-saving shift shortened the week. Then its 6 (13) days can run out between two runs on the same day, and the later run fires it, once.
  `LaterRerunSameDayCanFire` gives a concrete case: a Monday rule last run on Tuesday 2 January 2024 at 10:00 is not due on Monday 8 January at 09:00 but is due at 11:00.

## Model

| member | source | states |
|---|---|---|
| `Common.Filter` | context/FinanceContext.tsx:267 | `filter` keeps exactly the elements satisfying the predicate and never returns more than its input |
| `Common.FilterMultiset` | context/FinanceContext.tsx:126 | a filter keeps every accepted element as often as it occurred and drops every rejected one |
| `Common.FilterSubsequence` | context/FinanceContext.tsx:126 | a filter never reorders: its result is a subsequence of the input |
| `Common.FilterSnoc` | utils/format.ts:41 | filtering a list with one more element at the back appends that element exactly when it passes |
| `Common.FilterFilter` | context/FinanceContext.tsx:273 | filtering by account and then by kind equals filtering once by the conjunction |
| `Common.Without` | context/FinanceContext.tsx:126 | delete by id: no entry with the id remains, every other entry keeps its multiplicity and relative order, and an absent id leaves the list unchanged |
| `Common.ReplaceById` | context/FinanceContext.tsx:128 | update by id: same length and ids; entries with the payload's id become the payload, all others are untouched |
| `Common.FindById` | context/FinanceContext.tsx:261-262 | `find` returns nothing exactly when no entry has the id, and otherwise the first entry with that id |
| `Common.FindAfterReplace` | context/FinanceContext.tsx:131 | after an update, looking the id up gives the payload if the id was present, and nothing otherwise |
| `Common.ReplaceAbsent` | context/FinanceContext.tsx:134 | updating with an id that is not present changes nothing |
| `Common.FindAppended` | context/FinanceContext.tsx:130 | an element appended with a fresh id is what a lookup of that id finds |
| `Format.IntToString` | utils/format.ts:59 | `${n}` renders an integer so that reading it back gives the same number |
| `Format.IntToStringInjective` | utils/format.ts:59 | different numbers render to different strings |
| `Format.SameDayIsEquivalence` | utils/format.ts:71 | `sameDay` behaves as string equality of the dates: reflexive, symmetric, transitive, blind to the time of day |
| `Format.ShouldExecToday` | utils/format.ts:68-90 | a due rule never ran earlier on today's calendar day, and an unrecognised frequency is never due |
| `Format.SameDayGuard` | utils/format.ts:73 | a last run on today's calendar day, at any hour, blocks every frequency |
| `Format.DailyDue` | utils/format.ts:76-77 | daily is due exactly when the same-day guard does not fire |
| `Format.MonthlyDue` | utils/format.ts:78-80 | monthly is due exactly when today is the rule's day of month (default 1) and there is no last run, or its month or year differs from today's |
| `Format.MonthlyAtMostOncePerMonth` | utils/format.ts:79-80 | a monthly rule that already ran this calendar month is not due |
| `Format.WeeklyDue` | utils/format.ts:81-86 | weekly/biweekly is due exactly when today is the rule's weekday (default Monday) and there is no last run, or it was on another day at least 6/13 days of milliseconds ago |
| `Format.FutureLastRunBlocksWeekly` | utils/format.ts:83 | a last run stamped in the future keeps weekly and biweekly rules from firing |
| `Format.BiweeklyDueImpliesWeeklyDue` | utils/format.ts:84-86 | a due biweekly rule would also be due as a weekly one |
| `Format.DueStaysDueLaterThatDay` | utils/format.ts:68-90 | a rule due at some moment stays due at any later moment of the same calendar day |
| `Format.WeeklyBoundary` | utils/format.ts:81-83 | with the weekday matching, exactly 6×24 h since the last run is due and 5×24 h is not |
| `Format.DayName` | utils/format.ts:48 | a day name (or `undefined` outside 0..6) is non-empty and starts with neither a digit nor a minus |
| `Format.FormatRecurrence` | utils/format.ts:57-65 | the label of a rule always decodes back to the rule's frequency, so no two frequencies share a label |
| `Format.MonthlyLabelDeterminesDay` | utils/format.ts:59 | two monthly rules with the same label have the same day of month |
| `Format.WeeklyLabelDeterminesDay` | utils/format.ts:60-61 | two weekly (biweekly) rules with in-range weekdays and the same label have the same weekday |
| `Format.WholeDaysBetween` | utils/format.ts:19-20 | the day count is the floor of the elapsed milliseconds divided by a day |
| `Format.FormatDate` | utils/format.ts:16-31 | a relative label exactly when fewer than 7 whole days have passed (negative counts included); otherwise the date's day and month, with the year exactly when it is not the current year |
| `Format.TodayAndYesterday` | utils/format.ts:20-23 | less than one day back is "Hoy"; one to two days back is "Ayer" |
| `Format.RelativeLabelDeterminesDays` | utils/format.ts:22-24 | dates with the same relative label lie the same number of whole days back |
| `Format.GroupByDate` | utils/format.ts:36-44 | the groups are the distinct labels in first-occurrence order, each with exactly the items carrying that label, in input order |
| `Format.LabelledEmpty` | utils/format.ts:40 | a label that no item carries has an empty group |
| `Format.LabelledSnoc` | utils/format.ts:41 | filing one more item extends only that item's group, at its end |
| `Format.LabelsDistinct` | utils/format.ts:37-43 | no label heads two groups |
| `Format.LabelsAreItemLabels` | utils/format.ts:38-41 | the group labels are exactly the labels of the items |
| `Format.LabelsPrefixStable` | utils/format.ts:40-43 | labels of a prefix of the input come first, in the same order, among the labels of the whole input |
| `Format.GroupMembership` | utils/format.ts:38-42 | every group is non-empty, and an item is in a group exactly when the group's label is its own |
| `Format.GroupSizesSnoc` | utils/format.ts:41 | one more item grows the total of a set of distinct groups by one exactly when its label is among them |
| `Format.GroupsPartitionItems` | utils/format.ts:36-44 | the group sizes add up to the number of items, so every item lands in exactly one group, once |
| `Ledger.Reduce` | context/FinanceContext.tsx:122-138 | `LOAD` replaces the state; every other action changes only its own list and keeps the loaded flag |
| `Ledger.AddTransactionPrepends` | context/FinanceContext.tsx:125 | a new transaction becomes the first one, the old ones follow unchanged, and nothing else changes |
| `Ledger.AddAppends` | context/FinanceContext.tsx:127-133 | a new category, template or account goes at the end, the old list is the prefix, and with a fresh id a lookup finds it |
| `Ledger.UpdateReplaces` | context/FinanceContext.tsx:128-134 | updates keep length and order, replace exactly the entries with the payload's id, make a lookup return the payload, and are the identity for an absent id |
| `Ledger.DeleteRemoves` | context/FinanceContext.tsx:126-135 | deletes leave no entry with the id, keep all others in order with their multiplicities, and are the identity for an absent id |
| `Ledger.SumFront` | context/FinanceContext.tsx:257 | the sum of a list with an element in front adds that element's amount |
| `Ledger.SplitByKind` | context/FinanceContext.tsx:257-258 | income sum minus expense sum of any list equals its signed running total |
| `Ledger.SumOfOneKind` | context/FinanceContext.tsx:257-258 | over transactions of one kind, the plain sum is the signed balance (negated for expenses) |
| `Ledger.TotalIncome` | context/FinanceContext.tsx:257 | `totalIncome` is what the income transactions add to the signed balance |
| `Ledger.TotalExpense` | context/FinanceContext.tsx:258 | `totalExpense` is what the expense transactions take from the signed balance |
| `Ledger.TotalBalance` | context/FinanceContext.tsx:259 | `totalBalance` is the signed sum of all transactions |
| `Ledger.AddTransactionTotals` | context/FinanceContext.tsx:257-259 | adding a transaction raises the total of its own kind by its amount, leaves the other total unchanged, and moves the balance by the signed amount |
| `Ledger.GetCategoryById` | context/FinanceContext.tsx:261 | nothing exactly when no category has the id; otherwise the first category with that id |
| `Ledger.GetAccountById` | context/FinanceContext.tsx:262 | nothing exactly when no account has the id; otherwise the first account with that id |
| `Ledger.InitialBalance` | context/FinanceContext.tsx:265-266 | the first account with the id gives its `initialBalance`, or 0 when unset; an unknown account gives 0 |
| `Ledger.GetAccountBalance` | context/FinanceContext.tsx:264-270 | an account's balance is its initial balance plus the signed sum of its transactions; with none, exactly the initial balance |
| `Ledger.GetAccountExpense` | context/FinanceContext.tsx:272-274 | the combined account-and-expense filter picks the same transactions as `getAccountBalance`'s account filter then kind filter, so the balance is initial balance plus the account's income minus `getAccountExpense` |
| `Ledger.AccountExpenseIgnores` | context/FinanceContext.tsx:272-274 | income, and transactions of other accounts or of none, do not change an account's expense |
| `Ledger.InitialState` | context/FinanceContext.tsx:175-181 | the store starts unloaded with no transactions |
| `Ledger.LoadedState` | context/FinanceContext.tsx:184-206 | the loaded state is marked loaded. A missing or unreadable copy gives the defaults with no transactions. A parsed copy keeps its lists, and missing template or account lists fall back to the defaults |
| `Scheduler.Materialize` | context/FinanceContext.tsx:215-225 | the transaction of a firing template carries the fresh id, is dated now, has no account, copies kind, amount, name, category and note, and never has amount 0 |
| `Scheduler.Step` | context/FinanceContext.tsx:212-228 | one iteration puts the template's transaction in front and stamps the template by id when it fires, and changes nothing otherwise |
| `Scheduler.Sweep` | context/FinanceContext.tsx:209-231 | before loading nothing happens; otherwise the new transactions go in front of the old, and categories, accounts, flag and template count are kept |
| `Scheduler.SweepOverEffect` | context/FinanceContext.tsx:209-231 | the sweep puts its new transactions in front of the old, untouched ones, and keeps categories, accounts, the loaded flag and the template count |
| `Scheduler.NewTransactionsFromFiring` | context/FinanceContext.tsx:211-226 | each firing template yields one transaction built from it (kind, amount, name, category, note, no account, dated now); every new transaction comes from one; their count is the number of firing templates |
| `Scheduler.QuietSweepChangesNothing` | context/FinanceContext.tsx:211-213 | a sweep where no template fires changes nothing |
| `Scheduler.StampedDoesNotFire` | context/FinanceContext.tsx:227 | a template stamped at a moment does not fire again at that moment |
| `Scheduler.SweepStamps` | context/FinanceContext.tsx:227 | with distinct ids, each firing template ends up stamped with the sweep's moment and every other template is unchanged |
| `Scheduler.FiredNotAgainSameDay` | context/FinanceContext.tsx:227 | with distinct ids, a template a sweep fires does not fire in any later sweep on the same calendar day |
| `Scheduler.SweepSettlesFrom` | context/FinanceContext.tsx:211-229 | after the loop, no template (stamped or not) can fire again at the same moment, whatever the ids |
| `Scheduler.SweepIdempotent` | context/FinanceContext.tsx:209-231 | running the sweep again at the same moment changes nothing |
| `Scheduler.IneligibleNeverFires` | context/FinanceContext.tsx:212 | a template with no recurrence, or a missing or zero amount, never fires |
| `Scheduler.LaterRerunSameDayCanFire` | context/FinanceContext.tsx:209-231 | a Monday rule last run on Tuesday 2 January 2024 at 10:00 is not fired by a sweep on Monday 8 January at 09:00, but is fired by one at 11:00 the same day |
| `Store.FinanceStore.constructor` | context/FinanceContext.tsx:175-181 | the store starts in the reducer's initial state |
| `Store.FinanceStore.Dispatch` | context/FinanceContext.tsx:122-138 | dispatching applies the reducer to the current state |
| `Store.FinanceStore.LoadFrom` | context/FinanceContext.tsx:184-206 | the start-up load leaves the store in the loaded state |
| `Store.FinanceStore.RunRecurrences` | context/FinanceContext.tsx:209-231 | the loop of dispatches leaves exactly the state the sweep fold describes |

## Left out

- Storage I/O is not modelled: `AsyncStorage` reads and writes, JSON parsing, and the persist-on-change effect (`context/FinanceContext.tsx:234-237`). Loading is modelled as an input: the copy is missing, unreadable, or parsed.
- A parsed copy that lacks `transactions` or `categories` is not modelled. The source does not default those two lists.
- The action creators `addTransaction` … `deleteAccount` (`context/FinanceContext.tsx:240-255`) are not modelled one by one. Each one dispatches a single action whose payload gets a `makeId` id and, for transactions, the current date. The model takes the finished payload and `Dispatch`es it.
- `makeId` and every `new Date()` are inputs, not clock or random reads. The sweep uses one moment for the whole loop. The source reads the clock again for each template, microseconds apart.
- The timezone link between a timestamp and its calendar values is not modelled: the calendar values are free fields. The locale text of `toLocaleDateString`, `toDateString` and `formatCurrency` is also left out.
- An empty-string `lastAutoExec` (falsy, so treated as "never ran") and unparseable date strings are not modelled.
- `dayOfMonth` values that are not whole numbers are not modelled; amounts are integers, not floating-point numbers.
- Format.IntToString: prints every digit of any integer. JavaScript prints a number beyond 2^53 as its shortest round-trip digits, and one from 10^21 on in exponent form. So the monthly label for a `dayOfMonth` that large is not modelled.
- React scheduling is not modelled. The sweep effect runs once when `isLoaded` becomes true; the model calls `RunRecurrences` explicitly.
- The reducer's `default` branch is not modelled, because a typed action never reaches it.
- Transfers are not modelled: `addTransfer` is called by the transfer screen but not defined in the store's source. Category totals and over-budget/over-limit checks are not modelled either, since they are computed in screens outside this core.
- Scheduler.SweepStamps: assumes distinct template ids, which `makeId` provides. With duplicate ids, an update overwrites every entry that shares the id. `SweepIdempotent` and `SweepSettlesFrom` cover that case without the assumption.
