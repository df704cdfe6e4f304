# Recur: the monthly ledger, modelled in Dafny

Recur (`mi-gestor-suscripciones`) is a subscription and expense tracker. This project models the part of it that computes things:

- **Dashboard month.** For the selected month, the dashboard:
  - derives the first and last day of the month as `YYYY-MM-DD` strings;
  - asks for the expenses dated between them;
  - if the month is empty and there are active subscriptions, generates one recurring expense per subscription, dated on day 1 ("lazy generation");
  - otherwise shows what is stored;
  - sums the month's expenses and groups them by category for the chart;
  - derives the free-to-spend amount, the clamped percentage left and a three-tier status banner.
- **Analytics history.** The analytics page:
  - buckets every monthly budget and every expense by its `YYYY-MM` month key (a budget overwrites the month's income, an expense adds to the month's expenses);
  - sorts the months by key;
  - falls back to the profile income when a month's income is not positive;
  - computes each month's savings and their running total;
  - shows no history and a zero total when a stored date does not read as a date, because formatting its month label throws and the error is caught before the state is set.
- **Category chart.** The chart component groups whatever list of subscriptions it is given by category (in first-seen order of that list), with their prices summed, and renders nothing for an empty list.
- **Month selector.** The previous and next buttons copy the current date and move the copy with `setMonth(getMonth() ± 1)`.

Modules, in the order they depend on each other:

| module | what it holds |
|---|---|
| `Options` (options.dfy) | `Option`, standing for a JavaScript `null` or absent answer |
| `Records` (records.dfy) | the database rows: subscriptions, expenses, new expenses, profiles, monthly budgets |
| `Strings` (strings.dfy) | `String(n)`, `padStart`, and the code-point order of strings |
| `Calendar` (calendar.dfy) | local dates; JavaScript's `Date` normalisation (`new Date(y, m, d)`, `setMonth`); the `YYYY-MM-DD` and `YYYY-MM` forms of ISO 8601:2004 sections 5.2.1.1 and 5.2.1.2; an independent day count used as the reference for normalisation |
| `Grouping` (grouping.dfy) | the category `reduce` shared by both charts, with a reference definition of a breakdown |
| `Dashboard` (dashboard.dfy) | the month query, generate-or-reuse, totals, percentages, banding, and `fetchData` as a method of a `DashboardState` class |
| `Analytics` (analytics.dfy) | `initMonth`, the two bucketing passes over an insertion-ordered map, the sort, the income fallback and the savings total |
| `CategoryChart` (category_chart.dfy) | the subscription breakdown and the empty-list case |
| `MonthSelector` (month_selector.dfy) | a `DateObject` class with `setMonth`, the two handlers, and a finding |

Conventions:

- Money is an `int`, a count of cents. Percentages are `real`.
- A date string is what the database returns for a `date` column, a `YYYY-MM-DD` string.
- The query results (profile, subscriptions, the month's expenses, budgets, all expenses) are parameters.
- The database `insert` is a function parameter that may return nothing.

## Model

| member | source | states |
|---|---|---|
| Strings.NatString | mi-gestor-suscripciones/src/app/dashboard/page.tsx:17-19 | `String(n)` is a non-empty run of digits, one digit exactly when n < 10 |
| Strings.PadStartShape | mi-gestor-suscripciones/src/app/dashboard/page.tsx:18-19 | `padStart` gives a string of the target width (or the input if longer): fill characters, then the input unchanged |
| Strings.Pad2IsDigits2 | mi-gestor-suscripciones/src/app/dashboard/page.tsx:18-19 | `String(n).padStart(2,'0')` is exactly the two decimal digits of any n below 100 |
| Strings.Digits2Value | mi-gestor-suscripciones/src/app/dashboard/page.tsx:18-19 | the two-digit form reads back as the number |
| Strings.NatString4 | mi-gestor-suscripciones/src/app/dashboard/page.tsx:17 | a four-digit year prints as its two pairs of digits |
| Strings.Digits4Value | mi-gestor-suscripciones/src/app/dashboard/page.tsx:17 | a four-digit year prints as four digits that read back as the year |
| Strings.LexLess | mi-gestor-suscripciones/src/app/analytics/page.tsx:77-79 | the string order of the sort and of the range filter: a proper prefix comes first (its other properties are the four lemmas below) |
| Strings.LexLessIrreflexive | mi-gestor-suscripciones/src/app/analytics/page.tsx:77-79 | the string order used as the sort's comparator never puts a key before itself |
| Strings.LexLessAsymmetric | mi-gestor-suscripciones/src/app/analytics/page.tsx:77-79 | no two keys are each before the other |
| Strings.LexLessTransitive | mi-gestor-suscripciones/src/app/analytics/page.tsx:77-79 | the order is transitive |
| Strings.LexLessTotal | mi-gestor-suscripciones/src/app/analytics/page.tsx:77-79 | any two distinct keys are ordered one way or the other |
| Strings.LexLessConcat | mi-gestor-suscripciones/src/app/dashboard/page.tsx:115-116 | strings whose first parts have equal length compare by the first parts, then by the rest |
| Strings.Digits2Order | mi-gestor-suscripciones/src/app/dashboard/page.tsx:115-116 | two-digit fields compare as their numbers do, and are equal exactly when the numbers are |
| Strings.MonthFormOrder | mi-gestor-suscripciones/src/app/analytics/page.tsx:77-79 | `YYYY-MM` forms compare as (year, month) pairs, and are equal exactly when the pairs are |
| Strings.DateFormOrder | mi-gestor-suscripciones/src/app/dashboard/page.tsx:115-116 | `YYYY-MM-DD` forms compare as (year, month, day) triples, and are equal exactly when the triples are |
| Strings.DateFormFields | mi-gestor-suscripciones/src/app/dashboard/page.tsx:20 | a `YYYY-MM-DD` form is ten characters, hyphens at positions 4 and 7, the year's, month's and day's digits in their places |
| Strings.MonthFormIsPrefix | mi-gestor-suscripciones/src/app/analytics/page.tsx:47 | the `YYYY-MM` form of a date is the first seven characters of its `YYYY-MM-DD` form |
| Calendar.DaysInMonth | mi-gestor-suscripciones/src/app/dashboard/page.tsx:27-29 | every month has 28 to 31 days |
| Calendar.NextMonth | mi-gestor-suscripciones/src/components/month-selector.tsx:20-24 | the month after is a month 1..12 exactly one month later (December rolls into January) |
| Calendar.PrevMonth | mi-gestor-suscripciones/src/components/month-selector.tsx:13-17 | the month before is a month 1..12 exactly one month earlier (January rolls back into December) |
| Calendar.CarryDays | mi-gestor-suscripciones/src/app/dashboard/page.tsx:24 | carrying excess days into later months (or missing days into earlier ones) gives a valid date, the same date when the day already fits |
| Calendar.CarryDaysDayNumber | mi-gestor-suscripciones/src/app/dashboard/page.tsx:24 | the carried date is `day - 1` days after the first of the month, by an independent day count |
| Calendar.MakeDate | mi-gestor-suscripciones/src/components/month-selector.tsx:15 | date normalisation with an out-of-range month index and day always gives a valid date |
| Calendar.MakeDateIsDayOffset | mi-gestor-suscripciones/src/components/month-selector.tsx:15 | the normalised date is the unique valid date `day - 1` days after the first of the normalised month |
| Calendar.DayNumberOrder | mi-gestor-suscripciones/src/app/dashboard/page.tsx:24 | the reference day count orders dates chronologically and tells them apart |
| Calendar.NewLocalDate | mi-gestor-suscripciones/src/app/dashboard/page.tsx:24 | `new Date(y, m, d)` always yields a valid date |
| Calendar.IsoDateString | mi-gestor-suscripciones/src/app/dashboard/page.tsx:16-21 | `toISODateString` of a date in a four-digit year is the year's two digit pairs, the zero-padded month and the zero-padded day, hyphen-separated |
| Calendar.IsoDateShape | mi-gestor-suscripciones/src/app/dashboard/page.tsx:16-21 | for a four-digit year `toISODateString` writes exactly `YYYY-MM-DD`, with month and day zero-padded |
| Calendar.ParseIsoDate | mi-gestor-suscripciones/src/app/analytics/page.tsx:46 | reading a stored date string gives, when it succeeds, a valid date with a year of at most four digits |
| Calendar.IsoDateRoundTrip | mi-gestor-suscripciones/src/app/dashboard/page.tsx:16-21 | reading back what `toISODateString` wrote yields the same date |
| Calendar.IsoDateOrder | mi-gestor-suscripciones/src/app/dashboard/page.tsx:115-116 | ISO date strings compare exactly as their dates do, and are equal exactly when the dates are |
| Calendar.StartOfMonthDate | mi-gestor-suscripciones/src/app/dashboard/page.tsx:23-25 | `new Date(y, m-1, 1)` is day 1 of the same year and month |
| Calendar.EndOfMonthDate | mi-gestor-suscripciones/src/app/dashboard/page.tsx:27-29 | day 0 of the next month is the month's last day: 31 December stays in its year; February ends on the 29th in leap years and the 28th otherwise |
| Calendar.StartOfMonthTwoDigitYear | mi-gestor-suscripciones/src/app/dashboard/page.tsx:24 | for years 0 to 99 the constructor moves the month into the 1900s |
| Calendar.EndOfMonthTwoDigitYear | mi-gestor-suscripciones/src/app/dashboard/page.tsx:28 | for years 0 to 99 day 0 of the next month is the last day of the same month in the 1900s |
| Calendar.SameMonthSameRange | mi-gestor-suscripciones/src/app/dashboard/page.tsx:23-29 | two dates of the same month give the same start and end strings |
| Calendar.StartOfMonthStr | mi-gestor-suscripciones/src/app/dashboard/page.tsx:23-25 | the start string is the ISO string of day 1 of the month; for years 0 to 99, of day 1 of the same month in the 1900s |
| Calendar.EndOfMonthStr | mi-gestor-suscripciones/src/app/dashboard/page.tsx:27-29 | the end string is the ISO string of the month's last day, and of the same month's last day in the 1900s for years 0 to 99 |
| Calendar.DateRangeSelects | mi-gestor-suscripciones/src/app/dashboard/page.tsx:115-116 | a date's string lies between the month's first-day and last-day strings exactly when the date is in that month |
| Calendar.MonthRangeSelectsMonth | mi-gestor-suscripciones/src/app/dashboard/page.tsx:108-116 | the `gte(start)`/`lte(end)` filter admits the ISO string of a date exactly when the date is in the viewed month |
| Calendar.MonthKeyShape | mi-gestor-suscripciones/src/app/analytics/page.tsx:47 | a month key is `YYYY-MM` with the month zero-padded |
| Calendar.MonthKeyIsIsoPrefix | mi-gestor-suscripciones/src/app/analytics/page.tsx:47 | a date's month key is the first seven characters of its ISO date string |
| Calendar.MonthKeyOrder | mi-gestor-suscripciones/src/app/analytics/page.tsx:77-79 | month keys compare chronologically, and are equal exactly for the same year and month |
| Calendar.MonthKeyOfDateString | mi-gestor-suscripciones/src/app/analytics/page.tsx:45-47 | the key of a date string is `NaN-NaN` (what an Invalid Date prints) exactly when the string does not read as a date, and otherwise the key of the parsed date's year and month |
| Calendar.MonthKeyIsNotInvalid | mi-gestor-suscripciones/src/app/analytics/page.tsx:47 | no month key of a real year and month is `NaN-NaN` |
| Calendar.MonthKeyOfIsoDate | mi-gestor-suscripciones/src/app/analytics/page.tsx:46-47 | the key derived from an ISO date string is that date's year and month |
| Grouping.FindSlice | mi-gestor-suscripciones/src/app/dashboard/page.tsx:220 | `acc.find` returns the first entry with the name, or reports that there is none |
| Grouping.AddItem | mi-gestor-suscripciones/src/components/category-chart.tsx:30-35 | one step of the reduce keeps the existing entries' names and order, and leaves an entry for the item's category, appended only when there was none |
| Grouping.Grouped | mi-gestor-suscripciones/src/components/category-chart.tsx:29-36 | the reduce from an empty accumulator has at most one entry per item, and none exactly when there are no items |
| Grouping.GroupByCategory | mi-gestor-suscripciones/src/app/dashboard/page.tsx:219-224 | the in-place reduce yields the breakdown: distinct names, exactly the categories present, in first-seen order, each the sum of its amounts; the values add up to the total; at most one entry per item, and none exactly when there are no items |
| Grouping.GroupedIsBreakdown | mi-gestor-suscripciones/src/components/category-chart.tsx:29-37 | the reduce's result meets the reference definition of a breakdown |
| Grouping.AddItemKeepsBreakdown | mi-gestor-suscripciones/src/components/category-chart.tsx:30-35 | adding to an existing entry or pushing a new one keeps a breakdown a breakdown |
| Grouping.GroupedTotal | mi-gestor-suscripciones/src/components/category-chart.tsx:29-37 | the entry values sum to the total of the amounts |
| Dashboard.MonthQuery | mi-gestor-suscripciones/src/app/dashboard/page.tsx:111-116 | the range query returns only stored rows between the start and end strings, and every stored row between them |
| Dashboard.MonthQueryAppend | mi-gestor-suscripciones/src/app/dashboard/page.tsx:111-116 | querying more rows returns the rows of each part, in order |
| Dashboard.MonthQuerySelectsMonth | mi-gestor-suscripciones/src/app/dashboard/page.tsx:108-116 | an expense dated in a four-digit year is in the query's range exactly when its date is in the viewed month |
| Dashboard.RecurringBatch | mi-gestor-suscripciones/src/app/dashboard/page.tsx:123-130 | one new expense per subscription, in order, copying name, price as amount and category, dated on the start string, marked recurring |
| Dashboard.PlanMonth | mi-gestor-suscripciones/src/app/dashboard/page.tsx:120-136 | it generates exactly when the month's answer is null or empty and the subscriptions are present and non-empty; when it generates, the batch is the one built from the subscriptions and the month's start string; otherwise the month's set is the stored list, or empty for a null answer |
| Dashboard.ExpensesAfter | mi-gestor-suscripciones/src/app/dashboard/page.tsx:120-136 | the month's list after the branch: the stored list when reusing, the insert's answer when generating, and the previous list when the insert answers nothing |
| Dashboard.MonthStartIsDayOne | mi-gestor-suscripciones/src/app/dashboard/page.tsx:128 | the generated date reads back as day 1 of the viewed month and lies inside the month's range |
| Dashboard.GeneratedMonthIsInserted | mi-gestor-suscripciones/src/app/dashboard/page.tsx:132-133 | after generating, the month's list is what the insert returned; an insert that returns nothing keeps the previous list |
| Dashboard.GenerateOnePerSubscription | mi-gestor-suscripciones/src/app/dashboard/page.tsx:120-130 | a month whose answer is empty or null, with subscriptions, generates exactly one record per subscription, with the fields as above |
| Dashboard.StoredMonthIsReused | mi-gestor-suscripciones/src/app/dashboard/page.tsx:134-136 | a month holding any expense generates nothing, and its set is exactly the stored list |
| Dashboard.EmptyMonthWithoutSubscriptions | mi-gestor-suscripciones/src/app/dashboard/page.tsx:120-136 | with no expenses and no subscriptions the month's set is empty |
| Dashboard.ReloadAfterGenerationReuses | mi-gestor-suscripciones/src/app/dashboard/page.tsx:111-136 | once the generated batch is stored, the same query returns exactly that batch and the next load reuses it: generation happens once |
| Dashboard.ReloadAnswerIsBatch | mi-gestor-suscripciones/src/app/dashboard/page.tsx:111-136 | in whatever order the database returns the reload's rows, they are the stored batch as a multiset, one per subscription, and the next load reuses them |
| Dashboard.AllInRange | mi-gestor-suscripciones/src/app/dashboard/page.tsx:115-116 | rows all dated on the start string all pass the range filter |
| Dashboard.ReloadMonth | mi-gestor-suscripciones/src/app/dashboard/page.tsx:108-136 | for a real month: after generation the reload finds exactly the generated rows, one per subscription, and reuses them |
| Dashboard.TotalExpenses | mi-gestor-suscripciones/src/app/dashboard/page.tsx:216 | `totalExpenses`: never negative when no amount is, and a single expense's amount for a one-expense month (additivity is the next row) |
| Dashboard.TotalExpensesAppend | mi-gestor-suscripciones/src/app/dashboard/page.tsx:216 | the total of a concatenation is the sum of the totals |
| Dashboard.ChartItems | mi-gestor-suscripciones/src/app/dashboard/page.tsx:219-222 | the chart reads each expense's category and amount, in order |
| Dashboard.ChartItemsTotal | mi-gestor-suscripciones/src/app/dashboard/page.tsx:216-224 | the chart's items add up to `totalExpenses` |
| Dashboard.ChartData | mi-gestor-suscripciones/src/app/dashboard/page.tsx:219-224 | the chart data is the breakdown of the month's expenses, and its values sum to `totalExpenses`; it is empty exactly for an empty month |
| Dashboard.PercentageLeft | mi-gestor-suscripciones/src/app/dashboard/page.tsx:227 | 0 when income is not positive; otherwise the share of income left, times 100 |
| Dashboard.Clamp | mi-gestor-suscripciones/src/app/dashboard/page.tsx:228 | the result lies in [0, 100], equal to the input inside it, and 0 or 100 outside |
| Dashboard.ValidPercentage | mi-gestor-suscripciones/src/app/dashboard/page.tsx:226-228 | always in [0, 100]; 0 when income is not positive or the month is overspent; the exact share when it lies in range; the same tier as the unclamped percentage |
| Dashboard.TierMonotone | mi-gestor-suscripciones/src/app/dashboard/page.tsx:230-233 | more money left never gives a worse tier |
| Dashboard.TierOf | mi-gestor-suscripciones/src/app/dashboard/page.tsx:230-233 | critical exactly below 20, warning exactly from 20 to below 50, fine exactly from 50 |
| Dashboard.TierOfClamped | mi-gestor-suscripciones/src/app/dashboard/page.tsx:228-233 | clamping never changes the tier |
| Dashboard.StatusBanner | mi-gestor-suscripciones/src/app/dashboard/page.tsx:230-233 | below 20: red and critical; from 20 to below 50: yellow and a warning; from 50: green and fine |
| Dashboard.Summarize | mi-gestor-suscripciones/src/app/dashboard/page.tsx:216-233 | the month's figures: the total, its breakdown summing to it, `remaining + total + savingsGoal == income` (so `remaining` may be negative), the clamped percentage and the banner |
| Dashboard.PercentageBounds | mi-gestor-suscripciones/src/app/dashboard/page.tsx:227 | with positive income and 0 to income left, the percentage lies in [0, 100] |
| Dashboard.NegativeShare | mi-gestor-suscripciones/src/app/dashboard/page.tsx:227-228 | an overspent month has a negative unclamped percentage |
| Dashboard.RemainingIsComplementOfUsed | mi-gestor-suscripciones/src/app/dashboard/page.tsx:226-227 | the percentage left is 100 minus the share of income used by expenses and the savings goal |
| Dashboard.DashboardState.constructor | mi-gestor-suscripciones/src/app/dashboard/page.tsx:92-143 | the initial state is empty lists and zero income and goal |
| Dashboard.DashboardState.FetchData | mi-gestor-suscripciones/src/app/dashboard/page.tsx:92-136 | a profile sets income and goal (null fields as 0), or nothing changes without one; subscriptions are set when the answer is present; the range strings are those of the date's month; the expenses become what generate-or-reuse gives |
| Dashboard.DashboardState.LoadMonth | mi-gestor-suscripciones/src/app/dashboard/page.tsx:120-136 | only the expense list changes, to what generate-or-reuse gives |
| Analytics.BudgetFilings | mi-gestor-suscripciones/src/app/analytics/page.tsx:65-66 | one filing per budget, in order (what each one holds is `Analytics.BudgetFilingAt`) |
| Analytics.ExpenseFilings | mi-gestor-suscripciones/src/app/analytics/page.tsx:71-72 | one filing per expense, in order (what each one holds is `Analytics.ExpenseFilingAt`) |
| Analytics.BudgetFilingAt | mi-gestor-suscripciones/src/app/analytics/page.tsx:66 | the i-th budget is filed under its own month key with its own income |
| Analytics.ExpenseFilingAt | mi-gestor-suscripciones/src/app/analytics/page.tsx:72 | the i-th expense is filed under its own month key with its own amount |
| Analytics.FindKey | mi-gestor-suscripciones/src/app/analytics/page.tsx:49 | the first position of a key in the map, or -1 exactly when the key is absent |
| Analytics.Lookup | mi-gestor-suscripciones/src/app/analytics/page.tsx:67 | `monthsMap.get` finds something exactly when the key is present, and what it finds carries that key |
| Analytics.LookupMember | mi-gestor-suscripciones/src/app/analytics/page.tsx:67 | with unique keys, every entry is what its key looks up |
| Analytics.InitMonth | mi-gestor-suscripciones/src/app/analytics/page.tsx:45-63 | returns the date's month key; it fails, changing nothing, exactly when the key is new and the date does not read as a date (formatting the label of an Invalid Date throws); otherwise the key's entry is the old one, or a zero entry if there was none; every other key is unaffected; keys stay unique; the old entries are kept in insertion order |
| Analytics.LookupAppend | mi-gestor-suscripciones/src/app/analytics/page.tsx:53 | appending an entry for a new key makes it findable and leaves the other keys alone |
| Analytics.Put | mi-gestor-suscripciones/src/app/analytics/page.tsx:67-74 | updating an entry in place changes only that key's value and keeps the map's size and unique keys |
| Analytics.Insert | mi-gestor-suscripciones/src/app/analytics/page.tsx:77-79 | one sorting step adds the entry and changes nothing else (a multiset) |
| Analytics.SortByKey | mi-gestor-suscripciones/src/app/analytics/page.tsx:77-79 | the sort keeps the entries as a multiset |
| Analytics.HasKeyMultiset | mi-gestor-suscripciones/src/app/analytics/page.tsx:77-79 | sorting does not change the set of keys |
| Analytics.InsertAscending | mi-gestor-suscripciones/src/app/analytics/page.tsx:77-79 | one sorting step keeps the keys in non-decreasing order |
| Analytics.InsertStrict | mi-gestor-suscripciones/src/app/analytics/page.tsx:77-79 | inserting a new key keeps the keys strictly ascending |
| Analytics.SortByKeySorted | mi-gestor-suscripciones/src/app/analytics/page.tsx:77-79 | the sort's keys are non-decreasing, and strictly ascending when they were unique |
| Analytics.FiledSnoc | mi-gestor-suscripciones/src/app/analytics/page.tsx:65-75 | one more record: filed under its key, its amount the key's last amount, and its amount added to the key's sum |
| Analytics.NotFiled | mi-gestor-suscripciones/src/app/analytics/page.tsx:57-59 | a month with no record of a kind has 0 for it |
| Analytics.BudgetStep | mi-gestor-suscripciones/src/app/analytics/page.tsx:65-69 | one budget sets its month's income and changes no other month |
| Analytics.ExpenseStep | mi-gestor-suscripciones/src/app/analytics/page.tsx:71-75 | one expense adds to its month's expenses and changes no other month |
| Analytics.RecordBudget | mi-gestor-suscripciones/src/app/analytics/page.tsx:65-69 | the budget callback fails exactly when the date's key is `NaN-NaN` and not yet in the map; otherwise the month's entry, found or created, gets the budget's income and other months are unchanged; keys stay unique |
| Analytics.RecordExpense | mi-gestor-suscripciones/src/app/analytics/page.tsx:71-75 | the expense callback fails exactly when the date's key is `NaN-NaN` and not yet in the map; otherwise the amount is added to the month's entry, found or created, and other months are unchanged; keys stay unique |
| Analytics.BucketBudgets | mi-gestor-suscripciones/src/app/analytics/page.tsx:43-69 | the budgets pass fails exactly when some budget is filed under `NaN-NaN`; otherwise each key's entry is present exactly when some budget has that key, with the last such budget's income |
| Analytics.BucketExpenses | mi-gestor-suscripciones/src/app/analytics/page.tsx:71-75 | the expenses pass fails exactly when some expense is filed under `NaN-NaN`; otherwise a key is present exactly when some budget or expense has it, with the budget income kept and the sum of that month's expense amounts |
| Analytics.SortedEntries | mi-gestor-suscripciones/src/app/analytics/page.tsx:77-79 | the sorted months are strictly ascending by key, hold exactly the keys that have a record (no zero-filled gaps), and each holds its expected figures |
| Analytics.SummarizeMonths | mi-gestor-suscripciones/src/app/analytics/page.tsx:81-88 | the final pass keeps key and expenses, sets income to the fallback and savings to income minus expenses, and the running total is the sum of all savings, negative months included |
| Analytics.HistoryMeetsSpec | mi-gestor-suscripciones/src/app/analytics/page.tsx:77-88 | the final pass keeps the order, the set of keys and each month's expense total |
| Analytics.UnparsableIsFiledInvalid | mi-gestor-suscripciones/src/app/analytics/page.tsx:45-50 | some record is filed under `NaN-NaN` exactly when some record's date does not read as a date |
| Analytics.LoadHistory | mi-gestor-suscripciones/src/app/analytics/page.tsx:24-96 | when some budget or expense date does not read as a date, the history stays empty and the total 0 (the throw is caught before `setData`); otherwise the history is strictly ascending by month key (so no key repeats); it holds exactly the months with a budget or an expense; each month's income is the last budget's (falling back to the profile income, or 0 without a profile), its expenses the sum of its expenses, its savings the difference; the total saved is the sum of the savings |
| Analytics.HistoryIsChronological | mi-gestor-suscripciones/src/app/analytics/page.tsx:77-79 | for four-digit years, history order is calendar order, and two entries are the same month exactly when they are the same entry |
| Analytics.ExpenseFiledUnderItsMonth | mi-gestor-suscripciones/src/app/analytics/page.tsx:46-47 | an expense dated with `toISODateString` is filed under its date's year and month |
| Analytics.IncomeFallback | mi-gestor-suscripciones/src/app/analytics/page.tsx:42-85 | a month shows its recorded income when positive and the default otherwise (also when no budget names it); savings are income minus expenses |
| Analytics.LastBudgetWins | mi-gestor-suscripciones/src/app/analytics/page.tsx:65-69 | budgets overwrite: a month's income is that of the last budget filed under it |
| Analytics.SumAmountAppend | mi-gestor-suscripciones/src/app/analytics/page.tsx:71-75 | a month's expense sum is additive over the list |
| CategoryChart.PriceItems | mi-gestor-suscripciones/src/components/category-chart.tsx:29-35 | the reduce reads each subscription's category and price, in order |
| CategoryChart.PriceItemsTotal | mi-gestor-suscripciones/src/components/category-chart.tsx:29-37 | those items add up to the total price |
| CategoryChart.CategoryData | mi-gestor-suscripciones/src/components/category-chart.tsx:29-39 | nothing is rendered exactly for an empty list; otherwise the data is the breakdown of the subscriptions by category (distinct names, first-seen order, each the sum of its prices), summing to the total price, with between 1 and as many entries as subscriptions |
| MonthSelector.DateObject.Copy | mi-gestor-suscripciones/src/components/month-selector.tsx:14 | `new Date(currentDate)` is a separate object with the same date |
| MonthSelector.DateObject.SetMonth | mi-gestor-suscripciones/src/components/month-selector.tsx:15 | `setMonth` keeps the year and the day of the month, moves to the month index, and normalises the result to a valid date |
| MonthSelector.StepMonth | mi-gestor-suscripciones/src/components/month-selector.tsx:15 | the moved date is always valid |
| MonthSelector.HandlePrev | mi-gestor-suscripciones/src/components/month-selector.tsx:13-17 | the handler passes on a fresh object moved back one month, and `currentDate` is left unchanged |
| MonthSelector.HandleNext | mi-gestor-suscripciones/src/components/month-selector.tsx:20-24 | the same, one month forward |
| MonthSelector.CarryOnce | mi-gestor-suscripciones/src/components/month-selector.tsx:22 | a day up to 28 past a month's end lands in the next month |
| MonthSelector.StepBack | mi-gestor-suscripciones/src/components/month-selector.tsx:13-17 | back: the previous month with the same day if it has that day, otherwise the excess days spill back into the current month |
| MonthSelector.StepForward | mi-gestor-suscripciones/src/components/month-selector.tsx:20-24 | forward: the next month with the same day if it has that day, otherwise the excess spills into the month after |
| MonthSelector.YearRollover | mi-gestor-suscripciones/src/components/month-selector.tsx:13-24 | January goes back to December of the year before; December goes forward to January of the year after; the day is kept |
| MonthSelector.ShortDaysKept | mi-gestor-suscripciones/src/components/month-selector.tsx:13-24 | days up to the 28th are kept by both buttons |
| MonthSelector.BackThenForward | mi-gestor-suscripciones/src/components/month-selector.tsx:13-24 | previous then next returns the original date when the previous month has the day |
| MonthSelector.ForwardThenBack | mi-gestor-suscripciones/src/components/month-selector.tsx:13-24 | next then previous returns the original date when the next month has the day |
| MonthSelector.StepMonthMissesFebruary | mi-gestor-suscripciones/src/components/month-selector.tsx:13-24 | in every year, back from 31 March and forward from 31 January both land on day 31 − (February's length) of March: neither reaches the neighbouring month |
| MonthSelector.ShiftMonthLandsInNeighbour | mi-gestor-suscripciones/src/components/month-selector.tsx:13-24 | the corrected step always lands in the neighbouring month, keeps the day when it exists there, and then agrees with the button |

## Left out

- **Supabase, auth, routing and React.** The queries, the insert, state hooks, `setLoading`, `finally` and `console` output are left out. Of the `try`/`catch` blocks, only the history load's failure on an unreadable date is modelled. Query answers are parameters (`None` for `null`). The insert is a function parameter that may return nothing.
- **Query ordering.** The database's `.order('price', { ascending: false })` (dashboard/page.tsx:104) and `.order('date', { ascending: false })` (dashboard/page.tsx:117) sorts are not modelled. The rows are taken in the order they are passed in. The `.eq('user_id')` and `.eq('active', true)` filters are assumed to have been applied to the rows passed in.
- Dashboard.MonthQuery: returns the rows in stored order, not in the database's date-descending order. `Dashboard.QueryAnswer` and `Dashboard.ReloadAnswerIsBatch` state the reload result for an answer in any order, as a multiset.
- Dashboard.ReloadAfterGenerationReuses: its sequence equality holds for rows in stored order. For the database's own order, only the multiset form of `Dashboard.ReloadAnswerIsBatch` is stated.
- Dashboard.ReloadMonth: the same, for the viewed month.
- Dashboard.RecurringBatch: follows the order of the subscriptions passed in. The dashboard passes them sorted by descending price, and that sort is not modelled.
- Dashboard.ChartData: categories come in first-seen order of the expenses passed in. With the database's date-descending order, that is the order shown.
- Dashboard.InRange: assumes the database compares the `date` column as text, by code point. For ISO strings of four-digit years this is date order (`Calendar.IsoDateOrder`), which is how a `date` column compares.
- **The income form.** `setIncomeForm` (dashboard/page.tsx:100) holds display strings and is not modelled.
- **The CRUD handlers.** The handlers that save, delete and update the profile, and their `parseFloat`, are outside the ledger's logic.
- **Floating point.** Amounts are exact integer cents and percentages are exact reals. JavaScript's double rounding and `toFixed` display are not modelled.
- Dashboard.PercentageLeft: uses exact real division, so it promises the exact share rather than its rounded double.
- **Time zones and time of day.**
  - A `Date` is modelled by its local year, month and day. Hours and daylight-saving shifts are not modelled.
  - `new Date(dateStr)` at analytics/page.tsx:46 parses a date-only string as UTC but reads local fields, so in zones west of UTC a record can move to the previous month. The model reads the key from the string's own year and month, as if the zone were UTC.
  - The UTC default date of the expense form is not part of this model.
- **Month labels.** The `Intl.DateTimeFormat` names (`name`, `fullName`, the selector's caption) depend on locale data and are dropped from `MonthlyData`.
- Analytics.SortByKey: `localeCompare` is modelled as code-point order. For the `YYYY-MM` keys of four-digit years, this is the order any locale gives strings of digits and hyphens. Other locale tie-breaking is not modelled.
- Calendar.MonthKeyOrder: proved for four-digit years only. Shorter years print without padding and do not sort as dates.
- Calendar.IsoDateRoundTrip: proved for four-digit years only, the years `toISODateString` writes as four digits.
- Calendar.IsoDateOrder: proved for four-digit years only, for the same reason.
- Calendar.MonthRangeSelectsMonth: proved for four-digit years only. Years 0 to 99 are also moved into the 1900s by `new Date(y, m, d)`, as `Calendar.StartOfMonthTwoDigitYear` and `Calendar.EndOfMonthTwoDigitYear` state.
- Analytics.HistoryIsChronological: proved for months of four-digit years only.
- **Invalid date strings.** A stored date that does not read as `YYYY-MM-DD` gets the key `NaN-NaN`. Formatting that month's label then throws, and the history load fails (`Analytics.InitMonth`, `Analytics.LoadHistory`). JavaScript's lenient parsing of other formats is not modelled.
- Calendar.ParseIsoDate: a calendar-invalid day such as `2025-02-30` does not read as a date here, as in engines that give an Invalid Date for it. V8 instead rolls it into the next month and files it there. That behaviour is not modelled.
- **Sort stability.** `Analytics.SortByKey` is a stable insertion sort. Because the keys are unique, any correct sort gives the same result, so the engine's algorithm is not modelled.
- **Concurrency.** Two loads of the same empty month racing to insert are not modelled; loads are sequential.
- **Items that are not part of this model.** The e-mail reminder job, the landing page's mock figures, chart rendering and colour cycling, and the presentation-only pages and components.

## Findings

| source | as written | input that shows it | evidently intended | confidence | as-written member | corrected member |
|---|---|---|---|---|---|---|
| mi-gestor-suscripciones/src/components/month-selector.tsx:13-24 | `setMonth(getMonth() ± 1)` keeps the day of the month, and days the target month lacks spill over | 31 March 2025, back: 3 March 2025 (still March). 31 January 2025, forward: 3 March 2025 (February skipped) | the buttons move to the neighbouring month | not executed | MonthSelector.StepMonthMissesFebruary | MonthSelector.ShiftMonthLandsInNeighbour |
