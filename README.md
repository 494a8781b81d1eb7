# Expense tracker: aggregation and list maintenance

A Dafny model of the logic in the page components of a React and Supabase
personal finance tracker. The five pages hold a small layer of real computation
inline in their handlers and render code. This model lifts it out and proves
what it does:

- **Transactions page** (`Expenses.jsx`):
  - turns a `"YYYY-MM"` month filter into an inclusive day range with
    `new Date(y, m - 1, 1)` and `new Date(y, m, 0)`;
  - keeps the rows in that range and of the selected category, unless the filter is `'All'`;
  - drops a deleted row from its list.
- **Budgets page** (`Budgets.jsx`):
  - builds the month key;
  - folds the month's rows into a category → spend map;
  - evaluates each category's budget line: the first matching budget row, the guarded
    utilization percentage, the over-limit flag, the clamped bar width, and the rule that hides
    unused categories;
  - sets a limit by deleting the (user, category, month) key and inserting the new row.
- **Dashboard** (`Home.jsx`): sums the month's rows and its budget rows, and
  derives the remaining budget, the over-budget flag and the five-row "recent" prefix.
- **Savings page** (`Savings.jsx`):
  - builds a category-name → type map in which later rows win;
  - classifies each transaction as income or expense;
  - accumulates the two buckets, and derives net savings and the guarded savings rate.
- **Categories page** (`Categories.jsx`): holds the list of system and
  user-owned categories. It appends a new user-owned expense category, and deletes by id
  unless the category is a system one.

Amounts are integers in minor currency units and ratios are `real`. Dates are
valid Gregorian (year, month, day) triples with no time of day or time zone.
The data store, the clock and the confirmation dialogs are parameters:
- the rows a query returns (the store's ordering is taken as given);
- the store's yes/no answer to an insert or a delete;
- the current year and month;
- whether the user confirmed.

Modules follow the program's structure:

| file | module | contents |
|---|---|---|
| `rows.dfy` | `Rows` | `Option`; `Keep`, the order-preserving `filter`, and its lemmas |
| `calendar.dfy` | `Calendar` | days per month, the two `Date` constructions that bound a month |
| `month_keys.dfy` | `MonthKeys` | building, splitting and converting `"YYYY-MM"` keys |
| `ledger.dfy` | `Ledger` | the rows of the `expenses`, `categories` and `budgets` tables; sums |
| `expenses.dfy` | `Expenses` | the transactions query and the local delete |
| `budgets.dfy` | `Budgets` | the spending map, budget lines, set limit |
| `home.dfy` | `Home` | the dashboard figures |
| `savings.dfy` | `Savings` | type map, classification, buckets, savings rate |
| `categories.dfy` | `Categories` | the category list and its add and delete |

### Behaviour of the code the model makes visible

- **Classification.** A transaction has no type of its own in the code. The savings page finds its
  type only through the category-name map, and an unmapped category counts as expense
  (`src/pages/Savings.jsx:50`).
- **Income counted as spend.** The budgets page's reduce sums every row of the month, income
  categories included (`src/pages/Budgets.jsx:33-36`). The dashboard's "total spent" also sums every
  row (`src/pages/Home.jsx:35`). The savings page, by contrast, puts income rows in their own bucket.
  `Savings.DashboardSpendIncludesIncome` and `Savings.SalaryAndFood` prove the consequence. A salary
  of 2000 and a food expense of 500 give an expense bucket of 500, but a spending map of
  `{"Food": 500, "Salary": 2000}` and a dashboard total of 2500.
- **No global budget, no goals.** No budget line covers the whole month across categories
  (no `"_GLOBAL_"` row is read anywhere), and the savings goals section is a placeholder.
- **Unchecked deletes.** The transactions page ignores the store's answer to a delete
  (`src/pages/Expenses.jsx:59-60`), and `RemoveById` applies whatever the store answers. "Set limit"
  does not check its delete either (`src/pages/Budgets.jsx:63`). The model assumes that delete
  succeeds: `BudgetTable.DeleteMatching` has no failure case.

## Model

| member | source | states |
|---|---|---|
| Calendar.DaysInMonth | src/pages/Expenses.jsx:38 | every month has 28 to 31 days; February has 29 exactly in a Gregorian leap year |
| Calendar.YearLength | src/pages/Expenses.jsx:38 | the twelve month lengths add up to 366 in a leap year and 365 otherwise |
| Calendar.JsYear | src/pages/Expenses.jsx:37 | the `Date` constructor's year rule: 0 to 99 read as 1900 to 1999, every other year taken as given; used by `MonthStart`, `MonthEnd` and `DecemberEnd` |
| Calendar.MonthStart | src/pages/Expenses.jsx:37 | `new Date(year, month - 1, 1)`, with years 0 to 99 read as 1900 to 1999; specified by `FirstOfMonth`, `MonthEndIsLastDay` and `InMonthRange` |
| Calendar.MonthEnd | src/pages/Expenses.jsx:38 | `new Date(year, month, 0)`; specified by `DayBefore`, `MonthEndIsLastDay`, `LeapFebruaryEnd` and `DecemberEnd` |
| Calendar.FirstOfMonth | src/pages/Expenses.jsx:37 | `new Date(y, mi, 1)` is day 1 of the month that is `mi` months after January of `y`; indices outside 0..11 roll over into other years |
| Calendar.DayBefore | src/pages/Expenses.jsx:38 | day 0 of a month is strictly before its first day, and no valid day lies between them |
| Calendar.MonthEndIsLastDay | src/pages/Expenses.jsx:37-38 | the range end is the last day (by the days-per-month rule) of the month the range start opens, in the same year |
| Calendar.InMonthRange | src/pages/Expenses.jsx:37-39 | a date lies between the range start and end, both inclusive, exactly when it has the start's year and month |
| Calendar.LeapFebruaryEnd | src/pages/Expenses.jsx:38 | the range for 2024-02 ends on 2024-02-29 |
| Calendar.DecemberEnd | src/pages/Expenses.jsx:38 | for every year, December's range ends on December 31 of the same year as the constructor reads it (`JsYear`), not in the next year |
| MonthKeys.DecimalString | src/pages/Budgets.jsx:27 | `String(n)` is a nonempty string of digits without leading zeros |
| MonthKeys.DecimalRoundTrip | src/pages/Budgets.jsx:27 | converting `String(n)` back to a number gives `n` |
| MonthKeys.FourDigitYear | src/pages/Budgets.jsx:27 | years 1000 to 9999 are written with four digits |
| MonthKeys.PadStart2 | src/pages/Budgets.jsx:27 | `padStart(2, '0')` yields at least two characters: the original string preceded only by zeros |
| MonthKeys.PadValue | src/pages/Budgets.jsx:27 | the padded month is all digits and has the month's value |
| MonthKeys.YearField | src/pages/Budgets.jsx:27 | a four-digit year is written as four digits with the year's value |
| MonthKeys.MonthField | src/pages/Budgets.jsx:27 | a month 1..12, padded, is two digits with the month's value |
| MonthKeys.MonthKey | src/pages/Budgets.jsx:27 | for a four-digit year and a month 1..12, the key has 7 characters: four year digits, `-` at index 4, and two digits with the month's value |
| MonthKeys.Join | src/pages/Expenses.jsx:36 | the reference definition for `Split`: the pieces with one separator between neighbours; `Split`'s contract says joining its pieces gives back the string |
| MonthKeys.Split | src/pages/Expenses.jsx:36 | `split('-')` gives at least one piece, no piece contains the separator, and the pieces joined with the separator give back the string |
| MonthKeys.FieldBefore | src/pages/Expenses.jsx:36 | the text up to the first separator: a separator-free prefix, shorter than the string exactly when the string has a separator, followed then by the separator |
| MonthKeys.SplitFirst | src/pages/Expenses.jsx:36 | the first piece of a split (`year`) is the text before the first separator |
| MonthKeys.SplitSecond | src/pages/Expenses.jsx:36 | a string with a separator splits into at least two pieces, the second (`month`) being the text between the first separator and the next one or the end |
| MonthKeys.SplitJoin | src/pages/Expenses.jsx:36 | splitting `a-b` with separator-free `a` and `b` gives exactly `[a, b]` |
| MonthKeys.DigitsValue | src/pages/Expenses.jsx:37 | `Number` of a digit string, the empty string giving 0; specified by `DecimalRoundTrip` and `PadValue` |
| MonthKeys.ParseMonthKey | src/pages/Expenses.jsx:36-37 | a key without `-` fails. With a `-`, it succeeds exactly when the year field (before the first `-`) and the month field (after it, up to the next `-` or the end) are all digits; the result is then those two fields' values |
| MonthKeys.MonthKeyRoundTrip | src/pages/Expenses.jsx:36 | splitting and converting the key built for (year, month) gives back that year and month |
| Ledger.Total | src/pages/Home.jsx:35 | the `reduce` sum of the rows' amounts; specified by `TotalAppend`, `TotalNonNegative`, `Budgets.SpendMapTotal` and `Savings.BucketsPartition` |
| Ledger.BudgetTotal | src/pages/Home.jsx:48 | the `reduce` sum of the budget rows' amounts; specified by `BudgetTotalAppend` and `Home.LimitAfterReplace` |
| Ledger.TotalAppend | src/pages/Home.jsx:35 | the sum of a concatenation is the sum of the parts' sums |
| Ledger.TotalNonNegative | src/pages/Home.jsx:35 | with no negative amount the total is not negative |
| Ledger.BudgetTotalAppend | src/pages/Home.jsx:48 | the budget sum of a concatenation is the sum of the parts' budget sums |
| Expenses.Matches | src/pages/Expenses.jsx:39-43 | the `gte`/`lte` date bounds, inclusive, when a range is set, and the `eq` category test when a category is set; used by `Select` and `FetchExpenses` |
| Expenses.Select | src/pages/Expenses.jsx:39-43 | a row is returned exactly when it is in the table and satisfies the date-range filter and the category filter that are present |
| Expenses.RangeOf | src/pages/Expenses.jsx:37-38 | the start and end day of the selected month; specified by `Calendar.InMonthRange` through `FetchExpenses` |
| Expenses.FetchExpenses | src/pages/Expenses.jsx:35-44 | the query fails exactly when a month is set that does not convert. Otherwise it returns the matching rows. A row is kept exactly when: it is in the table; its date is in the selected month, if one is set; and its category equals the filter, unless the filter is `'All'` |
| Expenses.RemoveById | src/pages/Expenses.jsx:60 | a row survives exactly when it was in the list and has a different id; the list never grows |
| Expenses.RemoveByIdAppend | src/pages/Expenses.jsx:60 | the delete acts on each part of a list separately, so the survivors keep their original order |
| Expenses.RemoveAbsentId | src/pages/Expenses.jsx:60 | deleting an id no row carries leaves the list unchanged |
| Rows.Keep | src/pages/Expenses.jsx:60 | `Array.prototype.filter`; specified by `Expenses.RemoveById`, `Expenses.RemoveByIdAppend` and the other list lemmas built on it |
| Budgets.SpendOf | src/pages/Budgets.jsx:119 | `spending[c] \|\| 0`; specified by `SpendMapValue` |
| Budgets.AddSpend | src/pages/Budgets.jsx:34 | one step of the reduce; specified by `AddSpendTotal` |
| Budgets.SpendMap | src/pages/Budgets.jsx:33-36 | the map the reduce builds; specified by `SpendMapKeys`, `SpendMapValue` and `SpendMapTotal` |
| Budgets.BuildSpending | src/pages/Budgets.jsx:33-36 | the reduce yields a map with a key exactly for each category some row has; each category's value is the sum of that category's amounts, whatever the type |
| Budgets.SpendMapKeys | src/pages/Budgets.jsx:34 | a category is a key of the spending map exactly when some row has it |
| Budgets.SpendMapValue | src/pages/Budgets.jsx:34 | the spend recorded for a category (0 if absent) is the sum of the amounts of its rows |
| Budgets.MapTotalRemove | src/pages/Budgets.jsx:33-36 | the sum of a map's values is the same whichever key is taken out first |
| Budgets.AddSpendTotal | src/pages/Budgets.jsx:34 | one reduce step adds the row's amount to the sum of the map's values |
| Budgets.SpendMapTotal | src/pages/Budgets.jsx:33-36 | the values of the spending map sum to the total of all rows |
| Budgets.BudgetsOfMonth | src/pages/Budgets.jsx:40 | the month query returns exactly the table rows with that month key |
| Budgets.FirstBudgetIndex | src/pages/Budgets.jsx:115 | `find` returns nothing exactly when no row has the category; otherwise it returns the first row that does |
| Budgets.Utilization | src/pages/Budgets.jsx:120 | the percentage is 0 for a limit ≤ 0; otherwise pct × limit = spent × 100, and pct exceeds 100 exactly when spent exceeds the limit |
| Budgets.IsOver | src/pages/Budgets.jsx:121 | over exactly when the limit is positive and utilization exceeds 100 percent |
| Budgets.BarWidth | src/pages/Budgets.jsx:132 | the width is at most 100 and at most pct, and equals one of them |
| Budgets.EvaluateLine | src/pages/Budgets.jsx:115-132 | a line is hidden exactly when no budget row has the category and its spend is absent or 0. A shown line has: spent equal to the category's spend; the limit of the first matching row, or 0 with none; pct 0 and not over for a limit ≤ 0; otherwise pct × limit = spent × 100, over exactly when spent > limit; bar width `min(pct, 100)` (`BarWidth`), so at most 100, and ≥ 0 for non-negative spend |
| Budgets.Overview | src/pages/Budgets.jsx:114-116 | there are no more lines than category entries; every line is the evaluation of a listed category; every listed category that is not hidden has its line |
| Budgets.OverviewSingle | src/pages/Budgets.jsx:114-116 | one category entry gives its line, or nothing when it is hidden |
| Budgets.OverviewAppend | src/pages/Budgets.jsx:114-116 | the overview of two category lists laid end to end is their overviews laid end to end: with `OverviewSingle`, exactly one line per shown category entry (a name listed twice gives two lines), in category order |
| Budgets.WithoutKey | src/pages/Budgets.jsx:63 | the delete leaves exactly the rows with a different (user, category, month) key |
| Budgets.Replaced | src/pages/Budgets.jsx:63-69 | the table after delete-then-insert; specified by `ReplacedKeyRows` and `ReplacedKeepsOthers` |
| Budgets.ReplacedKeyRows | src/pages/Budgets.jsx:63-69 | after delete-then-insert, the key's rows are exactly the new row; if the insert is refused, the key has no rows left |
| Budgets.ReplacedKeepsOthers | src/pages/Budgets.jsx:63-69 | rows with any other key are unchanged and keep their order |
| Budgets.BudgetTable.constructor | src/pages/Budgets.jsx:40 | the table holds the given rows |
| Budgets.BudgetTable.DeleteMatching | src/pages/Budgets.jsx:63 | the table loses exactly the rows of the key, and keeps the rest in order |
| Budgets.BudgetTable.Insert | src/pages/Budgets.jsx:64-69 | an accepted insert appends the row; a refused one leaves the table as it was and reports failure |
| Budgets.SetBudget | src/pages/Budgets.jsx:55-71 | with no amount or no category nothing happens. Otherwise the table becomes the replace of the key of (user, category, current month key) with the new row; the outcome is saved or failed as the insert was accepted or refused |
| Home.LoadDashboard | src/pages/Home.jsx:35-59 | total spent is the sum of every fetched row (0 for none); the limit is the sum of every budget row of the month; remaining + spent = limit; over budget exactly when spent > limit; recent is the prefix of the fetched rows of length min(5, n) |
| Home.DashboardMatchesCategorySpend | src/pages/Home.jsx:35 | the dashboard total equals the sum of the budgets page's per-category spend for the same rows |
| Home.LimitAfterReplace | src/pages/Home.jsx:44-48 | after a limit is set, the dashboard limit of that month (the month query over the replaced table) is the sum of the month's rows of other keys plus the new amount |
| Savings.TypeMap | src/pages/Savings.jsx:43 | the map the `forEach` fills; specified by `TypeMapKeys` and `TypeMapLastWins` |
| Savings.IncomeTotal | src/pages/Savings.jsx:49-53 | the income bucket; specified by `BucketsPartition`, `BucketsNonNegative` and `Accumulate` |
| Savings.ExpenseTotal | src/pages/Savings.jsx:49-53 | the expense bucket; specified by `BucketsPartition`, `BucketsNonNegative` and `Accumulate` |
| Savings.TypeMapKeys | src/pages/Savings.jsx:43 | a name is mapped exactly when some category carries it |
| Savings.TypeMapLastWins | src/pages/Savings.jsx:42-44 | a name is mapped to the type of the last category carrying it |
| Savings.BuildTypeMap | src/pages/Savings.jsx:41-44 | the loop yields the map whose keys are exactly the category names, each holding the type of the last category with that name |
| Savings.Classify | src/pages/Savings.jsx:50-52 | a row is income exactly when its category maps to "income"; unmapped, empty and other types are expense |
| Savings.BucketsPartition | src/pages/Savings.jsx:49-53 | income + expense equals the sum of all amounts: every row lands in exactly one bucket |
| Savings.BucketsNonNegative | src/pages/Savings.jsx:49-53 | with no negative amount neither bucket is negative |
| Savings.Accumulate | src/pages/Savings.jsx:46-53 | the loop's `inc` and `exp` are the income and expense buckets, and they add up to the total |
| Savings.LoadSavings | src/pages/Savings.jsx:41-57 | income and expense are the two buckets through the type map of all categories; they sum to the total; savings = income − expense; all three are 0 with no rows |
| Savings.SavingsRate | src/pages/Savings.jsx:66 | the rate is 0 when income ≤ 0; otherwise rate × income = savings × 100, and rate ≤ 100 when savings ≤ income |
| Savings.RateAtMostHundred | src/pages/Savings.jsx:66 | with no negative amount the savings rate never exceeds 100 percent |
| Savings.DashboardSpendIncludesIncome | src/pages/Savings.jsx:49-53 | the dashboard's spent figure is the savings page's expense plus its income |
| Savings.SalaryAndFood | src/pages/Savings.jsx:49-57 | salary 2000 and food 500 give income 2000 and expense 500, but a spending map `{Food: 500, Salary: 2000}` and a dashboard total of 2500 |
| Categories.IsSystem | src/pages/Categories.jsx:88-91 | `!cat.user_id`: a category is a system category exactly when it has no owner; used by `NewCategory` and `DeleteRequest` |
| Categories.NewCategory | src/pages/Categories.jsx:28-32 | an added category is user-owned, of type "expense", owned by the current user, with the given name |
| Categories.DeleteRequest | src/pages/Categories.jsx:88-91 | only a user-owned row has a delete button, and its request carries the row's id with the system flag false |
| Categories.WithoutId | src/pages/Categories.jsx:51 | a category survives exactly when it was in the list and has a different id; the list never grows |
| Categories.WithoutIdAppend | src/pages/Categories.jsx:51 | the survivors keep their original order |
| Categories.WithoutAbsentId | src/pages/Categories.jsx:51 | deleting an id no category carries leaves the list unchanged |
| Categories.CategoryList.constructor | src/pages/Categories.jsx:19-20 | the list holds the fetched categories |
| Categories.CategoryList.Add | src/pages/Categories.jsx:25-35 | an empty name changes nothing; a refused insert changes nothing; an accepted one appends exactly the new user-owned expense category after the unchanged prior entries |
| Categories.CategoryList.Delete | src/pages/Categories.jsx:44-51 | a system category is refused and the list is unchanged; a cancelled dialog and a store error change nothing; a successful delete removes the entries with that id and keeps the rest in order |

## Left out

- The data store's queries (`from`, `select`, `insert`, `delete`, `eq`, `gte`, `lte`, `order`) are abstract tables and `Select` over them. The rows a fetch returns are a parameter. Fetch failures and the loading flag are not modelled.
- The store's ordering (`order('date', { ascending: false })`, `order('name')`) is not modelled: rows arrive in the order the store gives, and "recent" is the prefix of that order.
- Authentication, routing, the profile page, and the add and edit expense forms are not part of this model: they are form and session plumbing around single inserts and updates.
- Time zones, local midnight, `toISOString()` and the time of day are not modelled: a date is a calendar day, and the range bounds are compared day by day.
- `parseFloat`, floating-point `/`, `toFixed(1)` and `toLocaleString()` are not modelled: amounts are integers in minor units and ratios are exact `real`s. `SetBudget` takes the amount already converted, and `None` stands for an empty field.
- MonthKeys.ParseMonthKey: covers `Number` only for digit strings; whitespace, signs, decimals and years outside the `Date` range (where `toISOString` throws) are not modelled.
- Budgets.BuildSpending: JavaScript object keys are modelled as a map; a `null` or `undefined` category (which becomes the key `"null"` or `"undefined"`) and inherited `Object.prototype` names are not modelled.
- Savings.BuildTypeMap: the same holds for the type map. An assignment to `catTypeMap["__proto__"]` is ignored by JavaScript, so such a category stays expense, while the model maps it; inherited names such as `"constructor"` are not modelled either.
- The `alert` and `window.confirm` dialogs are parameters (`confirmed`) or outcomes (`Refused`, `Failed`). The transactions page's confirmation guard (`src/pages/Expenses.jsx:57`) is outside `RemoveById`, which models only the list update. That page ignores the store's delete error, so the list shrinks whatever the store answers.
- The delete-then-insert of "set limit" is modelled as two sequential steps on one table. The model assumes the delete succeeds: a failed delete followed by an accepted insert (which would leave two rows for the key) is not modelled. Concurrent readers that observe the gap between the steps and parallel fetches are not modelled.
- Savings goals are only a placeholder in the code, so they are not modelled. The `"_GLOBAL_"` budget line does not exist in the code.
- Budgets.EvaluateLine: does not model rendering `budgetAmount || '∞'` or the colours. It states only the figures shown.
