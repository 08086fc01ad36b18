# Expense tracker: verified model of the aggregation, budget and currency logic

This project models, in Dafny, the domain logic of a small personal expense
tracker that has two front ends and a currency service. The command-line
tool (`expense_tracker.py`) groups expenses by category, asks for a budget
per category, and reports the totals together with over-budget alerts. The
web dashboard (`app.py`) builds one budget-status row per category, the
grand total, the total budget and the latest ten expenses, and it lets a
client set a category's budget. The currency service (`forex_service.py`)
converts foreign amounts into Indian rupees. It uses an hourly cache of
live rates from an exchange-rate provider, and a fixed fallback table when
the provider cannot be reached.

The modules follow the program:

- `Common` holds the `Option` and `Result` datatypes and the map lookup
  `Get` (as in `dict.get`).
- `StringOrder` models the order Python's `sorted` puts strings in.
  `SortedKeys` enumerates a dictionary's keys in that order, and `Ordered`
  is the unique strictly ascending enumeration of a set, which every such
  enumeration equals.
- `Sums` defines the sum of a dictionary's values, the method `Sum` that
  computes it by a loop, and running sums over a list of keys.
- `Expenses` defines the expense record, the category aggregation
  `Totals`, and its properties.
- `ExpenseTracker` models the command-line tool: `CalculateTotalsByCategory`,
  `DisplayTotals` and `GetBudgets`.
- `App` models the web handlers: `CalculateTotals`, the dashboard view model
  `Index` and the budget upsert `UpdateBudgets`.
- `ForexService` models the rate cache as a class `RateCache` whose two
  fields are updated in place. It also defines the fallback table, rate
  inversion, conversion and currency symbols. The cache's behaviour is also
  given as a pure transition `ExchangeRates`, and the lemmas are about that
  transition.

Amounts are exact `real`s. The clock is an integer count of seconds
(`now`), and the provider's answer each time it is asked is a parameter:
either `Quoted(rates)` or `Unavailable`. The file contents the handlers
load are passed in as values. In the command-line tool, the user's
answers are passed in as a sequence.

A successful refresh keeps only the currencies the provider quoted at a
positive rate (`forex_service.py:43-45`). A currency missing from the
refreshed table is converted at its fallback rate (`forex_service.py:87`),
so one table's use can mix live and fixed rates;
`ForexService.UnquotedCurrencyUsesFallback` states this.

## Model

| member | source | states |
|---|---|---|
| Common.Get | expense_tracker.py:62 | the lookup yields a value exactly when the key is present, and then it is the stored value |
| StringOrder.LexLeTotal | expense_tracker.py:92 | any two strings are comparable in the code-point order `sorted` uses |
| StringOrder.LexLeAntisymmetric | expense_tracker.py:92 | two strings each at most the other are equal, so the order of distinct keys is strict |
| StringOrder.LexLeTransitive | expense_tracker.py:92 | the order used for sorting is transitive |
| StringOrder.OrderedEnumerates | expense_tracker.py:61 | the canonical enumeration of a set is strictly ascending and lists exactly the set's members |
| StringOrder.OrderedUnique | expense_tracker.py:61 | any strictly ascending list of exactly a set's members is the canonical enumeration, so `sorted` over the same keys always gives one order |
| StringOrder.Minimum | expense_tracker.py:92 | returns the least element of a non-empty set of keys |
| StringOrder.SortedKeys | expense_tracker.py:92 | the keys come out strictly ascending, each key exactly once, and nothing else |
| Sums.Sum | app.py:67 | the loop's total equals the sum of all the dictionary's values |
| Sums.SumOverAll | expense_tracker.py:103 | adding the amounts up in ascending key order, over every key once, gives the sum of all values |
| Sums.SumOfValuesUpdate | app.py:81 | storing a value under a key changes the sum by the new value minus the old one, or plus the new value when the key is new |
| Expenses.TotalsSpec | expense_tracker.py:22-27 | the totals' keys are exactly the categories that occur (by exact string equality), and each total is the sum of that category's amounts |
| Expenses.TotalsAppend | expense_tracker.py:25-26 | one more expense raises its own category's total by exactly its amount and leaves every other category as it was, present or absent |
| Expenses.TotalsSum | expense_tracker.py:24-26 | the sum of all category totals is the sum of all amounts |
| ExpenseTracker.CalculateTotalsByCategory | expense_tracker.py:22-27 | the loop's map equals `Totals`: its keys are the occurring categories and its values are the per-category sums |
| ExpenseTracker.LineFor | expense_tracker.py:94-101 | a category without a budget gets no budget note; one whose amount exceeds its budget is over by amount minus budget, which is positive; otherwise remaining is budget minus amount, which is non-negative |
| ExpenseTracker.AlertsForSpec | expense_tracker.py:92-99 | scanning keys in ascending order raises alerts in ascending order, for exactly the scanned categories that have a budget and exceed it, each carrying the total and the budget |
| ExpenseTracker.Report | expense_tracker.py:92-103 | the loop's lines, alerts and grand total are those of walking the given categories in order, one category at a time |
| ExpenseTracker.ReportSpec | expense_tracker.py:92-103 | walking every category once in ascending order gives one classified line per category in that order, the sum of all totals, and the alerts of exactly the overspent categories in that order |
| ExpenseTracker.DisplayTotals | expense_tracker.py:86-103 | one report line per category, in ascending order, each classified as above; the grand total is the sum of all totals, budgeted or not; the alerts are, in ascending order, exactly the budgeted categories spent over budget |
| ExpenseTracker.Accepted | expense_tracker.py:68-78 | the answers the retry loop acts on are all valid and are no more than the answers typed |
| ExpenseTracker.AcceptedMembers | expense_tracker.py:68-78 | an answer is acted on exactly when it was typed and is valid: every valid answer counts and no invalid one does |
| ExpenseTracker.AcceptedAppend | expense_tracker.py:68-78 | filtering two pieces of the input separately and joining them gives the filtered whole, so the valid answers keep their input order |
| ExpenseTracker.ReadBudgetAnswer | expense_tracker.py:68-78 | the prompt loop skips invalid answers and consumes input up to and including the first valid one, which is the answer; everything after it is left unread; when the input runs out first there is no answer |
| ExpenseTracker.StepRecords | expense_tracker.py:70-76 | one valid answer records itself for its category (a number stored, a blank keeping a non-zero saved budget or otherwise leaving the category out) and changes no other category |
| ExpenseTracker.EnteredSnoc | expense_tracker.py:61-78 | answering one more category applies that one answer to the budgets built so far |
| ExpenseTracker.EnteredSpec | expense_tracker.py:61-78 | after one answer per category in ascending order: a number is stored as that category's budget; a blank keeps the saved budget only when it is non-zero, and otherwise leaves the category out; no other category gets a budget |
| ExpenseTracker.PromptBudgets | expense_tracker.py:60-78 | prompting the categories in order fails exactly when the valid answers run out, and otherwise gives the budgets obtained by applying the valid answers in order |
| ExpenseTracker.GetBudgets | expense_tracker.py:46-83 | saved budgets are returned unchanged when there are some and the user chooses to reuse them; otherwise the categories are prompted in ascending order and each gets its budget as in `EnteredSpec`; input ending early is an error |
| App.CalculateTotals | app.py:40-44 | the handler's copy of the aggregation equals `Totals`, with the same keys and values |
| App.BudgetOrZero | app.py:55 | a category's budget, or 0 when it has none |
| App.BudgetRowSpec | app.py:55-64 | over budget exactly when the budget is positive and the spending exceeds it; the percentage is never above 100, is 0 when the budget is not positive, equals spent/budget*100 when that is at most 100, and is non-negative for non-negative spending; the over amount is spent minus budget (positive) when over budget, else 0 |
| App.RowsForRows | app.py:54-65 | one row per listed category, in list order, each built from that category's total and its budget or 0 |
| App.SumSpentRows | app.py:60 | the spent amounts of the rows add up to the running total of the listed categories |
| App.RowsSpec | app.py:53-65 | rows built over every category once in ascending order are in ascending name order, one per category, each as `BudgetRowSpec` describes, and their spending adds up to the sum of the totals |
| App.CategoryRows | app.py:53-65 | one row per category with spending, in ascending name order, each as `BudgetRowSpec` describes; categories with a budget but no spending get no row; the rows' spending adds up to the sum of the totals |
| App.RecentExpenses | app.py:74 | the last min(10, n) expenses, in their original order |
| App.Index | app.py:48-74 | the rows cover exactly the categories that occur, in ascending order; the grand total is the sum of the totals and of all amounts; the total budget is the sum of every budget, including those of categories without rows; the expense list is the latest ten |
| App.UpdateBudgets | app.py:78-83 | a budget that is not a number is an error; otherwise the category holds the new value, every other budget is unchanged, and the number of budgets grows by one exactly when the category is new |
| App.FoodTransportExample | app.py:53-65 | Food 100 + 50 and Transport 30, with a Food budget of 120 and none for Transport, give Food 150 (100%, over by 30) and Transport 30 (0%, not over) |
| ForexService.FallbackRates | forex_service.py:58-69 | the fallback table lists exactly INR, USD, GBP and THB, every rate is positive, and INR is 1 |
| ForexService.InvertRates | forex_service.py:39-45 | a refreshed table has INR at 1 and only supported codes; a foreign code is present exactly when the provider quotes it at a positive rate, and then its value is the inverse of that quote |
| ForexService.InvertRatesUnique | forex_service.py:42-45 | a table with INR at 1 and exactly the inverted positive quotes of the three foreign currencies is the refreshed table |
| ForexService.Inverse | forex_service.py:45 | the inverted rate is positive, and multiplied by the quote it gives exactly 1 |
| ForexService.ExchangeRatesOutcomes | forex_service.py:18-55 | a cache hit returns the cached table and changes nothing; a successful refresh returns the inverted rates and caches them stamped `now`; a failed refresh returns the fallback table and leaves the cache untouched; every table returned is well formed, and so is the cache afterwards |
| ForexService.SameTableWithinWindow | forex_service.py:27-30 | less than an hour after a lookup that left a table in the cache, a further lookup returns that table and changes nothing, whatever the provider would say |
| ForexService.FailedRefreshRetries | forex_service.py:52-55 | a failed refresh caches nothing, so the next lookup asks the provider again and caches its answer |
| ForexService.RateFor | forex_service.py:87 | the rate is the table's when listed, else the fallback table's for a supported code, else 1; it is positive when the table's rates are |
| ForexService.Convert | forex_service.py:72-90 | rupees convert to themselves at rate 1; any other currency converts at the looked-up rate, which is positive for a well-formed table; the amount in rupees is the amount times the rate returned |
| ForexService.UnquotedCurrencyUsesFallback | forex_service.py:86-89 | after a refresh whose quotes omit USD, 100 USD converts at the fallback 83, to 8300 |
| ForexService.UnreachableProviderUsesFallback | forex_service.py:52-55 | with no usable cache and the provider unreachable, 100 USD converts at the fallback 83, to 8300 |
| ForexService.RateCache.constructor | forex_service.py:10-13 | the cache starts with no rates and no timestamp, which is a valid cache |
| ForexService.RateCache.GetExchangeRates | forex_service.py:18-55 | the returned table and the new cache fields are exactly the `ExchangeRates` transition of the old fields at `now`; the table is well formed and the cache stays valid (empty, or a well-formed table with its timestamp) |
| ForexService.RateCache.ConvertToInr | forex_service.py:72-90 | rupees are returned as they are, at rate 1, with the cache untouched; any other currency goes through one cache lookup and is converted with its table as in `Convert`; the rate used is always positive and the cache stays valid |
| ForexService.CurrencySymbol | forex_service.py:93-101 | each of the four known codes maps to its one-character symbol; any other code is returned unchanged |

## Left out

- Files: reading `expenses.csv`, loading and saving `budgets.json`, and appending an expense (`load_expenses`, `load_budgets`, `save_budgets`, `add_expense`). The handlers receive the loaded values; a missing budgets file is the empty map.
- Flask: routing, `request.json`, `render_template`, `jsonify` and `app.run`. `App.Index` returns the values given to the template.
- Terminal output from `print`, and the text formatting (`:.2f`, `format_currency`). `ExpenseTracker.DisplayTotals` returns the report lines, the grand total and the alerts instead of printing them.
- `ExpenseTracker.DisplayTotals`: `budgets=None` is taken as the empty map, which the code's `if budgets` test treats the same way.
- `ExpenseTracker.GetBudgets`: the listing of saved budgets and the y/n prompt become the boolean `reuse` (an answer of "y" after trimming and lower-casing). Each budget answer is given already classified as blank, a number or an invalid string, so Python's `float` parsing rules are not modelled. Input ending early, an `EOFError` in Python, is the `EndOfInput` error.
- `App.UpdateBudgets`: the request body is given as the category and the result of `float(data["budget"])`. A missing field or a body that is not JSON is not modelled.
- Floating point: amounts are exact reals, so sums do not depend on the order they are added in, and no rounding error is modelled.
- `ForexService.Convert`: the result is not rounded to two decimals (`round(..., 2)`); the amount in rupees is the exact product.
- `ForexService.RateCache.ConvertToInr`: the same rounding is left out.
- The network call (`requests.get` with its 10 s timeout, the status check and JSON decoding) and `datetime.now()`. The provider's answer is the parameter `Quoted(rates)` or `Unavailable`, and the clock is an integer number of seconds. Any exception during a refresh, including a malformed reply, is `Unavailable`. A provider rate that is not a number (one whose `> 0` comparison would raise) is outside the model, since quotes are reals.
- The error message printed on a failed refresh.
- Concurrency: two requests refreshing the shared cache at once.
- `models.py` (database column declarations and `to_dict` copies) and `wsgi.py` (deployment settings) contain no logic and are not part of this model.
