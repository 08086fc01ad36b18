/**
 * The web front end: the dashboard's view model (one budget-status row per
 * spent-on category, the two totals and the latest expenses) and the budget
 * upsert.  Loading and saving files, routing and rendering are left to the
 * caller; the handlers receive the loaded expenses and budgets as values.
 */
module App {
  import opened Common
  import opened StringOrder
  import opened Sums
  import opened Expenses

  /** `calculate_totals`: the same accumulation loop as the command-line tool's. */
  method CalculateTotals(expenses: seq<Expense>) returns (totals: map<string, real>)
    ensures totals == Totals(expenses)
    ensures totals.Keys == Categories(expenses)
    ensures forall c :: c in totals ==> totals[c] == CategorySum(expenses, c)
  {
    totals := map[];
    for i := 0 to |expenses|
      invariant totals == Totals(expenses[..i])
    {
      var e := expenses[i];
      assert expenses[..i + 1] == expenses[..i] + [e];
      var previous := if e.category in totals then totals[e.category] else 0.0;
      totals := totals[e.category := previous + e.amount];
    }
    assert expenses[..|expenses|] == expenses;
    TotalsSpec(expenses);
  }

  /** One budget-status row of the dashboard. */
  datatype Row = Row(name: string, spent: real, budget: real, percentage: real, overBudget: bool, overAmount: real)

  /**
   * The row for a category with `spent` against `budget` (0 when the
   * category has none), built as the handler builds it.
   */
  function BudgetRow(name: string, spent: real, budget: real): Row
  {
    var overBudget := OverBudget(spent, budget);
    Row(name, spent, budget, CappedPercentage(spent, budget), overBudget, if overBudget then spent - budget else 0.0)
  }

  /** `min(percentage, 100)` where `percentage` is `spent / budget * 100`, or 0 without a positive budget. */
  function CappedPercentage(spent: real, budget: real): real
  {
    var percentage := if budget > 0.0 then spent / budget * 100.0 else 0.0;
    if percentage <= 100.0 then percentage else 100.0
  }

  function OverBudget(spent: real, budget: real): bool
  {
    if budget > 0.0 then spent > budget else false
  }

  /**
   * What a row promises: the share of the budget used, capped at 100 for
   * display and zero without a positive budget, and the overage, which is
   * not capped and is positive exactly when the row is over budget.
   */
  lemma BudgetRowSpec(name: string, spent: real, budget: real)
    ensures var r := BudgetRow(name, spent, budget);
      && r.name == name && r.spent == spent && r.budget == budget
      && (r.overBudget <==> budget > 0.0 && spent > budget)
      && r.percentage <= 100.0
      && (budget <= 0.0 ==> r.percentage == 0.0 && !r.overBudget && r.overAmount == 0.0)
      && (budget > 0.0 && spent / budget * 100.0 <= 100.0 ==> r.percentage == spent / budget * 100.0)
      && (spent >= 0.0 ==> r.percentage >= 0.0)
      && (r.overBudget ==> r.percentage == 100.0)
      && (r.overBudget ==> r.overAmount == spent - budget && r.overAmount > 0.0)
      && (!r.overBudget ==> r.overAmount == 0.0)
  {
    RatioFacts(spent, budget);
  }

  lemma RatioFacts(spent: real, budget: real)
    ensures budget > 0.0 && spent >= 0.0 ==> spent / budget * 100.0 >= 0.0
    ensures budget > 0.0 && spent > budget ==> spent / budget * 100.0 > 100.0
  {
    if budget > 0.0 {
      var q := spent / budget;
      assert spent == q * budget;
      if spent > budget {
        assert q > 1.0;
      }
    }
  }

  /** Python's `budgets.get(category, 0)`. */
  function BudgetOrZero(budgets: map<string, real>, c: string): (b: real)
    ensures c in budgets ==> b == budgets[c]
    ensures c !in budgets ==> b == 0.0
  {
    if c in budgets then budgets[c] else 0.0
  }

  /** The rows for the categories `ks`, in that order. */
  ghost function RowsFor(ks: seq<string>, totals: map<string, real>, budgets: map<string, real>): (r: seq<Row>)
    requires AllIn(ks, totals)
    ensures |r| == |ks|
  {
    if ks == [] then []
    else
      var c := ks[|ks| - 1];
      RowsFor(ks[..|ks| - 1], totals, budgets) + [BudgetRow(c, totals[c], BudgetOrZero(budgets, c))]
  }

  /** Row `i` is the row of category `ks[i]`. */
  lemma {:induction false} RowsForRows(ks: seq<string>, totals: map<string, real>, budgets: map<string, real>)
    requires AllIn(ks, totals)
    ensures forall i :: 0 <= i < |ks| ==>
              RowsFor(ks, totals, budgets)[i] == BudgetRow(ks[i], totals[ks[i]], BudgetOrZero(budgets, ks[i]))
    ensures RowNames(RowsFor(ks, totals, budgets)) == ks
    decreases |ks|
  {
    if ks != [] {
      var init, c := ks[..|ks| - 1], ks[|ks| - 1];
      RowsForRows(init, totals, budgets);
      var prefix, last := RowsFor(init, totals, budgets), BudgetRow(c, totals[c], BudgetOrZero(budgets, c));
      assert RowsFor(ks, totals, budgets) == prefix + [last];
      assert RowNames(prefix + [last]) == RowNames(prefix) + [c];
    }
  }

  ghost function RowNames(rows: seq<Row>): seq<string>
  {
    seq(|rows|, i requires 0 <= i < |rows| => rows[i].name)
  }

  /** The total of the rows' `spent` column. */
  ghost function SumSpent(rows: seq<Row>): real
  {
    if rows == [] then 0.0 else SumSpent(rows[..|rows| - 1]) + rows[|rows| - 1].spent
  }

  lemma {:induction false} SumSpentRows(ks: seq<string>, totals: map<string, real>, budgets: map<string, real>)
    requires AllIn(ks, totals)
    ensures SumSpent(RowsFor(ks, totals, budgets)) == SumOver(ks, totals)
    decreases |ks|
  {
    if ks != [] {
      var init, c := ks[..|ks| - 1], ks[|ks| - 1];
      SumSpentRows(init, totals, budgets);
      var prefix, last := RowsFor(init, totals, budgets), BudgetRow(c, totals[c], BudgetOrZero(budgets, c));
      var rows := RowsFor(ks, totals, budgets);
      assert rows == prefix + [last];
      assert rows[..|rows| - 1] == prefix;
      assert last.spent == totals[c];
    }
  }

  /** Python's `expenses[-10:]`: the latest ten expenses, or all of them when there are fewer. */
  function RecentExpenses(expenses: seq<Expense>): (r: seq<Expense>)
    ensures |r| == if |expenses| < 10 then |expenses| else 10
    ensures expenses == expenses[..|expenses| - |r|] + r
  {
    if |expenses| <= 10 then expenses else expenses[|expenses| - 10..]
  }

  /**
   * The loop of the `index` handler that builds `categories_data`: one row
   * per category of `totals`, in ascending name order, with a missing
   * budget read as 0.
   */
  method CategoryRows(totals: map<string, real>, budgets: map<string, real>) returns (rows: seq<Row>)
    ensures |rows| == |totals|
    ensures StrictlyAscending(RowNames(rows))
    ensures forall c :: c in RowNames(rows) <==> c in totals
    ensures forall i :: 0 <= i < |rows| ==>
              rows[i].name in totals &&
              rows[i] == BudgetRow(rows[i].name, totals[rows[i].name], BudgetOrZero(budgets, rows[i].name))
    ensures SumSpent(rows) == SumOfValues(totals)
  {
    var keys := SortedKeys(totals.Keys);
    rows := [];
    for i := 0 to |keys|
      invariant rows == RowsFor(keys[..i], totals, budgets)
    {
      var category := keys[i];
      assert keys[..i + 1][..i] == keys[..i];
      rows := rows + [BudgetRow(category, totals[category], BudgetOrZero(budgets, category))];
    }
    assert keys[..|keys|] == keys;
    RowsSpec(keys, totals, budgets);
  }

  /**
   * Building the rows over every category once, in ascending order, gives
   * one row per category in that order, and their spending adds up to the
   * sum of the totals.
   */
  lemma RowsSpec(keys: seq<string>, totals: map<string, real>, budgets: map<string, real>)
    requires StrictlyAscending(keys) && |keys| == |totals| && forall c :: c in keys <==> c in totals
    ensures var rows := RowsFor(keys, totals, budgets);
      && |rows| == |totals|
      && StrictlyAscending(RowNames(rows))
      && (forall c :: c in RowNames(rows) <==> c in totals)
      && (forall i :: 0 <= i < |rows| ==>
            rows[i].name in totals &&
            rows[i] == BudgetRow(rows[i].name, totals[rows[i].name], BudgetOrZero(budgets, rows[i].name)))
      && SumSpent(rows) == SumOfValues(totals)
  {
    var rows := RowsFor(keys, totals, budgets);
    RowsForRows(keys, totals, budgets);
    SumSpentRows(keys, totals, budgets);
    SumOverAll(keys, totals);
  }

  /** What the dashboard template is rendered with. */
  datatype Dashboard = Dashboard(categories: seq<Row>, grandTotal: real, totalBudget: real, expenses: seq<Expense>)

  /**
   * The `index` handler given the loaded expenses and budgets: rows for the
   * categories that have spending, in ascending name order; the grand total
   * of all spending; the total of all budgets, including those of
   * categories with no spending and hence no row; the latest expenses.
   */
  method Index(expenses: seq<Expense>, budgets: map<string, real>) returns (d: Dashboard)
    ensures |d.categories| == |Categories(expenses)|
    ensures StrictlyAscending(RowNames(d.categories))
    ensures forall c :: c in RowNames(d.categories) <==> c in Categories(expenses)
    ensures forall i :: 0 <= i < |d.categories| ==>
              var row := d.categories[i];
              row.name in Totals(expenses) &&
              row == BudgetRow(row.name, Totals(expenses)[row.name], BudgetOrZero(budgets, row.name))
    ensures d.grandTotal == SumOfValues(Totals(expenses)) == SumAmounts(expenses)
    ensures SumSpent(d.categories) == d.grandTotal
    ensures d.totalBudget == SumOfValues(budgets)
    ensures d.expenses == RecentExpenses(expenses)
  {
    var totals := CalculateTotals(expenses);
    var rows := CategoryRows(totals, budgets);
    var grandTotal := Sum(totals);
    var totalBudget := Sum(budgets);
    TotalsSum(expenses);
    d := Dashboard(rows, grandTotal, totalBudget, RecentExpenses(expenses));
  }

  datatype RequestError = InvalidNumber

  /**
   * The `update_budgets` handler given the loaded budgets: `budget` is what
   * `float(data["budget"])` yields, None when it raises, in which case the
   * request fails before anything is saved.
   */
  method UpdateBudgets(budgets: map<string, real>, category: string, budget: Option<real>)
    returns (r: Result<map<string, real>, RequestError>)
    ensures r.Failure? <==> budget.None?
    ensures r.Success? ==> r.value.Keys == budgets.Keys + {category}
    ensures r.Success? ==> r.value[category] == budget.value
    ensures r.Success? ==> forall c :: c in budgets && c != category ==> r.value[c] == budgets[c]
    ensures r.Success? ==> |r.value| == if category in budgets then |budgets| else |budgets| + 1
  {
    if budget.None? {
      return Failure(InvalidNumber);
    }
    var updated := budgets;
    updated := updated[category := budget.value];
    if category !in budgets {
      assert updated.Keys == budgets.Keys + {category};
    } else {
      assert updated.Keys == budgets.Keys;
    }
    return Success(updated);
  }

  /** Two Food expenses against a 120 budget and one unbudgeted Transport expense. */
  lemma FoodTransportExample()
    ensures var es := [Expense("d1", "Food", 100.0), Expense("d2", "Food", 50.0), Expense("d3", "Transport", 30.0)];
            Totals(es) == map["Food" := 150.0, "Transport" := 30.0]
    ensures BudgetRow("Food", 150.0, BudgetOrZero(map["Food" := 120.0], "Food"))
            == Row("Food", 150.0, 120.0, 100.0, true, 30.0)
    ensures BudgetRow("Transport", 30.0, BudgetOrZero(map["Food" := 120.0], "Transport"))
            == Row("Transport", 30.0, 0.0, 0.0, false, 0.0)
  {
    var es := [Expense("d1", "Food", 100.0), Expense("d2", "Food", 50.0), Expense("d3", "Transport", 30.0)];
    assert es[..2] == [Expense("d1", "Food", 100.0), Expense("d2", "Food", 50.0)];
    assert es[..2][..1] == [Expense("d1", "Food", 100.0)];
    assert Totals(es[..2][..1]) == map["Food" := 100.0];
    assert Totals(es[..2]) == map["Food" := 150.0];
  }
}
