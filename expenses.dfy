/**
 * Expense records as both front ends load them (date, category, amount),
 * and the specification of grouping them by category.  Categories are
 * compared by exact string equality: "Food" and "food" are two categories.
 */
module Expenses {
  import opened Sums

  datatype Expense = Expense(date: string, category: string, amount: real)

  /** The categories that occur in the list. */
  function Categories(es: seq<Expense>): set<string>
  {
    set i | 0 <= i < |es| :: es[i].category
  }

  /** The sum of the amounts of the expenses tagged with `c`. */
  function CategorySum(es: seq<Expense>, c: string): real
    decreases |es|
  {
    if es == [] then 0.0
    else
      var last := es[|es| - 1];
      CategorySum(es[..|es| - 1], c) + (if last.category == c then last.amount else 0.0)
  }

  /** The sum of all amounts. */
  function SumAmounts(es: seq<Expense>): real
    decreases |es|
  {
    if es == [] then 0.0 else SumAmounts(es[..|es| - 1]) + es[|es| - 1].amount
  }

  lemma CategoriesSnoc(es: seq<Expense>, e: Expense)
    ensures Categories(es + [e]) == Categories(es) + {e.category}
  {
    var bigger := es + [e];
    assert bigger[|es|] == e;
    forall c | c in Categories(es)
      ensures c in Categories(bigger)
    {
      var i :| 0 <= i < |es| && es[i].category == c;
      assert bigger[i] == es[i];
    }
  }

  /** A category that never occurs sums to zero. */
  lemma {:induction false} CategorySumAbsent(es: seq<Expense>, c: string)
    requires c !in Categories(es)
    ensures CategorySum(es, c) == 0.0
    decreases |es|
  {
    if es != [] {
      var init, e := es[..|es| - 1], es[|es| - 1];
      assert es == init + [e];
      CategoriesSnoc(init, e);
      CategorySumAbsent(init, c);
    }
  }

  /**
   * The per-category totals, accumulated in list order the way a
   * `defaultdict(float)` is: a category's entry starts at 0.0 and each
   * expense adds its amount to its own category.
   */
  function Totals(es: seq<Expense>): map<string, real>
    decreases |es|
  {
    if es == [] then map[]
    else
      var prev, e := Totals(es[..|es| - 1]), es[|es| - 1];
      prev[e.category := (if e.category in prev then prev[e.category] else 0.0) + e.amount]
  }

  /**
   * The totals have exactly the categories that occur as keys, and each
   * category's total is the sum of its expenses' amounts.
   */
  lemma {:induction false} TotalsSpec(es: seq<Expense>)
    ensures Totals(es).Keys == Categories(es)
    ensures forall c :: c in Totals(es) ==> Totals(es)[c] == CategorySum(es, c)
    decreases |es|
  {
    if es != [] {
      var init, e := es[..|es| - 1], es[|es| - 1];
      assert es == init + [e];
      CategoriesSnoc(init, e);
      TotalsSpec(init);
      var prev := Totals(init);
      if e.category !in prev {
        CategorySumAbsent(init, e.category);
      }
    }
  }

  /** One more expense changes its own category's total by exactly its amount, and nothing else. */
  lemma {:induction false} TotalsAppend(es: seq<Expense>, e: Expense)
    ensures e.category in Totals(es + [e])
    ensures Totals(es + [e])[e.category]
            == (if e.category in Totals(es) then Totals(es)[e.category] else 0.0) + e.amount
    ensures forall c :: c != e.category ==>
              (c in Totals(es + [e]) <==> c in Totals(es)) &&
              (c in Totals(es) ==> Totals(es + [e])[c] == Totals(es)[c])
  {
    assert (es + [e])[..|es|] == es;
  }

  /** The totals add up to the sum of all amounts. */
  lemma {:induction false} TotalsSum(es: seq<Expense>)
    ensures SumOfValues(Totals(es)) == SumAmounts(es)
    decreases |es|
  {
    if es != [] {
      var init, e := es[..|es| - 1], es[|es| - 1];
      TotalsSum(init);
      var prev := Totals(init);
      var v := (if e.category in prev then prev[e.category] else 0.0) + e.amount;
      assert Totals(es) == prev[e.category := v];
      SumOfValuesUpdate(prev, e.category, v);
    }
  }
}
