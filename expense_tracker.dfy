/**
 * The command-line front end: totals by category, the budget report with
 * its alerts, and the interactive budget entry.  What the report prints is
 * returned as data (one line per category plus the alerts); the keyboard
 * is a given stream of answers.
 */
module ExpenseTracker {
  import opened Common
  import opened StringOrder
  import opened Sums
  import opened Expenses

  /** `calculate_totals_by_category`: one pass over the expenses into a zero-defaulting dictionary. */
  method CalculateTotalsByCategory(expenses: seq<Expense>) returns (totals: map<string, real>)
    ensures totals == Totals(expenses)
    ensures totals.Keys == Categories(expenses)
    ensures forall c :: c in totals ==> totals[c] == CategorySum(expenses, c)
  {
    totals := map[];
    var i := 0;
    while i < |expenses|
      invariant 0 <= i <= |expenses|
      invariant totals == Totals(expenses[..i])
    {
      var e := expenses[i];
      assert expenses[..i + 1] == expenses[..i] + [e];
      var previous := if e.category in totals then totals[e.category] else 0.0;
      totals := totals[e.category := previous + e.amount];
      i := i + 1;
    }
    assert expenses[..|expenses|] == expenses;
    TotalsSpec(expenses);
  }

  /** What the report says after a category's amount. */
  datatype BudgetInfo =
    | Unbudgeted                               // no budget for this category
    | Remaining(remaining: real, budget: real) // "[$r remaining of $b]"
    | OverBy(excess: real)                     // "[OVER BUDGET by $x]"

  datatype ReportLine = ReportLine(category: string, amount: real, info: BudgetInfo)

  datatype BudgetAlert = BudgetAlert(category: string, spent: real, budget: real)

  ghost predicate LineFaithful(l: ReportLine, totals: map<string, real>, budgets: map<string, real>)
  {
    && l.category in totals
    && l.amount == totals[l.category]
    && (l.info.Unbudgeted? <==> l.category !in budgets)
    && (l.info.OverBy? <==> l.category in budgets && l.amount > budgets[l.category])
    && (l.info.OverBy? ==> l.info.excess == l.amount - budgets[l.category] && l.info.excess > 0.0)
    && (l.info.Remaining? ==>
          l.info.budget == budgets[l.category] && l.info.remaining == l.info.budget - l.amount
          && l.info.remaining >= 0.0)
  }

  ghost predicate AlertFaithful(a: BudgetAlert, totals: map<string, real>, budgets: map<string, real>)
  {
    a.category in totals && a.category in budgets && a.spent == totals[a.category] && a.budget == budgets[a.category]
  }

  ghost function LineCategories(lines: seq<ReportLine>): seq<string>
  {
    seq(|lines|, i requires 0 <= i < |lines| => lines[i].category)
  }

  ghost function AlertCategories(alerts: seq<BudgetAlert>): seq<string>
  {
    seq(|alerts|, i requires 0 <= i < |alerts| => alerts[i].category)
  }

  /** The categories whose spending is strictly above a budget they have. */
  ghost function Overspent(totals: map<string, real>, budgets: map<string, real>): set<string>
  {
    set c | c in totals && c in budgets && totals[c] > budgets[c]
  }

  /** The report line of one category: its amount and, when it has a budget, the comparison. */
  function LineFor(c: string, totals: map<string, real>, budgets: map<string, real>): (l: ReportLine)
    requires c in totals
    ensures l.category == c && LineFaithful(l, totals, budgets)
  {
    var amount := totals[c];
    if c !in budgets then ReportLine(c, amount, Unbudgeted)
    else
      var budget := budgets[c];
      if amount > budget then ReportLine(c, amount, OverBy(amount - budget))
      else ReportLine(c, amount, Remaining(budget - amount, budget))
  }

  /** The lines printed for the categories `ks`, in that order. */
  ghost function LinesFor(ks: seq<string>, totals: map<string, real>, budgets: map<string, real>): (r: seq<ReportLine>)
    requires AllIn(ks, totals)
    ensures |r| == |ks|
    ensures forall i :: 0 <= i < |ks| ==> r[i] == LineFor(ks[i], totals, budgets)
  {
    if ks == [] then []
    else LinesFor(ks[..|ks| - 1], totals, budgets) + [LineFor(ks[|ks| - 1], totals, budgets)]
  }

  /** The alerts collected while walking the categories `ks`. */
  ghost function AlertsFor(ks: seq<string>, totals: map<string, real>, budgets: map<string, real>): seq<BudgetAlert>
    requires AllIn(ks, totals)
  {
    if ks == [] then []
    else
      var c := ks[|ks| - 1];
      AlertsFor(ks[..|ks| - 1], totals, budgets)
      + (if c in budgets && totals[c] > budgets[c] then [BudgetAlert(c, totals[c], budgets[c])] else [])
  }

  /**
   * Alerts come out in the order of `ks`, one for each category of `ks`
   * that is strictly over its budget and none for any other.
   */
  lemma {:induction false} AlertsForSpec(ks: seq<string>, totals: map<string, real>, budgets: map<string, real>)
    requires AllIn(ks, totals) && StrictlyAscending(ks)
    ensures StrictlyAscending(AlertCategories(AlertsFor(ks, totals, budgets)))
    ensures forall c :: c in AlertCategories(AlertsFor(ks, totals, budgets)) <==> c in ks && c in Overspent(totals, budgets)
    ensures forall a :: a in AlertsFor(ks, totals, budgets) ==> AlertFaithful(a, totals, budgets)
    decreases |ks|
  {
    if ks != [] {
      var init, c := ks[..|ks| - 1], ks[|ks| - 1];
      assert ks == init + [c];
      assert StrictlyAscending(init) by {
        forall i, j | 0 <= i < j < |init| ensures LexLt(init[i], init[j]) {
          assert LexLt(ks[i], ks[j]);
        }
      }
      AlertsForSpec(init, totals, budgets);
      var before := AlertsFor(init, totals, budgets);
      var cats := AlertCategories(before);
      var after := AlertsFor(ks, totals, budgets);
      if c in budgets && totals[c] > budgets[c] {
        assert after == before + [BudgetAlert(c, totals[c], budgets[c])];
        assert AlertCategories(after) == cats + [c];
        forall i, j | 0 <= i < j < |cats| + 1
          ensures LexLt((cats + [c])[i], (cats + [c])[j])
        {
          if j == |cats| {
            assert cats[i] in cats;
            var k :| 0 <= k < |init| && init[k] == cats[i];
            assert LexLt(ks[k], ks[|ks| - 1]);
          } else {
            assert (cats + [c])[i] == cats[i] && (cats + [c])[j] == cats[j];
          }
        }
      } else {
        assert after == before;
      }
    }
  }

  /**
   * The loop of `display_totals` over categories `keys`: classifies each
   * against its budget, adds its amount to the grand total and collects an
   * alert when it is strictly over budget.
   */
  method Report(keys: seq<string>, totals: map<string, real>, budgets: map<string, real>)
    returns (lines: seq<ReportLine>, grandTotal: real, alerts: seq<BudgetAlert>)
    requires AllIn(keys, totals)
    ensures lines == LinesFor(keys, totals, budgets)
    ensures alerts == AlertsFor(keys, totals, budgets)
    ensures grandTotal == SumOver(keys, totals)
  {
    lines, grandTotal, alerts := [], 0.0, [];
    var i := 0;
    while i < |keys|
      invariant 0 <= i <= |keys|
      invariant lines == LinesFor(keys[..i], totals, budgets)
      invariant alerts == AlertsFor(keys[..i], totals, budgets)
      invariant grandTotal == SumOver(keys[..i], totals)
    {
      var category := keys[i];
      var amount := totals[category];
      var info := Unbudgeted;
      assert keys[..i + 1][..i] == keys[..i];
      if category in budgets {
        var budget := budgets[category];
        var remaining := budget - amount;
        if amount > budget {
          info := OverBy(amount - budget);
          alerts := alerts + [BudgetAlert(category, amount, budget)];
        } else {
          info := Remaining(remaining, budget);
        }
      }
      lines := lines + [ReportLine(category, amount, info)];
      grandTotal := grandTotal + amount;
      i := i + 1;
    }
    assert keys[..i] == keys;
  }

  /**
   * Walking every category once in ascending order gives one faithful line
   * per category in that order, the sum of all totals, and the alerts of
   * exactly the overspent categories in that order.
   */
  lemma ReportSpec(keys: seq<string>, totals: map<string, real>, budgets: map<string, real>)
    requires StrictlyAscending(keys) && forall c :: c in keys <==> c in totals
    ensures LineCategories(LinesFor(keys, totals, budgets)) == keys
    ensures forall l :: l in LinesFor(keys, totals, budgets) ==> LineFaithful(l, totals, budgets)
    ensures SumOver(keys, totals) == SumOfValues(totals)
    ensures StrictlyAscending(AlertCategories(AlertsFor(keys, totals, budgets)))
    ensures forall c :: c in AlertCategories(AlertsFor(keys, totals, budgets)) <==> c in Overspent(totals, budgets)
    ensures forall a :: a in AlertsFor(keys, totals, budgets) ==> AlertFaithful(a, totals, budgets)
  {
    AlertsForSpec(keys, totals, budgets);
    SumOverAll(keys, totals);
  }

  /**
   * `display_totals`: walks the categories in ascending order, classifies
   * each against its budget (a category without one gets no budget note),
   * adds every amount to the grand total and collects an alert for each
   * category strictly over its budget.  A missing `budgets` argument is the
   * empty dictionary here; both make every category unbudgeted.
   */
  method DisplayTotals(totals: map<string, real>, budgets: map<string, real>)
    returns (lines: seq<ReportLine>, grandTotal: real, alerts: seq<BudgetAlert>)
    ensures |lines| == |totals| && StrictlyAscending(LineCategories(lines))
    ensures forall c :: c in LineCategories(lines) <==> c in totals
    ensures forall i :: 0 <= i < |lines| ==> LineFaithful(lines[i], totals, budgets)
    ensures grandTotal == SumOfValues(totals)
    ensures StrictlyAscending(AlertCategories(alerts))
    ensures forall c :: c in AlertCategories(alerts) <==> c in Overspent(totals, budgets)
    ensures forall i :: 0 <= i < |alerts| ==> AlertFaithful(alerts[i], totals, budgets)
  {
    var keys := SortedKeys(totals.Keys);
    lines, grandTotal, alerts := Report(keys, totals, budgets);
    ReportSpec(keys, totals, budgets);
    assert forall i :: 0 <= i < |lines| ==> lines[i] in lines;
    assert forall i :: 0 <= i < |alerts| ==> alerts[i] in alerts;
  }

  /** One line typed at a budget prompt. */
  datatype Answer =
    | Blank            // only whitespace: skip the category
    | Number(x: real)  // text `float` accepts
    | Invalid          // anything else: the prompt is repeated

  /** The answers the retry loop acts on, in order: the stream without the rejected lines. */
  function Accepted(answers: seq<Answer>): (r: seq<Answer>)
    ensures forall a :: a in r ==> !a.Invalid?
    ensures |r| <= |answers|
  {
    if answers == [] then []
    else if answers[0].Invalid? then Accepted(answers[1..])
    else [answers[0]] + Accepted(answers[1..])
  }

  /** The accepted answers are exactly the valid answers of the stream. */
  lemma {:induction false} AcceptedMembers(answers: seq<Answer>)
    ensures forall a :: a in Accepted(answers) <==> a in answers && !a.Invalid?
    decreases |answers|
  {
    if answers != [] {
      AcceptedMembers(answers[1..]);
      assert answers == [answers[0]] + answers[1..];
    }
  }

  /** Filtering a stream in two pieces filters it whole: the valid answers keep their order. */
  lemma {:induction false} AcceptedAppend(xs: seq<Answer>, ys: seq<Answer>)
    ensures Accepted(xs + ys) == Accepted(xs) + Accepted(ys)
    decreases |xs|
  {
    if xs != [] {
      assert (xs + ys)[0] == xs[0];
      assert (xs + ys)[1..] == xs[1..] + ys;
      AcceptedAppend(xs[1..], ys);
    } else {
      assert xs + ys == ys;
    }
  }

  /** The prompt loop for one category: reads lines until one is blank or a number. */
  method ReadBudgetAnswer(input: seq<Answer>) returns (answer: Option<Answer>, rest: seq<Answer>)
    ensures answer.None? ==> Accepted(input) == [] && rest == []
    ensures answer.Some? ==> !answer.value.Invalid? && Accepted(input) == [answer.value] + Accepted(rest)
    ensures answer.Some? ==> |rest| < |input|
    ensures answer.Some? ==>
              var k := |input| - |rest| - 1;
              0 <= k && input[k] == answer.value && Accepted(input[..k]) == []
    ensures input[|input| - |rest|..] == rest
  {
    answer, rest := None, input;
    while rest != []
      invariant Accepted(rest) == Accepted(input)
      invariant |rest| <= |input| && input[|input| - |rest|..] == rest
      invariant Accepted(input[..|input| - |rest|]) == []
    {
      var line := rest[0];
      ghost var skipped := input[..|input| - |rest|];
      assert input[|input| - |rest[1..]|..] == rest[1..];
      assert input[|input| - |rest|] == line;
      rest := rest[1..];
      if !line.Invalid? {
        answer := Some(line);
        return;
      }
      assert input[..|input| - |rest|] == skipped + [line];
      AcceptedAppend(skipped, [line]);
    }
  }

  datatype InputError = EndOfInput

  /** How the answer given for `c` is reflected in the budgets that come out. */
  ghost predicate Recorded(b: map<string, real>, existing: map<string, real>, c: string, a: Answer)
  {
    match a
    case Number(x) => c in b && b[c] == x
    case Blank =>
      if c in existing && existing[c] != 0.0 then c in b && b[c] == existing[c] else c !in b
    case Invalid => false
  }

  /** The budgets after the answers `given` were given, in order, at the prompts for the categories `ks`. */
  ghost function Entered(existing: map<string, real>, ks: seq<string>, given: seq<Answer>): map<string, real>
    requires |ks| == |given|
    decreases |ks|
  {
    if ks == [] then map[]
    else Step(Entered(existing, ks[..|ks| - 1], given[..|given| - 1]), existing, ks[|ks| - 1], given[|given| - 1])
  }

  /** The budgets after answer `a` is given at the prompt for `c`. */
  ghost function Step(prev: map<string, real>, existing: map<string, real>, c: string, a: Answer): map<string, real>
  {
    match a
    case Number(x) => prev[c := x]
    case Blank => if c in existing && existing[c] != 0.0 then prev[c := existing[c]] else prev
    case Invalid => prev
  }

  /** Answering one more prompt applies one `Step`. */
  lemma EnteredSnoc(existing: map<string, real>, ks: seq<string>, given: seq<Answer>, c: string, a: Answer)
    requires |ks| == |given|
    ensures Entered(existing, ks + [c], given + [a]) == Step(Entered(existing, ks, given), existing, c, a)
  {
    assert (ks + [c])[..|ks|] == ks;
    assert (given + [a])[..|given|] == given;
  }

  /**
   * Each prompted category ends up with the number typed for it, or with its
   * saved budget after a blank answer when that budget is non-zero, or with
   * no budget at all; no other category gets one.
   */
  lemma {:induction false} EnteredSpec(existing: map<string, real>, ks: seq<string>, given: seq<Answer>)
    requires |ks| == |given| && StrictlyAscending(ks)
    requires forall a :: a in given ==> !a.Invalid?
    ensures Entered(existing, ks, given).Keys <= set k | k in ks
    ensures forall i :: 0 <= i < |ks| ==> Recorded(Entered(existing, ks, given), existing, ks[i], given[i])
    decreases |ks|
  {
    if ks != [] {
      var n := |ks| - 1;
      var init, prefix, c := ks[..n], given[..n], ks[n];
      assert StrictlyAscending(init) by {
        forall i, j | 0 <= i < j < |init| ensures LexLt(init[i], init[j]) {
          assert LexLt(ks[i], ks[j]);
        }
      }
      assert forall a :: a in prefix ==> a in given;
      EnteredSpec(existing, init, prefix);
      var prev, cur := Entered(existing, init, prefix), Entered(existing, ks, given);
      assert c !in prev by {
        forall k | 0 <= k < n ensures init[k] != c { assert LexLt(ks[k], ks[n]); }
      }
      assert given[n] in given;
      assert cur == Step(prev, existing, c, given[n]);
      StepRecords(prev, existing, c, given[n]);
      forall i | 0 <= i < n
        ensures Recorded(cur, existing, ks[i], given[i])
      {
        assert LexLt(ks[i], ks[n]);
        assert init[i] == ks[i] && prefix[i] == given[i];
        RecordedFrame(prev, cur, existing, ks[i], given[i]);
      }
    }
  }

  /** One valid answer records itself for its category and leaves every other category alone. */
  lemma StepRecords(prev: map<string, real>, existing: map<string, real>, c: string, a: Answer)
    requires !a.Invalid? && c !in prev
    ensures Recorded(Step(prev, existing, c, a), existing, c, a)
    ensures forall x :: x != c ==> (x in Step(prev, existing, c, a) <==> x in prev)
    ensures forall x :: x != c && x in prev ==> Step(prev, existing, c, a)[x] == prev[x]
  {
  }

  /** Whether an answer was recorded for `c` depends only on the entry for `c`. */
  lemma RecordedFrame(b: map<string, real>, b': map<string, real>, existing: map<string, real>, c: string, a: Answer)
    requires Recorded(b, existing, c, a)
    requires (c in b <==> c in b') && (c in b ==> b[c] == b'[c])
    ensures Recorded(b', existing, c, a)
  {
  }

  /** The next accepted answer is the one read from the rest of the input. */
  lemma AcceptedStep(accepted: seq<Answer>, i: nat, rest: seq<Answer>, a: Answer, next: seq<Answer>)
    requires i <= |accepted| && Accepted(rest) == accepted[i..]
    requires Accepted(rest) == [a] + Accepted(next)
    ensures i < |accepted| && accepted[i] == a && accepted[i + 1..] == Accepted(next)
    ensures accepted[..i + 1] == accepted[..i] + [a]
  {
    assert accepted[i..][0] == a;
    assert accepted[i..][1..] == accepted[i + 1..];
  }

  /**
   * The prompt loop of `get_budgets` over the categories `order`: each
   * category's answer is read, a number stored, and a blank replaced by the
   * saved budget when that is truthy.  Running out of input is an error.
   */
  method PromptBudgets(existing: map<string, real>, order: seq<string>, answers: seq<Answer>)
    returns (r: Result<map<string, real>, InputError>)
    ensures r.Failure? <==> |Accepted(answers)| < |order|
    ensures r.Success? ==> r.value == Entered(existing, order, Accepted(answers)[..|order|])
  {
    var budgets: map<string, real> := map[];
    var rest := answers;
    ghost var accepted := Accepted(answers);
    var i := 0;
    while i < |order|
      invariant 0 <= i <= |order|
      invariant i <= |accepted| && Accepted(rest) == accepted[i..]
      invariant budgets == Entered(existing, order[..i], accepted[..i])
    {
      var category := order[i];
      var default := Get(existing, category);
      var answer, next := ReadBudgetAnswer(rest);
      if answer.None? {
        assert |accepted| == i;
        return Failure(EndOfInput);
      }
      AcceptedStep(accepted, i, rest, answer.value, next);
      ghost var before := budgets;
      if answer.value.Blank? {
        if default.Some? && default.value != 0.0 {
          budgets := budgets[category := default.value];
        }
      } else {
        budgets := budgets[category := answer.value.x];
      }
      assert budgets == Step(before, existing, category, answer.value);
      EnteredSnoc(existing, order[..i], accepted[..i], category, answer.value);
      assert order[..i + 1] == order[..i] + [category];
      rest := next;
      i := i + 1;
    }
    assert order[..i] == order;
    return Success(budgets);
  }

  /**
   * `get_budgets` with the keyboard abstracted: `reuse` is whether the
   * user answers "y" when offered the saved budgets, and `answers` is what
   * is typed at the per-category prompts, asked in ascending category
   * order.  A blank answer keeps the saved budget only when it is truthy
   * (present and non-zero); running out of input is Python's EOFError.
   */
  method GetBudgets(existing: map<string, real>, categories: set<string>, reuse: bool, answers: seq<Answer>)
    returns (r: Result<map<string, real>, InputError>)
    ensures |existing| > 0 && reuse ==> r == Success(existing)
    ensures !(|existing| > 0 && reuse) ==> (r.Failure? <==> |Accepted(answers)| < |categories|)
    ensures !(|existing| > 0 && reuse) && r.Success? ==>
              && r.value.Keys <= categories
              && |categories| <= |Accepted(answers)|
              && forall i :: 0 <= i < |categories| ==>
                   Recorded(r.value, existing, Ordered(categories)[i], Accepted(answers)[i])
  {
    if |existing| > 0 && reuse {
      return Success(existing);
    }
    var order := SortedKeys(categories);
    r := PromptBudgets(existing, order, answers);
    OrderedUnique(order, categories);
    if r.Success? {
      ghost var accepted := Accepted(answers)[..|order|];
      assert forall a :: a in accepted ==> a in Accepted(answers);
      EnteredSpec(existing, order, accepted);
    }
  }
}
