/**
 * The dashboard: total spent this month, the sum of the month's budget rows,
 * what remains, the over-budget flag, and the five most recent rows.
 */
module Home {
  import opened Rows
  import opened Ledger
  import opened Budgets

  datatype Dashboard = Dashboard(totalSpent: int, budgetLimit: int, remaining: int, isOverBudget: bool, recent: seq<Transaction>)

  /** The number of rows the "recent" list shows at most. */
  const RECENT_COUNT := 5

  /**
   * `fetchData` and the values derived from it. `fetched` is the month's rows as
   * the store returns them (newest first); `monthBudgets` is every budget row of
   * the month, whatever its category.
   */
  function LoadDashboard(fetched: seq<Transaction>, monthBudgets: seq<Budget>): (d: Dashboard)
    ensures d.totalSpent == Total(fetched)
    ensures fetched == [] ==> d.totalSpent == 0
    ensures d.budgetLimit == BudgetTotal(monthBudgets)
    ensures d.remaining + d.totalSpent == d.budgetLimit
    ensures d.isOverBudget <==> d.totalSpent > d.budgetLimit
    ensures |d.recent| == (if |fetched| < RECENT_COUNT then |fetched| else RECENT_COUNT)
    ensures d.recent == fetched[..|d.recent|]
  {
    var total := Total(fetched);
    var totalBudget := BudgetTotal(monthBudgets);
    var remaining := totalBudget - total;
    var shown := if |fetched| < RECENT_COUNT then |fetched| else RECENT_COUNT;
    Dashboard(total, totalBudget, remaining, remaining < 0, fetched[..shown])
  }

  /**
   * The dashboard's total equals the sum of the budgets page's per-category
   * spend for the same rows: the two views never drift apart.
   */
  lemma {:induction false} DashboardMatchesCategorySpend(fetched: seq<Transaction>, monthBudgets: seq<Budget>)
    ensures LoadDashboard(fetched, monthBudgets).totalSpent == MapTotal(SpendMap(fetched))
  {
    SpendMapTotal(fetched);
  }

  /**
   * After a limit is set for a key, the dashboard's budget limit for that month
   * (the month query over the replaced table) is the sum of the month's rows of
   * the other keys plus the new amount; an earlier row of the same key no longer
   * counts.
   */
  lemma {:induction false} LimitAfterReplace(rows: seq<Budget>, b: Budget)
    ensures LoadDashboard([], BudgetsOfMonth(Replaced(rows, b, true), b.month)).budgetLimit ==
            BudgetTotal(BudgetsOfMonth(WithoutKey(rows, KeyOf(b)), b.month)) + b.amount
  {
    var others := WithoutKey(rows, KeyOf(b));
    var p := (x: Budget) => x.month == b.month;
    KeepAppend(others, [b], p);
    assert Keep([b], p) == [b] by {
      assert [b][1..] == [];
    }
    BudgetTotalAppend(BudgetsOfMonth(others, b.month), [b]);
    assert BudgetTotal([b]) == b.amount by {
      assert [b][..0] == [];
    }
  }
}
