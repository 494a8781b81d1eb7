/**
 * The rows the pages read from the data store, and the sums they fold over
 * them. Amounts are integers in minor currency units, so sums are exact.
 */
module Ledger {
  import opened Rows
  import opened Calendar

  type RowId = nat

  /** A user id as issued by the authentication service: never empty. */
  type UserId = s: string | |s| > 0 witness "u"

  /** A row of the `expenses` table; income and spending share the table. */
  datatype Transaction = Transaction(id: RowId, amount: int, category: string, date: Date, description: string)

  /** A row of the `categories` table; `userId == None` is a system category. */
  datatype Category = Category(id: RowId, name: string, kind: string, userId: Option<UserId>)

  /** A row of the `budgets` table; `month` holds a month key such as "2024-03". */
  datatype Budget = Budget(userId: UserId, category: string, month: string, amount: int)

  /** `rows.reduce((acc, item) => acc + item.amount, 0)`, folded from the left. */
  function Total(rows: seq<Transaction>): int
  {
    if rows == [] then 0 else Total(rows[..|rows| - 1]) + rows[|rows| - 1].amount
  }

  /** The same fold over budget rows. */
  function BudgetTotal(budgets: seq<Budget>): int
  {
    if budgets == [] then 0 else BudgetTotal(budgets[..|budgets| - 1]) + budgets[|budgets| - 1].amount
  }

  predicate AmountsNonNegative(rows: seq<Transaction>)
  {
    forall i :: 0 <= i < |rows| ==> rows[i].amount >= 0
  }

  /** The total of two lists laid end to end is the sum of their totals. */
  lemma {:induction false} TotalAppend(a: seq<Transaction>, b: seq<Transaction>)
    ensures Total(a + b) == Total(a) + Total(b)
    decreases |b|
  {
    if b == [] {
      assert a + b == a;
    } else {
      var c := a + b;
      assert c[..|c| - 1] == a + b[..|b| - 1];
      TotalAppend(a, b[..|b| - 1]);
    }
  }

  /** With no negative amount the total is not negative. */
  lemma {:induction false} TotalNonNegative(rows: seq<Transaction>)
    requires AmountsNonNegative(rows)
    ensures Total(rows) >= 0
  {
    if rows != [] {
      TotalNonNegative(rows[..|rows| - 1]);
    }
  }

  /** The budget total of two lists laid end to end is the sum of their totals. */
  lemma {:induction false} BudgetTotalAppend(a: seq<Budget>, b: seq<Budget>)
    ensures BudgetTotal(a + b) == BudgetTotal(a) + BudgetTotal(b)
    decreases |b|
  {
    if b == [] {
      assert a + b == a;
    } else {
      var c := a + b;
      assert c[..|c| - 1] == a + b[..|b| - 1];
      BudgetTotalAppend(a, b[..|b| - 1]);
    }
  }
}
