/**
 * The budgets page: the per-category spending map built from the month's
 * rows, the evaluation of each category's budget line, and "set limit", which
 * replaces the budget row of a (user, category, month) key by deleting and
 * then inserting.
 */
module Budgets {
  import opened Rows
  import opened MonthKeys
  import opened Ledger

  // ---------------------------------------------------------------------------
  // Spending per category
  // ---------------------------------------------------------------------------

  /** `spending[c] || 0`: the spend recorded for `c`, 0 when it has none. */
  function SpendOf(spending: map<string, int>, c: string): int
  {
    if c in spending then spending[c] else 0
  }

  /** One step of the reduce: `acc[item.category] = (acc[item.category] || 0) + item.amount`. */
  function AddSpend(acc: map<string, int>, t: Transaction): map<string, int>
  {
    acc[t.category := SpendOf(acc, t.category) + t.amount]
  }

  /** The map the reduce builds, folded over `rows` from the left as the loop runs. */
  function SpendMap(rows: seq<Transaction>): map<string, int>
  {
    if rows == [] then map[] else AddSpend(SpendMap(rows[..|rows| - 1]), rows[|rows| - 1])
  }

  /** Sum of the amounts of the rows in category `c`, whatever the category's type. */
  function CategorySum(rows: seq<Transaction>, c: string): int
  {
    if rows == [] then 0
    else CategorySum(rows[..|rows| - 1], c) + (if rows[|rows| - 1].category == c then rows[|rows| - 1].amount else 0)
  }

  /** `rows.reduce(...)` over a mutable accumulator, as a loop over the rows. */
  method BuildSpending(rows: seq<Transaction>) returns (spending: map<string, int>)
    ensures spending == SpendMap(rows)
    ensures forall c :: c in spending <==> exists i :: 0 <= i < |rows| && rows[i].category == c
    ensures forall c :: SpendOf(spending, c) == CategorySum(rows, c)
  {
    spending := map[];
    var i := 0;
    while i < |rows|
      invariant 0 <= i <= |rows|
      invariant spending == SpendMap(rows[..i])
    {
      assert rows[..i + 1][..i] == rows[..i];
      spending := AddSpend(spending, rows[i]);
      i := i + 1;
    }
    assert rows[..i] == rows;
    forall c ensures (c in spending <==> exists j :: 0 <= j < |rows| && rows[j].category == c)
      && SpendOf(spending, c) == CategorySum(rows, c)
    {
      SpendMapKeys(rows, c);
      SpendMapValue(rows, c);
    }
  }

  /** A category is a key of the map exactly when some row carries it. */
  lemma {:induction false} SpendMapKeys(rows: seq<Transaction>, c: string)
    ensures c in SpendMap(rows) <==> exists i :: 0 <= i < |rows| && rows[i].category == c
  {
    if rows != [] {
      var init := rows[..|rows| - 1];
      SpendMapKeys(init, c);
      if exists i :: 0 <= i < |init| && init[i].category == c {
        var i :| 0 <= i < |init| && init[i].category == c;
        assert rows[i] == init[i];
      }
      if exists i :: 0 <= i < |rows| && rows[i].category == c {
        var i :| 0 <= i < |rows| && rows[i].category == c;
        if i < |init| { assert init[i] == rows[i]; }
      }
    }
  }

  /** The value the map holds for a category is the sum of that category's amounts. */
  lemma {:induction false} SpendMapValue(rows: seq<Transaction>, c: string)
    ensures SpendOf(SpendMap(rows), c) == CategorySum(rows, c)
  {
    if rows != [] {
      SpendMapValue(rows[..|rows| - 1], c);
    }
  }

  /** An arbitrary key of a non-empty map, to fold its values. */
  ghost function PickKey(m: map<string, int>): string
    requires m != map[]
  {
    var k :| k in m; k
  }

  /** The sum of the values of a map. */
  ghost function MapTotal(m: map<string, int>): int
    decreases |m|
  {
    if m == map[] then 0
    else
      var k := PickKey(m);
      assert (m - {k}).Keys == m.Keys - {k};
      m[k] + MapTotal(m - {k})
  }

  /** The sum of the values does not depend on which key is taken out first. */
  lemma {:induction false} MapTotalRemove(m: map<string, int>, k: string)
    requires k in m
    ensures MapTotal(m) == m[k] + MapTotal(m - {k})
    decreases |m|
  {
    var j := PickKey(m);
    if j != k {
      assert (m - {j}).Keys == m.Keys - {j};
      assert (m - {k}).Keys == m.Keys - {k};
      MapTotalRemove(m - {j}, k);
      MapTotalRemove(m - {k}, j);
      assert m - {j} - {k} == m - {k} - {j};
    }
  }

  /** One reduce step adds the row's amount to the sum of the map's values. */
  lemma AddSpendTotal(acc: map<string, int>, t: Transaction)
    ensures MapTotal(AddSpend(acc, t)) == MapTotal(acc) + t.amount
  {
    var c := t.category;
    var next := AddSpend(acc, t);
    MapTotalRemove(next, c);
    assert next - {c} == acc - {c};
    if c in acc {
      MapTotalRemove(acc, c);
    } else {
      assert acc - {c} == acc;
    }
  }

  /**
   * The values of the spending map add up to the total of all the rows: every
   * row is counted once, in its own category, income categories included.
   */
  lemma {:induction false} SpendMapTotal(rows: seq<Transaction>)
    ensures MapTotal(SpendMap(rows)) == Total(rows)
  {
    if rows != [] {
      SpendMapTotal(rows[..|rows| - 1]);
      AddSpendTotal(SpendMap(rows[..|rows| - 1]), rows[|rows| - 1]);
    }
  }

  /** `.eq('month', key)` on the budget table: the rows of one month, in table order. */
  function BudgetsOfMonth(table: seq<Budget>, key: string): (r: seq<Budget>)
    ensures forall b :: b in r <==> b in table && b.month == key
  {
    var p := (b: Budget) => b.month == key;
    KeepMembershipAll(table, p);
    Keep(table, p)
  }

  // ---------------------------------------------------------------------------
  // Budget lines
  // ---------------------------------------------------------------------------

  /** `budgets.find(b => b.category === name)`, as the index of the row it finds. */
  function FirstBudgetIndex(budgets: seq<Budget>, name: string): (r: Option<nat>)
    ensures r.None? <==> forall i :: 0 <= i < |budgets| ==> budgets[i].category != name
    ensures r.Some? ==>
      && r.value < |budgets|
      && budgets[r.value].category == name
      && (forall i :: 0 <= i < r.value ==> budgets[i].category != name)
  {
    if budgets == [] then None
    else if budgets[0].category == name then Some(0)
    else
      match FirstBudgetIndex(budgets[1..], name)
      case None => None
      case Some(j) => Some(j + 1)
  }

  /** `budgetAmount > 0 ? (spent / budgetAmount) * 100 : 0` */
  function Utilization(spent: int, limit: int): (pct: real)
    ensures limit <= 0 ==> pct == 0.0
    ensures limit > 0 ==> pct * (limit as real) == (spent as real) * 100.0
    ensures limit > 0 ==> (pct > 100.0 <==> spent > limit)
  {
    if limit > 0 then
      var p := (spent as real) / (limit as real) * 100.0;
      assert p * (limit as real) == (spent as real) * 100.0;
      p
    else 0.0
  }

  /** `spent > budgetAmount && budgetAmount > 0` */
  function IsOver(spent: int, limit: int): (over: bool)
    ensures over <==> limit > 0 && Utilization(spent, limit) > 100.0
  {
    spent > limit && limit > 0
  }

  /** `Math.min(pct, 100)`, the width of the progress bar in percent. */
  function BarWidth(pct: real): (w: real)
    ensures w <= 100.0 && w <= pct
    ensures w == pct || w == 100.0
  {
    if pct < 100.0 then pct else 100.0
  }

  datatype BudgetLine = BudgetLine(category: string, limit: int, spent: int, pct: real, isOver: bool, barWidth: real)

  /**
   * The line shown for category `name`, or `None` when it is hidden because it
   * has neither a budget row nor any spend.
   */
  function EvaluateLine(name: string, budgets: seq<Budget>, spending: map<string, int>): (r: Option<BudgetLine>)
    ensures r.None? <==>
      (forall i :: 0 <= i < |budgets| ==> budgets[i].category != name) && (name !in spending || spending[name] == 0)
    ensures r.Some? ==> r.value.category == name && r.value.spent == SpendOf(spending, name)
    ensures r.Some? && (forall i :: 0 <= i < |budgets| ==> budgets[i].category != name) ==> r.value.limit == 0
    ensures r.Some? ==> forall i ::
      (0 <= i < |budgets| && budgets[i].category == name && (forall j :: 0 <= j < i ==> budgets[j].category != name))
      ==> r.value.limit == budgets[i].amount
    ensures r.Some? && r.value.limit <= 0 ==> r.value.pct == 0.0 && !r.value.isOver
    ensures r.Some? && r.value.limit > 0 ==>
      r.value.pct * (r.value.limit as real) == (r.value.spent as real) * 100.0 &&
      (r.value.isOver <==> r.value.spent > r.value.limit)
    ensures r.Some? ==> r.value.barWidth == BarWidth(r.value.pct) && r.value.barWidth <= 100.0
    ensures r.Some? && r.value.spent >= 0 ==> r.value.barWidth >= 0.0
  {
    var found := FirstBudgetIndex(budgets, name);
    var spent := SpendOf(spending, name);
    if found.None? && spent == 0 then None
    else
      var limit := if found.Some? then budgets[found.value].amount else 0;
      var pct := Utilization(spent, limit);
      assert limit > 0 && spent >= 0 ==> pct >= 0.0;
      Some(BudgetLine(name, limit, spent, pct, IsOver(spent, limit), BarWidth(pct)))
  }

  /** `categories.map(...)` with the hidden categories dropped, in category order. */
  function Overview(names: seq<string>, budgets: seq<Budget>, spending: map<string, int>): (lines: seq<BudgetLine>)
    ensures |lines| <= |names|
    ensures forall l :: l in lines ==> l.category in names && EvaluateLine(l.category, budgets, spending) == Some(l)
    ensures forall c :: c in names && EvaluateLine(c, budgets, spending).Some? ==>
      EvaluateLine(c, budgets, spending).value in lines
  {
    if names == [] then []
    else
      var rest := Overview(names[1..], budgets, spending);
      match EvaluateLine(names[0], budgets, spending)
      case None => rest
      case Some(l) => [l] + rest
  }

  /** A single category gives its own line, or nothing when it is hidden. */
  lemma OverviewSingle(c: string, budgets: seq<Budget>, spending: map<string, int>)
    ensures Overview([c], budgets, spending) ==
      match EvaluateLine(c, budgets, spending)
      case None => []
      case Some(l) => [l]
  {
    assert [c][1..] == [];
  }

  /**
   * The overview of two category lists laid end to end is the two overviews laid
   * end to end: with `OverviewSingle`, one line per shown category entry, in
   * the order of the categories.
   */
  lemma {:induction false} OverviewAppend(a: seq<string>, b: seq<string>, budgets: seq<Budget>, spending: map<string, int>)
    ensures Overview(a + b, budgets, spending) == Overview(a, budgets, spending) + Overview(b, budgets, spending)
  {
    if a == [] {
      assert a + b == b;
    } else {
      assert (a + b)[0] == a[0];
      assert (a + b)[1..] == a[1..] + b;
      OverviewAppend(a[1..], b, budgets, spending);
    }
  }

  // ---------------------------------------------------------------------------
  // Setting a limit
  // ---------------------------------------------------------------------------

  /** The columns `handleSetBudget` matches on when it deletes. */
  datatype BudgetKey = BudgetKey(userId: UserId, category: string, month: string)

  function KeyOf(b: Budget): BudgetKey
  {
    BudgetKey(b.userId, b.category, b.month)
  }

  /** The rows whose key is `key`, in table order. */
  function RowsWithKey(rows: seq<Budget>, key: BudgetKey): seq<Budget>
  {
    Keep(rows, (b: Budget) => KeyOf(b) == key)
  }

  /** `delete().match({ user_id, category, month })`: the rows left after deleting a key. */
  function WithoutKey(rows: seq<Budget>, key: BudgetKey): (r: seq<Budget>)
    ensures forall b :: b in r <==> b in rows && KeyOf(b) != key
  {
    var p := (b: Budget) => KeyOf(b) != key;
    KeepMembershipAll(rows, p);
    Keep(rows, p)
  }

  /** The table after deleting `b`'s key and then inserting `b`, if the store accepts the insert. */
  function Replaced(rows: seq<Budget>, b: Budget, inserted: bool): seq<Budget>
  {
    WithoutKey(rows, KeyOf(b)) + (if inserted then [b] else [])
  }

  /**
   * After a replace exactly one row carries the key, and it is the new row; if
   * the insert is refused, the key has no row at all (the delete has already run).
   */
  lemma {:induction false} ReplacedKeyRows(rows: seq<Budget>, b: Budget, inserted: bool)
    ensures RowsWithKey(Replaced(rows, b, inserted), KeyOf(b)) == if inserted then [b] else []
  {
    var key := KeyOf(b);
    var p := (x: Budget) => KeyOf(x) != key;
    var q := (x: Budget) => KeyOf(x) == key;
    var kept := WithoutKey(rows, key);
    var tail := if inserted then [b] else [];
    KeepAppend(kept, tail, q);
    KeepNone(kept, q);
    assert Keep(tail, q) == tail;
  }

  /** Rows whose key differs from the new row's stay exactly as they were, in order. */
  lemma {:induction false} ReplacedKeepsOthers(rows: seq<Budget>, b: Budget, inserted: bool)
    ensures WithoutKey(Replaced(rows, b, inserted), KeyOf(b)) == WithoutKey(rows, KeyOf(b))
  {
    var key := KeyOf(b);
    var p := (x: Budget) => KeyOf(x) != key;
    var kept := WithoutKey(rows, key);
    var tail := if inserted then [b] else [];
    KeepAppend(kept, tail, p);
    KeepKeep(rows, p, p);
    assert Keep(tail, p) == [];
  }

  /** The budget table of the data store, as the page changes it. */
  class BudgetTable {
    var rows: seq<Budget>

    constructor (initial: seq<Budget>)
      ensures rows == initial
    {
      rows := initial;
    }

    /** Deletes every row of `key`. */
    method DeleteMatching(key: BudgetKey)
      modifies this
      ensures rows == WithoutKey(old(rows), key)
    {
      rows := WithoutKey(rows, key);
    }

    /** Inserts `b` when the store accepts it (`accepted` is the store's answer). */
    method Insert(b: Budget, accepted: bool) returns (ok: bool)
      modifies this
      ensures ok == accepted
      ensures rows == if accepted then old(rows) + [b] else old(rows)
    {
      ok := accepted;
      if accepted {
        rows := rows + [b];
      }
    }
  }

  datatype SetOutcome = Ignored | Failed | Saved

  /**
   * `handleSetBudget` for the month (`year`, `month`) of the clock: nothing
   * happens without an amount or a category; otherwise the key's rows are
   * deleted and the new row inserted. `insertAccepted` is the store's answer
   * to the insert; the delete's own error is not checked by the page.
   */
  method SetBudget(table: BudgetTable, user: UserId, selectedCategory: string, amount: Option<int>,
                   year: nat, month: nat, insertAccepted: bool) returns (outcome: SetOutcome)
    modifies table
    ensures amount.None? || selectedCategory == "" ==> outcome == Ignored && table.rows == old(table.rows)
    ensures amount.Some? && selectedCategory != "" ==>
      var b := Budget(user, selectedCategory, MonthKey(year, month), amount.value);
      table.rows == Replaced(old(table.rows), b, insertAccepted) &&
      outcome == (if insertAccepted then Saved else Failed)
  {
    if amount.None? || selectedCategory == "" {
      return Ignored;
    }
    var b := Budget(user, selectedCategory, MonthKey(year, month), amount.value);
    table.DeleteMatching(KeyOf(b));
    var ok := table.Insert(b, insertAccepted);
    outcome := if ok then Saved else Failed;
  }
}
