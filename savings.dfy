/**
 * The savings page: a category-name to type map, the classification of each
 * transaction as income or expense through that map, the two sums, net
 * savings and the savings rate.
 */
module Savings {
  import opened Rows
  import opened Ledger
  import Home
  import Budgets

  datatype Flow = Income | Expense

  /** `categories.forEach(c => catTypeMap[c.name] = c.type)`: later rows overwrite earlier ones. */
  function TypeMap(cats: seq<Category>): map<string, string>
  {
    if cats == [] then map[]
    else TypeMap(cats[..|cats| - 1])[cats[|cats| - 1].name := cats[|cats| - 1].kind]
  }

  /** A name is mapped exactly when some category carries it. */
  lemma {:induction false} TypeMapKeys(cats: seq<Category>, name: string)
    ensures name in TypeMap(cats) <==> exists i :: 0 <= i < |cats| && cats[i].name == name
  {
    if cats != [] {
      var init := cats[..|cats| - 1];
      TypeMapKeys(init, name);
      if exists i :: 0 <= i < |init| && init[i].name == name {
        var i :| 0 <= i < |init| && init[i].name == name;
        assert cats[i] == init[i];
      }
      if exists i :: 0 <= i < |cats| && cats[i].name == name {
        var i :| 0 <= i < |cats| && cats[i].name == name;
        if i < |init| { assert init[i] == cats[i]; }
      }
    }
  }

  /** When several categories share a name, the type of the last of them wins. */
  lemma {:induction false} TypeMapLastWins(cats: seq<Category>, i: nat)
    requires i < |cats|
    requires forall j :: i < j < |cats| ==> cats[j].name != cats[i].name
    ensures cats[i].name in TypeMap(cats) && TypeMap(cats)[cats[i].name] == cats[i].kind
  {
    if i < |cats| - 1 {
      var init := cats[..|cats| - 1];
      assert init[i] == cats[i];
      assert forall j :: i < j < |init| ==> init[j] == cats[j];
      TypeMapLastWins(init, i);
    }
  }

  /** The forEach loop that fills the map in place. */
  method BuildTypeMap(cats: seq<Category>) returns (m: map<string, string>)
    ensures m == TypeMap(cats)
    ensures forall name :: name in m <==> exists i :: 0 <= i < |cats| && cats[i].name == name
    ensures forall i :: 0 <= i < |cats| && (forall j :: i < j < |cats| ==> cats[j].name != cats[i].name) ==>
      cats[i].name in m && m[cats[i].name] == cats[i].kind
  {
    m := map[];
    var k := 0;
    while k < |cats|
      invariant 0 <= k <= |cats|
      invariant m == TypeMap(cats[..k])
    {
      assert cats[..k + 1][..k] == cats[..k];
      m := m[cats[k].name := cats[k].kind];
      k := k + 1;
    }
    assert cats[..k] == cats;
    forall name ensures name in m <==> exists i :: 0 <= i < |cats| && cats[i].name == name {
      TypeMapKeys(cats, name);
    }
    forall i | 0 <= i < |cats| && (forall j :: i < j < |cats| ==> cats[j].name != cats[i].name)
      ensures cats[i].name in m && m[cats[i].name] == cats[i].kind
    {
      TypeMapLastWins(cats, i);
    }
  }

  /**
   * `catTypeMap[t.category] || 'expense'`, then `type === 'income'`: a missing or
   * empty type counts as expense, and so does any type other than "income".
   */
  function Classify(typeMap: map<string, string>, category: string): (f: Flow)
    ensures f == Income <==> category in typeMap && typeMap[category] == "income"
  {
    var kind := if category in typeMap && typeMap[category] != "" then typeMap[category] else "expense";
    if kind == "income" then Income else Expense
  }

  /** The income bucket after the loop has seen `txs`. */
  function IncomeTotal(txs: seq<Transaction>, typeMap: map<string, string>): int
  {
    if txs == [] then 0
    else
      var t := txs[|txs| - 1];
      IncomeTotal(txs[..|txs| - 1], typeMap) + (if Classify(typeMap, t.category) == Income then t.amount else 0)
  }

  /** The expense bucket after the loop has seen `txs`. */
  function ExpenseTotal(txs: seq<Transaction>, typeMap: map<string, string>): int
  {
    if txs == [] then 0
    else
      var t := txs[|txs| - 1];
      ExpenseTotal(txs[..|txs| - 1], typeMap) + (if Classify(typeMap, t.category) == Expense then t.amount else 0)
  }

  /** Every transaction lands in exactly one bucket: the buckets add up to the total. */
  lemma {:induction false} BucketsPartition(txs: seq<Transaction>, typeMap: map<string, string>)
    ensures IncomeTotal(txs, typeMap) + ExpenseTotal(txs, typeMap) == Total(txs)
  {
    if txs != [] {
      BucketsPartition(txs[..|txs| - 1], typeMap);
    }
  }

  /** With no negative amount, neither bucket is negative. */
  lemma {:induction false} BucketsNonNegative(txs: seq<Transaction>, typeMap: map<string, string>)
    requires AmountsNonNegative(txs)
    ensures IncomeTotal(txs, typeMap) >= 0 && ExpenseTotal(txs, typeMap) >= 0
  {
    if txs != [] {
      BucketsNonNegative(txs[..|txs| - 1], typeMap);
    }
  }

  /** `transactions.forEach(t => { ... inc += t.amount ... exp += t.amount })` */
  method Accumulate(txs: seq<Transaction>, typeMap: map<string, string>) returns (inc: int, exp: int)
    ensures inc == IncomeTotal(txs, typeMap) && exp == ExpenseTotal(txs, typeMap)
    ensures inc + exp == Total(txs)
  {
    inc, exp := 0, 0;
    var k := 0;
    while k < |txs|
      invariant 0 <= k <= |txs|
      invariant inc == IncomeTotal(txs[..k], typeMap)
      invariant exp == ExpenseTotal(txs[..k], typeMap)
    {
      assert txs[..k + 1][..k] == txs[..k];
      var t := txs[k];
      if Classify(typeMap, t.category) == Income {
        inc := inc + t.amount;
      } else {
        exp := exp + t.amount;
      }
      k := k + 1;
    }
    assert txs[..k] == txs;
    BucketsPartition(txs, typeMap);
  }

  datatype Summary = Summary(income: int, expense: int, savings: int)

  /** `fetchData` of the savings page, over the month's transactions and all categories. */
  method LoadSavings(txs: seq<Transaction>, cats: seq<Category>) returns (s: Summary)
    ensures s.income == IncomeTotal(txs, TypeMap(cats))
    ensures s.expense == ExpenseTotal(txs, TypeMap(cats))
    ensures s.income + s.expense == Total(txs)
    ensures s.savings == s.income - s.expense
    ensures txs == [] ==> s == Summary(0, 0, 0)
  {
    var typeMap := BuildTypeMap(cats);
    var inc, exp := Accumulate(txs, typeMap);
    s := Summary(inc, exp, inc - exp);
  }

  /** `income > 0 ? (savings / income) * 100 : 0`, before rounding for display. */
  function SavingsRate(income: int, savings: int): (rate: real)
    ensures income <= 0 ==> rate == 0.0
    ensures income > 0 ==> rate * (income as real) == (savings as real) * 100.0
    ensures income > 0 && savings <= income ==> rate <= 100.0
  {
    if income > 0 then
      var r := (savings as real) / (income as real) * 100.0;
      assert r * (income as real) == (savings as real) * 100.0;
      r
    else 0.0
  }

  /** With no negative amount, the savings rate never exceeds 100 percent. */
  lemma RateAtMostHundred(txs: seq<Transaction>, cats: seq<Category>)
    requires AmountsNonNegative(txs)
    ensures var inc := IncomeTotal(txs, TypeMap(cats));
            SavingsRate(inc, inc - ExpenseTotal(txs, TypeMap(cats))) <= 100.0
  {
    BucketsNonNegative(txs, TypeMap(cats));
  }

  /**
   * The dashboard counts every row as spent, so its total exceeds the savings
   * page's expense figure by exactly the income of the same rows.
   */
  lemma DashboardSpendIncludesIncome(txs: seq<Transaction>, cats: seq<Category>, monthBudgets: seq<Budget>)
    ensures Home.LoadDashboard(txs, monthBudgets).totalSpent ==
            ExpenseTotal(txs, TypeMap(cats)) + IncomeTotal(txs, TypeMap(cats))
  {
    BucketsPartition(txs, TypeMap(cats));
  }

  /**
   * A salary of 2000 and a food expense of 500 in March: the savings page shows
   * income 2000, expense 500 and savings 1500, while the budgets page puts both
   * rows in its spending map and the dashboard reports 2500 spent.
   */
  lemma SalaryAndFood(food: Transaction, salary: Transaction, cats: seq<Category>)
    requires food.category == "Food" && food.amount == 500
    requires salary.category == "Salary" && salary.amount == 2000
    requires cats == [Category(10, "Food", "expense", None), Category(11, "Salary", "income", None)]
    ensures IncomeTotal([food, salary], TypeMap(cats)) == 2000
    ensures ExpenseTotal([food, salary], TypeMap(cats)) == 500
    ensures Budgets.SpendMap([food, salary]) == map["Food" := 500, "Salary" := 2000]
    ensures Home.LoadDashboard([food, salary], []).totalSpent == 2500
  {
    var txs := [food, salary];
    var typeMap := TypeMap(cats);
    assert txs[..1] == [food] && [food][..0] == [];
    assert cats[..1] == [cats[0]] && [cats[0]][..0] == [];
    assert TypeMap([cats[0]]) == map["Food" := "expense"];
    assert typeMap == map["Food" := "expense", "Salary" := "income"];
    assert Classify(typeMap, "Food") == Expense && Classify(typeMap, "Salary") == Income;
    assert Classify(typeMap, food.category) == Expense;
    assert IncomeTotal([food], typeMap) == 0;
    assert ExpenseTotal([food], typeMap) == 500;
    assert Budgets.SpendMap([food]) == map["Food" := 500];
    assert Total([food]) == 500;
  }
}
