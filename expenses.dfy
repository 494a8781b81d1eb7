/**
 * The transactions page: the month and category filters its query carries,
 * and the local list update after a delete.
 */
module Expenses {
  import opened Rows
  import opened Calendar
  import opened MonthKeys
  import opened Ledger

  datatype DateRange = DateRange(start: Date, end: Date)

  /** The filters added to a query on the `expenses` table (`gte`/`lte` on the date, `eq` on the category). */
  datatype Query = Query(range: Option<DateRange>, category: Option<string>)

  predicate Matches(q: Query, t: Transaction)
  {
    (q.range.Some? ==> NotAfter(q.range.value.start, t.date) && NotAfter(t.date, q.range.value.end)) &&
    (q.category.Some? ==> t.category == q.category.value)
  }

  /** The rows of `table` a query returns, in the table's order. */
  function Select(table: seq<Transaction>, q: Query): (r: seq<Transaction>)
    ensures forall t :: t in r <==> t in table && Matches(q, t)
  {
    var p := (t: Transaction) => Matches(q, t);
    KeepMembershipAll(table, p);
    Keep(table, p)
  }

  /** The day range of the month a filter key selects: `new Date(year, month - 1, 1)` to `new Date(year, month, 0)`. */
  function RangeOf(ref: MonthRef): DateRange
  {
    DateRange(MonthStart(ref.year, ref.month), MonthEnd(ref.year, ref.month))
  }

  /**
   * `fetchExpenses`: the query starts unfiltered, gains a date range when a month
   * is selected, and gains a category constraint unless the filter is 'All'.
   * A month key that does not convert to a date makes the page fail (`None`).
   */
  method FetchExpenses(table: seq<Transaction>, filterDate: string, filterCategory: string)
    returns (r: Option<seq<Transaction>>)
    ensures r.None? <==> filterDate != "" && ParseMonthKey(filterDate).None?
    ensures r.Some? ==> r.value == Select(table, Query(
      if filterDate == "" then None else Some(RangeOf(ParseMonthKey(filterDate).value)),
      if filterCategory == "All" then None else Some(filterCategory)))
    ensures r.Some? ==> forall t :: t in r.value <==>
      t in table &&
      (filterDate != "" ==>
        var s := MonthStart(ParseMonthKey(filterDate).value.year, ParseMonthKey(filterDate).value.month);
        t.date.year == s.year && t.date.month == s.month) &&
      (filterCategory != "All" ==> t.category == filterCategory)
  {
    var query := Query(None, None);
    if filterDate != "" {
      var parsed := ParseMonthKey(filterDate);
      if parsed.None? {
        return None;
      }
      query := query.(range := Some(RangeOf(parsed.value)));
      forall t: Transaction {
        InMonthRange(parsed.value.year, parsed.value.month, t.date);
      }
    }
    if filterCategory != "All" {
      query := query.(category := Some(filterCategory));
    }
    r := Some(Select(table, query));
  }

  /** `expenses.filter(ex => ex.id !== id)`: the list after deleting row `id`. */
  function RemoveById(rows: seq<Transaction>, id: RowId): (r: seq<Transaction>)
    ensures forall t :: t in r <==> t in rows && t.id != id
    ensures |r| <= |rows|
  {
    var p := (t: Transaction) => t.id != id;
    KeepMembershipAll(rows, p);
    KeepShorter(rows, p);
    Keep(rows, p)
  }

  /** Deleting keeps the survivors in their original order: it acts on each part of a list separately. */
  lemma {:induction false} RemoveByIdAppend(a: seq<Transaction>, b: seq<Transaction>, id: RowId)
    ensures RemoveById(a + b, id) == RemoveById(a, id) + RemoveById(b, id)
  {
    KeepAppend(a, b, (t: Transaction) => t.id != id);
  }

  /** Deleting an id that no row carries leaves the list as it was. */
  lemma {:induction false} RemoveAbsentId(rows: seq<Transaction>, id: RowId)
    requires forall i :: 0 <= i < |rows| ==> rows[i].id != id
    ensures RemoveById(rows, id) == rows
  {
    KeepAll(rows, (t: Transaction) => t.id != id);
  }
}
