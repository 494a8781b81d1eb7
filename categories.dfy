/**
 * The categories page: the list of system and user-owned categories it holds,
 * adding a user category, and deleting one. The data store's answers and the
 * confirmation dialog are parameters.
 */
module Categories {
  import opened Rows
  import opened Ledger

  /** `!cat.user_id`: a category without an owner is a system category. */
  predicate IsSystem(c: Category)
  {
    c.userId.None?
  }

  /** The row the store returns for an insert of `{ name, type: 'expense', user_id }`. */
  function NewCategory(id: RowId, name: string, user: UserId): (c: Category)
    ensures !IsSystem(c) && c.kind == "expense" && c.userId == Some(user) && c.name == name
  {
    Category(id, name, "expense", Some(user))
  }

  /**
   * What a row's delete button passes to `handleDelete`, or `None` when the row
   * shows no button. Only owned rows have a button, so a request never arrives
   * flagged as system: the handler's guard only matters to other callers.
   */
  function DeleteRequest(c: Category): (r: Option<(RowId, bool)>)
    ensures r.Some? <==> !IsSystem(c)
    ensures r.Some? ==> r.value.0 == c.id && !r.value.1
  {
    if c.userId.Some? then Some((c.id, !c.userId.Some?)) else None
  }

  /** `categories.filter(c => c.id !== id)` */
  function WithoutId(cats: seq<Category>, id: RowId): (r: seq<Category>)
    ensures forall c :: c in r <==> c in cats && c.id != id
    ensures |r| <= |cats|
  {
    var p := (c: Category) => c.id != id;
    KeepMembershipAll(cats, p);
    KeepShorter(cats, p);
    Keep(cats, p)
  }

  /** Deleting keeps the remaining categories in their original order. */
  lemma {:induction false} WithoutIdAppend(a: seq<Category>, b: seq<Category>, id: RowId)
    ensures WithoutId(a + b, id) == WithoutId(a, id) + WithoutId(b, id)
  {
    KeepAppend(a, b, (c: Category) => c.id != id);
  }

  /** Deleting an id no category carries changes nothing. */
  lemma {:induction false} WithoutAbsentId(cats: seq<Category>, id: RowId)
    requires forall i :: 0 <= i < |cats| ==> cats[i].id != id
    ensures WithoutId(cats, id) == cats
  {
    KeepAll(cats, (c: Category) => c.id != id);
  }

  /** How a page action ended: guard return, system alert, dialog cancelled, store error, or done. */
  datatype Outcome = Ignored | Refused | Cancelled | Failed | Done

  /** The list of categories the page holds (`categories` state). */
  class CategoryList {
    var categories: seq<Category>

    /** The list as fetched: system rows and the user's own. */
    constructor (fetched: seq<Category>)
      ensures categories == fetched
    {
      categories := fetched;
    }

    /**
     * `handleAdd`: an empty name returns at once; otherwise the row is inserted
     * and, if the store accepts it (`inserted`), appended with the id the store
     * assigned.
     */
    method Add(name: string, user: UserId, assignedId: RowId, inserted: bool) returns (outcome: Outcome)
      modifies this
      ensures name == "" ==> outcome == Ignored && categories == old(categories)
      ensures name != "" && !inserted ==> outcome == Failed && categories == old(categories)
      ensures name != "" && inserted ==>
        outcome == Done && categories == old(categories) + [NewCategory(assignedId, name, user)]
    {
      if name == "" {
        return Ignored;
      }
      if !inserted {
        return Failed;
      }
      categories := categories + [NewCategory(assignedId, name, user)];
      outcome := Done;
    }

    /**
     * `handleDelete(id, isSystem)`: a system category is refused, a cancelled
     * dialog stops, a store error leaves the list, and a successful delete
     * drops the rows with that id.
     */
    method Delete(id: RowId, isSystem: bool, confirmed: bool, deleted: bool) returns (outcome: Outcome)
      modifies this
      ensures isSystem ==> outcome == Refused && categories == old(categories)
      ensures !isSystem && !confirmed ==> outcome == Cancelled && categories == old(categories)
      ensures !isSystem && confirmed && !deleted ==> outcome == Failed && categories == old(categories)
      ensures !isSystem && confirmed && deleted ==> outcome == Done && categories == WithoutId(old(categories), id)
    {
      if isSystem {
        return Refused;
      }
      if !confirmed {
        return Cancelled;
      }
      if !deleted {
        return Failed;
      }
      categories := WithoutId(categories, id);
      outcome := Done;
    }
  }
}
