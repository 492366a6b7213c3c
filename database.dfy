/**
 * The data-access functions of `lib/database.js` over an in-memory store. Each one first
 * asks for the signed-in user and refuses to touch any table without one; mutations then
 * run their checks (the row exists, the caller owns it, for a category delete that no
 * expense uses it) before the one write, so a failed check changes nothing.
 */
module Database {
  import opened Wrappers
  import opened Order
  import opened Query
  import opened Rows

  /** The number of expenses whose `category_id` is `id`: the `count` of the in-use check. */
  function ExpensesUsing(expenses: map<Id, Expense>, id: Id): (n: nat)
    ensures n > 0 <==> exists k :: k in expenses && expenses[k].categoryId == id
  {
    var using := set k | k in expenses && expenses[k].categoryId == id;
    assert forall k :: k in expenses && expenses[k].categoryId == id ==> k in using;
    |using|
  }

  /** A table keyed by its rows' ids (read with `id`), all below the next serial id. */
  ghost predicate Keyed<R>(t: map<Id, R>, next: Id, id: R -> Id)
  {
    KeysBelow(t, next) && Injective(t) && forall k :: k in t ==> id(t[k]) == k
  }

  /** The three tables, each with the serial counter that numbers its next row. */
  class Store {
    var categories: map<Id, Category>
    var budgets: map<Id, Budget>
    var expenses: map<Id, Expense>
    var nextCategoryId: Id
    var nextBudgetId: Id
    var nextExpenseId: Id

    ghost predicate Valid()
      reads this
    {
      && Keyed(categories, nextCategoryId, (c: Category) => c.id)
      && Keyed(budgets, nextBudgetId, (b: Budget) => b.id)
      && Keyed(expenses, nextExpenseId, (e: Expense) => e.id)
    }

    /** A store holding the given rows, seeded shared rows included. */
    constructor (categories: map<Id, Category>, budgets: map<Id, Budget>, expenses: map<Id, Expense>,
                 nextCategoryId: Id, nextBudgetId: Id, nextExpenseId: Id)
      requires KeysBelow(categories, nextCategoryId) && forall k :: k in categories ==> categories[k].id == k
      requires KeysBelow(budgets, nextBudgetId) && forall k :: k in budgets ==> budgets[k].id == k
      requires KeysBelow(expenses, nextExpenseId) && forall k :: k in expenses ==> expenses[k].id == k
      ensures Valid()
      ensures this.categories == categories && this.budgets == budgets && this.expenses == expenses
      ensures this.nextCategoryId == nextCategoryId && this.nextBudgetId == nextBudgetId
      ensures this.nextExpenseId == nextExpenseId
    {
      this.categories, this.budgets, this.expenses := categories, budgets, expenses;
      this.nextCategoryId, this.nextBudgetId, this.nextExpenseId := nextCategoryId, nextBudgetId, nextExpenseId;
    }

    // ---- the datastore's insert ----

    /** `insert(input).select()` on `categories`: the row gets the next serial id. */
    method InsertCategory(input: CategoryInput) returns (row: Category)
      requires Valid()
      modifies this`categories, this`nextCategoryId
      ensures Valid()
      ensures row == CategoryRow(old(nextCategoryId), input) && row.id !in old(categories)
      ensures categories == old(categories)[row.id := row]
      ensures nextCategoryId == old(nextCategoryId) + 1
    {
      row := CategoryRow(nextCategoryId, input);
      categories := categories[row.id := row];
      nextCategoryId := nextCategoryId + 1;
    }

    /** `insert(input).select()` on `expenses`. */
    method InsertExpense(input: ExpenseInput) returns (row: Expense)
      requires Valid()
      modifies this`expenses, this`nextExpenseId
      ensures Valid()
      ensures row == ExpenseRow(old(nextExpenseId), input) && row.id !in old(expenses)
      ensures expenses == old(expenses)[row.id := row]
      ensures nextExpenseId == old(nextExpenseId) + 1
    {
      row := ExpenseRow(nextExpenseId, input);
      expenses := expenses[row.id := row];
      nextExpenseId := nextExpenseId + 1;
    }

    // ---- expenses ----

    /**
     * `getExpenses(limit = 24)`: the caller's own expenses, newest first, at most `limit`
     * of them, each with its category embedded.
     */
    function GetExpenses(caller: Option<UserId>, limit: nat := 24): (r: Result<seq<ExpenseWithCategory>, Error>)
      reads this
      requires Valid()
      ensures !Authenticated(caller) ==> r == Failure(Unauthenticated)
      ensures Authenticated(caller) ==> r.Success?
      ensures r.Success? ==>
        var rows := Unembed(r.value);
        // only the caller's own expenses, each once
        && (forall e :: e in rows ==> e in expenses.Values && e.userId == caller)
        && Distinct(rows)
        // newest first
        && (forall i, j :: 0 <= i < j < |rows| ==> rows[i].date >= rows[j].date)
        // at most `limit`, and the ones left out are no newer than the ones returned
        && |rows| <= limit
        && (|rows| < limit ==> forall e :: e in expenses.Values && e.userId == caller ==> e in rows)
        && (forall e, f :: e in rows && f in expenses.Values && f.userId == caller && f !in rows ==> e.date >= f.date)
        // each with the category it references
        && (forall i :: 0 <= i < |r.value| ==> r.value[i].category == CategoryOf(r.value[i].expense, categories))
    {
      if !Authenticated(caller) then Failure(Unauthenticated)
      else
        var own := OwnExpenses(expenses, nextExpenseId, caller, limit);
        UnembedEmbed(own, categories);
        Success(Embed(own, categories))
    }

    /**
     * `addExpense(expense)`: inserts the expense with `user_id` set to the caller's id,
     * whatever the payload carried, and returns the inserted row.
     */
    method AddExpense(caller: Option<UserId>, input: ExpenseInput) returns (r: Result<seq<Expense>, Error>)
      requires Valid()
      modifies this`expenses, this`nextExpenseId
      ensures Valid()
      ensures !Authenticated(caller) ==> r == Failure(Unauthenticated)
      ensures !Authenticated(caller) ==> expenses == old(expenses) && nextExpenseId == old(nextExpenseId)
      ensures Authenticated(caller) ==>
        && r.Success? && |r.value| == 1
        && var row := r.value[0];
           // the owner is the caller; every other field is the payload's
           && row.userId == caller
           && row.amount == input.amount && row.description == input.description
           && row.date == input.date && row.categoryId == input.categoryId
           // a new row under a fresh id, and nothing else in the table changed
           && row.id == old(nextExpenseId) && row.id !in old(expenses)
           && expenses == old(expenses)[row.id := row]
    {
      if !Authenticated(caller) {
        return Failure(Unauthenticated);
      }
      var row := InsertExpense(StampExpense(input, caller));
      r := Success([row]);
    }

    /** `getExpenseById(id)`: the expense with that id, only when the caller owns it. */
    function GetExpenseById(caller: Option<UserId>, id: Id): (r: Result<ExpenseWithCategory, Error>)
      reads this
      requires Valid()
      ensures !Authenticated(caller) ==> r == Failure(Unauthenticated)
      ensures Authenticated(caller) ==> (r.Success? <==> id in expenses && expenses[id].userId == caller)
      ensures Authenticated(caller) && r.Failure? ==> r.error == NoSingleRow
      ensures r.Success? ==> r.value.expense == expenses[id] && r.value.expense.id == id
      ensures r.Success? ==> r.value.category == CategoryOf(expenses[id], categories)
    {
      if !Authenticated(caller) then Failure(Unauthenticated)
      else
        var matching := Select(expenses, nextExpenseId, (e: Expense) => e.id == id && e.userId == caller, None, None);
        MatchingById(expenses, id, caller, matching);
        if |matching| == 1 then Success(Embed(matching, categories)[0]) else Failure(NoSingleRow)
    }

    /**
     * `updateExpense(id, updates)`: refuses a missing row and a row the caller does not own
     * (a shared row included); otherwise overwrites the supplied fields of that one row.
     */
    method UpdateExpense(caller: Option<UserId>, id: Id, patch: ExpensePatch) returns (r: Result<seq<Expense>, Error>)
      requires Valid()
      modifies this`expenses
      ensures Valid()
      ensures !Authenticated(caller) ==> r == Failure(Unauthenticated)
      ensures Authenticated(caller) && id !in old(expenses) ==> r == Failure(NoSingleRow)
      ensures Authenticated(caller) && id in old(expenses) && !Owns(old(expenses)[id].userId, caller.value) ==>
                r == Failure(Denied(UpdateExpenseDenied))
      ensures r.Success? <==> Authenticated(caller) && id in old(expenses) && Owns(old(expenses)[id].userId, caller.value)
      ensures r.Failure? ==> expenses == old(expenses)
      ensures r.Success? ==>
        && expenses == old(expenses)[id := PatchExpense(old(expenses)[id], patch)]
        && r.value == [expenses[id]]
    {
      if !Authenticated(caller) {
        return Failure(Unauthenticated);
      }
      if id !in expenses {
        return Failure(NoSingleRow);
      }
      if !Owns(expenses[id].userId, caller.value) {
        return Failure(Denied(UpdateExpenseDenied));
      }
      var row := PatchExpense(expenses[id], patch);
      expenses := expenses[id := row];
      r := Success([row]);
    }

    /**
     * `deleteExpense(id)`: refuses a missing row and a row the caller does not own;
     * otherwise removes that one expense. Nothing references an expense, so there is no
     * in-use check.
     */
    method DeleteExpense(caller: Option<UserId>, id: Id) returns (r: Result<bool, Error>)
      requires Valid()
      modifies this`expenses
      ensures Valid()
      ensures !Authenticated(caller) ==> r == Failure(Unauthenticated)
      ensures Authenticated(caller) && id !in old(expenses) ==> r == Failure(NoSingleRow)
      ensures Authenticated(caller) && id in old(expenses) && !Owns(old(expenses)[id].userId, caller.value) ==>
                r == Failure(Denied(DeleteExpenseDenied))
      ensures r.Success? <==> Authenticated(caller) && id in old(expenses) && Owns(old(expenses)[id].userId, caller.value)
      ensures r.Failure? ==> expenses == old(expenses)
      ensures r.Success? ==> r.value && expenses == old(expenses) - {id}
    {
      if !Authenticated(caller) {
        return Failure(Unauthenticated);
      }
      if id !in expenses {
        return Failure(NoSingleRow);
      }
      if !Owns(expenses[id].userId, caller.value) {
        return Failure(Denied(DeleteExpenseDenied));
      }
      expenses := expenses - {id};
      r := Success(true);
    }

    // ---- categories ----

    /** `getCategories()`: the caller's categories and the shared ones, ordered by name. */
    function GetCategories(caller: Option<UserId>): (r: Result<seq<Category>, Error>)
      reads this
      requires Valid()
      ensures !Authenticated(caller) ==> r == Failure(Unauthenticated)
      ensures Authenticated(caller) ==> r.Success?
      ensures r.Success? ==>
        && (forall c :: c in r.value <==> c in categories.Values && Visible(c.userId, caller.value))
        && Distinct(r.value)
        && (forall i, j :: 0 <= i < j < |r.value| ==> LexLe(r.value[i].name, r.value[j].name))
    {
      if !Authenticated(caller) then Failure(Unauthenticated)
      else Success(VisibleCategories(categories, nextCategoryId, caller.value, true, None))
    }

    /**
     * `addCategory(category)`: inserts the category with `user_id` set to the caller's id,
     * whatever the payload carried, and returns the inserted row.
     */
    method AddCategory(caller: Option<UserId>, input: CategoryInput) returns (r: Result<seq<Category>, Error>)
      requires Valid()
      modifies this`categories, this`nextCategoryId
      ensures Valid()
      ensures !Authenticated(caller) ==> r == Failure(Unauthenticated)
      ensures !Authenticated(caller) ==> categories == old(categories) && nextCategoryId == old(nextCategoryId)
      ensures Authenticated(caller) ==>
        && r.Success? && |r.value| == 1
        && var row := r.value[0];
           && row.userId == caller
           && row.name == input.name && row.color == input.color && row.icon == input.icon
           && row.id == old(nextCategoryId) && row.id !in old(categories)
           && categories == old(categories)[row.id := row]
    {
      if !Authenticated(caller) {
        return Failure(Unauthenticated);
      }
      var row := InsertCategory(StampCategory(input, caller));
      r := Success([row]);
    }

    /**
     * `updateCategory(id, updates)`: refuses a missing row and a row the caller does not
     * own (a shared row included); otherwise overwrites the supplied fields of that one row.
     */
    method UpdateCategory(caller: Option<UserId>, id: Id, patch: CategoryPatch) returns (r: Result<seq<Category>, Error>)
      requires Valid()
      modifies this`categories
      ensures Valid()
      ensures !Authenticated(caller) ==> r == Failure(Unauthenticated)
      ensures Authenticated(caller) && id !in old(categories) ==> r == Failure(NoSingleRow)
      ensures Authenticated(caller) && id in old(categories) && !Owns(old(categories)[id].userId, caller.value) ==>
                r == Failure(Denied(UpdateCategoryDenied))
      ensures r.Success? <==> Authenticated(caller) && id in old(categories) && Owns(old(categories)[id].userId, caller.value)
      ensures r.Failure? ==> categories == old(categories)
      ensures r.Success? ==>
        && categories == old(categories)[id := PatchCategory(old(categories)[id], patch)]
        && r.value == [categories[id]]
    {
      if !Authenticated(caller) {
        return Failure(Unauthenticated);
      }
      if id !in categories {
        return Failure(NoSingleRow);
      }
      if !Owns(categories[id].userId, caller.value) {
        return Failure(Denied(UpdateCategoryDenied));
      }
      var row := PatchCategory(categories[id], patch);
      categories := categories[id := row];
      r := Success([row]);
    }

    /**
     * `deleteCategory(id)`: refuses a missing row, a row the caller does not own, and a
     * category some expense still references; otherwise removes that one category.
     */
    method DeleteCategory(caller: Option<UserId>, id: Id) returns (r: Result<bool, Error>)
      requires Valid()
      modifies this`categories
      ensures Valid()
      ensures !Authenticated(caller) ==> r == Failure(Unauthenticated)
      ensures Authenticated(caller) && id !in old(categories) ==> r == Failure(NoSingleRow)
      ensures Authenticated(caller) && id in old(categories) && !Owns(old(categories)[id].userId, caller.value) ==>
                r == Failure(Denied(DeleteCategoryDenied))
      ensures (&& Authenticated(caller) && id in old(categories) && Owns(old(categories)[id].userId, caller.value)
               && ExpensesUsing(expenses, id) > 0) ==> r == Failure(CategoryInUse)
      ensures r.Success? <==>
        && Authenticated(caller) && id in old(categories) && Owns(old(categories)[id].userId, caller.value)
        && ExpensesUsing(expenses, id) == 0
      ensures r.Failure? ==> categories == old(categories)
      ensures r.Success? ==> r.value && categories == old(categories) - {id}
    {
      if !Authenticated(caller) {
        return Failure(Unauthenticated);
      }
      if id !in categories {
        return Failure(NoSingleRow);
      }
      if !Owns(categories[id].userId, caller.value) {
        return Failure(Denied(DeleteCategoryDenied));
      }
      if ExpensesUsing(expenses, id) > 0 {
        return Failure(CategoryInUse);
      }
      categories := categories - {id};
      r := Success(true);
    }
  }

  /** The select behind the expense listings: `user_id = caller`, newest first, at most `limit`. */
  function OwnExpenses(expenses: map<Id, Expense>, next: Id, caller: Option<UserId>, limit: nat): (own: seq<Expense>)
    requires Keyed(expenses, next, (e: Expense) => e.id)
    ensures forall e :: e in own ==> e in expenses.Values && e.userId == caller
    ensures Distinct(own)
    ensures forall i, j :: 0 <= i < j < |own| ==> own[i].date >= own[j].date
    ensures |own| <= limit
    ensures |own| < limit ==> forall e :: e in expenses.Values && e.userId == caller ==> e in own
    ensures forall e, f :: e in own && f in expenses.Values && f.userId == caller && f !in own ==> e.date >= f.date
  {
    NewestFirstTotalPreorder();
    var p := (e: Expense) => e.userId == caller;
    var order: Option<(Expense, Expense) -> bool> := Some(NewestFirst);
    var own := Select(expenses, next, p, order, Some(limit));
    forall e, f | e in own && f in expenses.Values && f.userId == caller && f !in own ensures e.date >= f.date {
      assert p(f) && order.value(e, f);
    }
    own
  }

  /**
   * The select behind the category listings: `user_id = uid OR user_id IS NULL`, ordered
   * by name when `byName` holds, cut to `limit` rows when a limit is given.
   */
  function VisibleCategories(t: map<Id, Category>, next: Id, uid: UserId, byName: bool, limit: Option<nat>): (r: seq<Category>)
    requires Keyed(t, next, (c: Category) => c.id)
    ensures forall c :: c in r ==> c in t.Values && Visible(c.userId, uid)
    ensures Distinct(r)
    ensures limit.None? ==> forall c :: c in t.Values && Visible(c.userId, uid) ==> c in r
    ensures limit.Some? ==> |r| <= limit.value
    ensures limit.Some? && |r| < limit.value ==> forall c :: c in t.Values && Visible(c.userId, uid) ==> c in r
    ensures byName ==> forall i, j :: 0 <= i < j < |r| ==> LexLe(r[i].name, r[j].name)
    ensures byName ==> forall c, d :: c in r && d in t.Values && Visible(d.userId, uid) && d !in r ==> LexLe(c.name, d.name)
  {
    ByNameTotalPreorder();
    var p := (c: Category) => Visible(c.userId, uid);
    var order: Option<(Category, Category) -> bool> := if byName then Some(ByName) else None;
    var r := Select(t, next, p, order, limit);
    forall c, d | byName && c in r && d in t.Values && Visible(d.userId, uid) && d !in r ensures LexLe(c.name, d.name) {
      assert p(d) && order.value(c, d);
    }
    forall i, j | byName && 0 <= i < j < |r| ensures LexLe(r[i].name, r[j].name) {
      assert order.value(r[i], r[j]);
    }
    r
  }

  /** The select behind the budget listing: `user_id = uid OR user_id IS NULL`, in table order, uncut. */
  function VisibleBudgets(t: map<Id, Budget>, next: Id, uid: UserId): (r: seq<Budget>)
    requires Keyed(t, next, (b: Budget) => b.id)
    ensures forall b :: b in r <==> b in t.Values && Visible(b.userId, uid)
    ensures Distinct(r)
    ensures |r| == |set b | b in t.Values && Visible(b.userId, uid)|
  {
    var p := (b: Budget) => Visible(b.userId, uid);
    var r := Select(t, next, p, None, None);
    DistinctCardinality(r);
    assert (set x | x in r) == (set b | b in t.Values && Visible(b.userId, uid)) by {
      forall b ensures b in r <==> b in t.Values && Visible(b.userId, uid) {
        assert p(b) <==> Visible(b.userId, uid);
      }
    }
    r
  }

  /** Filtering a keyed table on its id and owner leaves at most that one row. */
  lemma MatchingById(expenses: map<Id, Expense>, id: Id, caller: Option<UserId>, matching: seq<Expense>)
    requires forall k :: k in expenses ==> expenses[k].id == k
    requires Distinct(matching)
    requires forall e :: e in matching <==> e in expenses.Values && e.id == id && e.userId == caller
    ensures |matching| == 1 <==> id in expenses && expenses[id].userId == caller
    ensures |matching| == 1 ==> matching[0] == expenses[id]
    ensures !(id in expenses && expenses[id].userId == caller) ==> matching == []
  {
    if id in expenses && expenses[id].userId == caller {
      var e := expenses[id];
      assert e in matching;
      DistinctCardinality(matching);
      assert (set x | x in matching) == {e};
    } else {
      DistinctCardinality(matching);
      assert (set x | x in matching) == {};
    }
  }
}
