/**
 * Request sequences run against a fresh store, proved from the contracts of the data
 * layer alone: the in-use guard on category deletion, the ownership guard on updates,
 * and the visibility of private and shared categories.
 */
module Scenarios {
  import opened Wrappers
  import opened Query
  import opened Rows
  import opened Database

  const Alice: UserId := "alice"
  const Bob: UserId := "bob"

  /**
   * Alice creates a category and an expense in it. Deleting the category is refused while
   * the expense uses it; once the expense is gone the category can be deleted.
   */
  method InUseGuard() returns (blocked: Result<bool, Error>, expenseDeleted: Result<bool, Error>,
                               categoryDeleted: Result<bool, Error>)
    ensures blocked == Failure(CategoryInUse)
    ensures expenseDeleted == Success(true)
    ensures categoryDeleted == Success(true)
  {
    var db := new Store(map[], map[], map[], 0, 0, 0);
    var food := db.AddCategory(Some(Alice), CategoryInput("Food", "green", "🍔", None));
    var c1 := food.value[0].id;
    var lunch := db.AddExpense(Some(Alice), ExpenseInput(None, 1250, "Lunch", 19727, c1));
    var e1 := lunch.value[0].id;
    assert db.expenses[e1].categoryId == c1;
    blocked := db.DeleteCategory(Some(Alice), c1);
    expenseDeleted := db.DeleteExpense(Some(Alice), e1);
    assert db.expenses == map[];
    categoryDeleted := db.DeleteCategory(Some(Alice), c1);
  }

  /**
   * Bob cannot update Alice's expense, even by claiming it in the payload; Alice can, and
   * the row then carries the new amount.
   */
  method OwnershipGuard() returns (byBob: Result<seq<Expense>, Error>, byAlice: Result<seq<Expense>, Error>)
    ensures byBob == Failure(Denied(UpdateExpenseDenied))
    ensures byAlice.Success? && |byAlice.value| == 1 && byAlice.value[0].amount == 9900
    ensures byAlice.value[0].userId == Some(Alice)
  {
    var db := new Store(map[], map[], map[], 0, 0, 0);
    var lunch := db.AddExpense(Some(Alice), ExpenseInput(Some(Bob), 1250, "Lunch", 19727, 0));
    var e1 := lunch.value[0].id;
    var raise := ExpensePatch(None, Some(9900), None, None, None);
    byBob := db.UpdateExpense(Some(Bob), e1, raise);
    byAlice := db.UpdateExpense(Some(Alice), e1, raise);
  }

  /** The rows of a two-row table are its two entries. */
  lemma TwoRows(a: Category, b: Category)
    ensures map[0 := a, 1 := b].Values == {a, b}
  {
    var t := map[0 := a, 1 := b];
    assert t[0] == a && t[1] == b;
    forall v | v in t.Values ensures v == a || v == b {
      var k :| k in t && t[k] == v;
    }
  }

  /** A listing of the visible rows of a two-row table, by which of the two are visible. */
  lemma ListingOfTwo(rows: seq<Category>, a: Category, b: Category, uid: UserId)
    requires a != b
    requires Distinct(rows) && forall c :: c in rows <==> c in {a, b} && Visible(c.userId, uid)
    ensures Visible(a.userId, uid) && Visible(b.userId, uid) ==> |rows| == 2
    ensures Visible(a.userId, uid) && !Visible(b.userId, uid) ==> rows == [a]
  {
    if Visible(a.userId, uid) && Visible(b.userId, uid) {
      assert forall c :: c in rows <==> c in {a, b};
      DistinctListing(rows, {a, b});
    } else if Visible(a.userId, uid) {
      assert forall c :: c in rows <==> c in {a};
      DistinctListing(rows, {a});
      assert rows[0] in rows;
    }
  }

  /** A store seeded with the shared category "Other", to which Alice adds "Food". */
  method SharedAndPrivate() returns (db: Store, other: Category, c1: Category)
    ensures fresh(db) && db.Valid()
    ensures db.categories == map[0 := other, 1 := c1]
    ensures other.name == "Other" && other.userId.None?
    ensures c1.userId == Some(Alice) && other != c1
  {
    other := Category(0, "Other", "grey", "📁", None);
    db := new Store(map[0 := other], map[], map[], 1, 0, 0);
    var food := db.AddCategory(Some(Alice), CategoryInput("Food", "green", "🍔", None));
    c1 := food.value[0];
  }

  /**
   * Alice's own category is hidden from Bob; a shared category seeded with no owner is
   * listed for both of them.
   */
  method Visibility() returns (forAlice: Result<seq<Category>, Error>, forBob: Result<seq<Category>, Error>)
    ensures forAlice.Success? && forBob.Success?
    ensures |forAlice.value| == 2 && |forBob.value| == 1
    ensures forBob.value[0].name == "Other" && forBob.value[0].userId.None?
  {
    var db, other, c1 := SharedAndPrivate();
    TwoRows(other, c1);
    forAlice := db.GetCategories(Some(Alice));
    forBob := db.GetCategories(Some(Bob));
    ListingOfTwo(forAlice.value, other, c1, Alice);
    ListingOfTwo(forBob.value, other, c1, Bob);
  }
}
