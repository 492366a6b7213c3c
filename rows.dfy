/**
 * The three tables' rows, the payloads that create and update them, the ownership and
 * visibility rules applied to their nullable `user_id`, and the errors the data layer raises.
 */
module Rows {
  import opened Wrappers
  import opened Order

  /** A row id handed out by the table's serial column. */
  type Id = nat
  /** The identity provider's user id. */
  type UserId = string
  /** A calendar date, as a day number: only its order matters here. */
  type Date = int
  /** A money amount; nothing in the data layer computes with it. */
  type Amount = int

  /** A `categories` row; a null `userId` marks a shared default category. */
  datatype Category = Category(id: Id, name: string, color: string, icon: string, userId: Option<UserId>)

  /** A `budgets` row; a null `userId` marks a shared budget. */
  datatype Budget = Budget(id: Id, amount: Amount, userId: Option<UserId>)

  /** An `expenses` row. */
  datatype Expense = Expense(id: Id, userId: Option<UserId>, amount: Amount, description: string,
                             date: Date, categoryId: Id)

  /** An expense row with its category embedded, as `categories(id, name, icon)` in a select returns it. */
  datatype ExpenseWithCategory = ExpenseWithCategory(expense: Expense, category: Option<Category>)

  /** The object handed to a category insert: every column but the generated id, `user_id` included. */
  datatype CategoryInput = CategoryInput(name: string, color: string, icon: string, userId: Option<UserId>)

  /** The object handed to an expense insert. */
  datatype ExpenseInput = ExpenseInput(userId: Option<UserId>, amount: Amount, description: string,
                                       date: Date, categoryId: Id)

  /** An update payload: each present field overwrites its column, `user_id` included. */
  datatype CategoryPatch = CategoryPatch(name: Option<string>, color: Option<string>, icon: Option<string>,
                                         userId: Option<Option<UserId>>)

  /** An update payload for an expense. */
  datatype ExpensePatch = ExpensePatch(userId: Option<Option<UserId>>, amount: Option<Amount>,
                                       description: Option<string>, date: Option<Date>, categoryId: Option<Id>)

  // ---- ownership and visibility ----

  /** The data layer's `if (!userId)` test: an absent id and the empty id are both refused. */
  predicate Authenticated(caller: Option<UserId>)
  {
    caller.Some? && caller.value != ""
  }

  /** The text a filter compares against: JavaScript renders an undefined id as `undefined`. */
  function FilterText(uid: Option<UserId>): string
  {
    if uid.Some? then uid.value else "undefined"
  }

  /** The read rule `user_id = uid OR user_id IS NULL`: own rows and shared rows. */
  predicate Visible(owner: Option<UserId>, uid: UserId)
  {
    owner == Some(uid) || owner.None?
  }

  /** The mutation rule: the row's `user_id` is exactly the caller's id; a shared row belongs to nobody. */
  predicate Owns(owner: Option<UserId>, uid: UserId)
  {
    owner == Some(uid)
  }

  /** `{ ...input, user_id: owner }`: the payload with its own `user_id` replaced. */
  function StampCategory(input: CategoryInput, owner: Option<UserId>): CategoryInput
  {
    input.(userId := owner)
  }

  function StampExpense(input: ExpenseInput, owner: Option<UserId>): ExpenseInput
  {
    input.(userId := owner)
  }

  /** Whatever owner a category payload claims, the stamped payload is the same. */
  lemma StampCategoryIgnoresClaim(input: CategoryInput, claimed: Option<UserId>, owner: Option<UserId>)
    ensures StampCategory(input.(userId := claimed), owner) == StampCategory(input, owner)
  {
  }

  /** Whatever owner an expense payload claims, the stamped payload is the same. */
  lemma StampExpenseIgnoresClaim(input: ExpenseInput, claimed: Option<UserId>, owner: Option<UserId>)
    ensures StampExpense(input.(userId := claimed), owner) == StampExpense(input, owner)
  {
  }

  /** The row an insert stores under `id`. */
  function CategoryRow(id: Id, input: CategoryInput): Category
  {
    Category(id, input.name, input.color, input.icon, input.userId)
  }

  function ExpenseRow(id: Id, input: ExpenseInput): Expense
  {
    Expense(id, input.userId, input.amount, input.description, input.date, input.categoryId)
  }

  function Update<T>(current: T, field: Option<T>): T
  {
    if field.Some? then field.value else current
  }

  /** `.update(patch)`: every supplied field overwritten, every other column and the id kept. */
  function PatchCategory(c: Category, p: CategoryPatch): Category
  {
    Category(c.id, Update(c.name, p.name), Update(c.color, p.color), Update(c.icon, p.icon),
             Update(c.userId, p.userId))
  }

  function PatchExpense(e: Expense, p: ExpensePatch): Expense
  {
    Expense(e.id, Update(e.userId, p.userId), Update(e.amount, p.amount),
            Update(e.description, p.description), Update(e.date, p.date), Update(e.categoryId, p.categoryId))
  }


  // ---- orders ----

  /** `.order('name')`: ascending by name. */
  function ByName(a: Category, b: Category): bool
  {
    LexLe(a.name, b.name)
  }

  /** `.order('date', { ascending: false })`: newest first. */
  function NewestFirst(a: Expense, b: Expense): bool
  {
    a.date >= b.date
  }

  lemma ByNameTotalPreorder()
    ensures TotalPreorder(ByName)
  {
    forall a: Category, b: Category ensures ByName(a, b) || ByName(b, a) {
      LexLeTotal(a.name, b.name);
    }
    forall a: Category, b: Category, c: Category | ByName(a, b) && ByName(b, c) ensures ByName(a, c) {
      LexLeTransitive(a.name, b.name, c.name);
    }
  }

  lemma NewestFirstTotalPreorder()
    ensures TotalPreorder(NewestFirst)
  {
  }

  // ---- the embedded category ----

  /** The category an expense references, when the table still holds it. */
  function CategoryOf(e: Expense, categories: map<Id, Category>): Option<Category>
  {
    if e.categoryId in categories then Some(categories[e.categoryId]) else None
  }

  /** Each expense with its category embedded, in the same order. */
  function Embed(rows: seq<Expense>, categories: map<Id, Category>): (r: seq<ExpenseWithCategory>)
    ensures |r| == |rows|
  {
    seq(|rows|, i requires 0 <= i < |rows| => ExpenseWithCategory(rows[i], CategoryOf(rows[i], categories)))
  }

  /** The expense rows of a result with embedded categories. */
  function Unembed(rows: seq<ExpenseWithCategory>): (r: seq<Expense>)
    ensures |r| == |rows|
  {
    seq(|rows|, i requires 0 <= i < |rows| => rows[i].expense)
  }

  /** Embedding adds only the category: removing it gives the expenses back. */
  lemma UnembedEmbed(rows: seq<Expense>, categories: map<Id, Category>)
    ensures Unembed(Embed(rows, categories)) == rows
  {
  }

  // ---- errors ----

  /** The errors the data layer throws. */
  datatype Error =
    | Unauthenticated
    | NoSingleRow
    | Denied(message: string)
    | CategoryInUse
  {
    /** The message the thrown error carries. */
    function Message(): string
    {
      match this
      case Unauthenticated => "User must be authenticated"
      case NoSingleRow => "JSON object requested, multiple (or no) rows returned"
      case Denied(m) => m
      case CategoryInUse => "Cannot delete a category that is in use by expenses"
    }
  }

  const UpdateCategoryDenied := "Cannot update a category that doesn't belong to you"
  const DeleteCategoryDenied := "Cannot delete a category that doesn't belong to you"
  const UpdateExpenseDenied := "Cannot update an expense that doesn't belong to you"
  const DeleteExpenseDenied := "Cannot delete an expense that doesn't belong to you"
}
