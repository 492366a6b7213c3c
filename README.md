# Cashflow data layer: ownership and visibility

This project models the authorization core of the Cashflow expense tracker. Three tables
(`categories`, `budgets`, `expenses`) each carry a nullable `user_id`. A null owner marks a
shared default row. The data-access functions of `lib/database.js` and four API route
handlers apply one set of rules around those rows:

- nobody reads or writes without a signed-in user;
- a created row is stamped with the caller's id, whatever the payload said;
- a read returns the caller's rows, plus the shared ones for categories and budgets, filtered, ordered and cut to a limit;
- an update or delete first fetches the row's owner and refuses a row that is missing or not the caller's (a shared row included);
- a category delete is refused while an expense still uses the category.

The hosted datastore becomes an in-memory `Database.Store`: a class with a map from id to
row for each table and a serial counter that numbers new rows. `Query.Select` stands for
the datastore's filtered select: it lists a table by id, keeps the matching rows,
optionally sorts them (an insertion sort under a total preorder) and optionally keeps the
first `limit`. The listings and `getExpenseById` go through it. The owner fetch
(`.select('user_id').eq('id', id).single()`) before an update or delete is a lookup in
the table's map, and the in-use count of a category delete is `Database.ExpensesUsing`. The data-layer functions become
methods and functions of the store and keep the source's check-then-act order. The route
handlers take the session as `Option<Session>` and the datastore's own failure as
`fault: Option<string>`, and return `{status, body}`. `middleware.js` becomes a total
decision function over the path and whether a session exists.

Modules: `Wrappers` (Option, Result), `Order` (text order, total preorders), `Query`
(the select pipeline), `Rows` (rows, payloads, ownership rules, errors), `Database`
(`lib/database.js`), `JsParse` (`parseInt`), `Http` (sessions, responses, `limit`), one
module per route file (`ExpensesRoute`, `CategoriesRoute`, `BudgetsRoute`,
`ExpnesesRoute`), `Middleware`, and `Scenarios` (request sequences proved from the
contracts alone).

The model follows the code where it:
- applies an update payload as given, so an update can overwrite `user_id`;
- validates no amount, date or reference on create;
- offers no budget update or delete;
- lists and creates categories in `app/api/expenses/route.js`;
- parses `limit` in the budget route and never uses it;
- reads `session.user.id` in `app/api/expneses/route.js` with no fallback to `sub`.

## Model

| member | source | states |
|---|---|---|
| Query.Select | lib/database.js:10-22 | A select returns only matching rows of the table, each once. Without a limit it returns every matching row. With a limit it returns at most that many, and fewer only when none was left out. With an order the result is sorted, and every row a limit leaves out comes after every row kept. |
| Query.Arrange | lib/database.js:21-22 | `.order(...)` then `.limit(n)` over the matching rows returns only those rows, each once. Uncut or short: all of them. Cut: at most `n`. Ordered: sorted, with every row cut ranking after every row kept. |
| Query.Filter | lib/database.js:20 | The filter keeps exactly the elements satisfying the predicate and is never longer than its input. |
| Query.SortBy | lib/database.js:21 | The result of `.order(...)` is a permutation of its input (same multiset) and sorted under any total preorder. |
| Query.DistinctPermutation | lib/database.js:60 | Reordering rows that hold no duplicate keeps them free of duplicates, so sorting never repeats a row. |
| Order.LexLeTotal | lib/database.js:60 | Any two names are comparable in the name order. |
| Order.LexLeTransitive | lib/database.js:60 | The name order is transitive. |
| Rows.ByNameTotalPreorder | lib/database.js:60 | Ordering categories by name is a total preorder, so `.order('name')` is well defined. |
| Rows.NewestFirstTotalPreorder | lib/database.js:21 | Ordering expenses by date, newest first, is a total preorder. |
| Rows.StampCategoryIgnoresClaim | lib/database.js:74-77 | Whatever `user_id` a category payload claims, the stamped payload is the same: the claim has no effect. |
| Rows.StampExpenseIgnoresClaim | lib/database.js:35-38 | Whatever `user_id` an expense payload claims, the stamped payload is the same: the claim has no effect. |
| Rows.UnembedEmbed | lib/database.js:12-19 | Embedding each expense's category adds only the category: the expense rows and their order are unchanged. |
| Database.ExpensesUsing | lib/database.js:141-149 | The in-use count is positive exactly when some expense has `category_id` equal to the id. |
| Database.OwnExpenses | lib/database.js:10-22 | The caller's own expenses only, each once, newest first, at most `limit`. Fewer than `limit` only when none was left out, and none left out is newer than one returned. |
| Database.VisibleCategories | lib/database.js:56-60 | Only the caller's and shared categories, each once. Uncut: all of them. Ordered by name when asked. With a limit: at most that many, and those left out come after those kept in name order. |
| Database.VisibleBudgets | app/api/budgets/route.js:24-27 | Exactly the caller's and the shared budgets, each once, as many as there are such budgets. |
| Database.MatchingById | lib/database.js:180-182 | Filtering on id and owner leaves exactly one row when the caller owns that id, and none otherwise. |
| Database.Store.InsertCategory | lib/database.js:79-82 | An insert adds one row under a fresh serial id and changes no other row or table. |
| Database.Store.InsertExpense | lib/database.js:40-43 | An insert adds one row under a fresh serial id and changes no other row or table. |
| Database.Store.GetExpenses | lib/database.js:4-26 | Refuses an unauthenticated caller. Otherwise: only the caller's expenses, each once, newest first, at most `limit` (24 by default), with the top-`limit` property, each with its referenced category embedded. |
| Database.Store.AddExpense | lib/database.js:28-47 | Refuses an unauthenticated caller and changes nothing. Otherwise inserts one expense whose owner is the caller, even if the payload named another owner. All other fields come from the payload, and no existing row changes. |
| Database.Store.GetExpenseById | lib/database.js:163-186 | Refuses an unauthenticated caller. Succeeds exactly when the id exists and the caller owns it, returning that row with its category. Otherwise fails with the single-row error. |
| Database.Store.UpdateExpense | lib/database.js:189-217 | Refusals in order: unauthenticated, no such id, not the caller's (a shared row included). Success exactly when the caller owns the row. On failure the table is unchanged. On success only that row changes, every supplied field overwritten, `user_id` included. |
| Database.Store.DeleteExpense | lib/database.js:220-247 | The same refusals, with no reference check. On success exactly that expense is removed and the result is true. On failure nothing changes. |
| Database.Store.GetCategories | lib/database.js:50-64 | Refuses an unauthenticated caller. Otherwise exactly the categories owned by the caller or shared, each once, ascending by name. |
| Database.Store.AddCategory | lib/database.js:67-86 | Refuses an unauthenticated caller and changes nothing. Otherwise inserts one category whose owner is the caller, whatever the payload said. The other fields come from the payload. |
| Database.Store.UpdateCategory | lib/database.js:89-117 | Refusals in order: unauthenticated, no such id, not the caller's. Success exactly when the caller owns the row. On failure the table is unchanged; on success only that row changes, as the patch says. |
| Database.Store.DeleteCategory | lib/database.js:120-160 | Refusals in order: unauthenticated, no such id, not the caller's, in use by an expense. Success exactly when none applies. On failure nothing is deleted. On success only that category is removed and the result is true. |
| JsParse.ParseIntDecimal | app/api/expenses/route.js:22 | `parseInt` reads back the decimal text of every integer, negatives included, and ignores whatever non-digit text follows. |
| JsParse.ParseIntSkipsWhiteSpace | app/api/expenses/route.js:22 | Leading white space does not change what `parseInt` returns. |
| JsParse.ParseIntWithoutDigits | app/api/expenses/route.js:22 | `parseInt` gives NaN when no digit follows the leading white space and optional sign. |
| Http.LimitFromParameter | app/api/expenses/route.js:20-30 | The row count a request asks for: 5 for an absent or empty `limit`, and the number for the decimal text of a non-negative number, with any non-digit tail ignored. For a negative number: the datastore's rejection or no cut, under either datastore answer. |
| Http.NonNumberLimitIsNaN | app/api/expenses/route.js:20-30 | A non-empty `limit` with no digit after its white space and optional sign parses to NaN, which is passed to the datastore. The datastore then rejects the query or returns every row, under either datastore answer. |
| Http.ParseLimitReadsNumber | app/api/expenses/route.js:20-22 | A missing or empty `limit` parameter gives 5. A parameter holding a number's decimal text, possibly followed by non-digits, gives that number. |
| ExpensesRoute.Get | app/api/expenses/route.js:11-37 | 401 without a session. 400 with the datastore's message on error, or when the datastore rejects an unusable limit. Otherwise 200 with categories, not expenses: only the acting user's and shared ones, each once, by name. With a usable limit: at most `limit`, with the top-`limit` property. With a dropped limit: all of them. |
| ExpensesRoute.Post | app/api/expenses/route.js:39-64 | 401 without a session and 400 on a datastore error, both changing nothing. Otherwise 201 with one new category whose owner is the acting user's id, whatever the body said. The other fields come from the body and no existing row changes. |
| CategoriesRoute.Get | app/api/categories/route.js:11-32 | 401 without a session, 400 on a datastore error. Otherwise 200 with exactly the acting user's and the shared categories, each once. |
| CategoriesRoute.Post | app/api/categories/route.js:34-52 | 401 or 400 with nothing written. Otherwise 201 with one new category owned by the acting user's id (`session.user.id`, else `sub`); with neither, a row with no owner, under the column assumption in "## Left out". |
| BudgetsRoute.Get | app/api/budgets/route.js:10-34 | 401 without a session, 400 on a datastore error. Otherwise 200 with exactly the acting user's and the shared budgets, each once, as many as there are. |
| BudgetsRoute.LimitIgnored | app/api/budgets/route.js:19-27 | The `limit` parameter has no effect on the response. |
| ExpnesesRoute.Get | app/api/expneses/route.js:11-42 | 401 without a session, 400 on a datastore error. Otherwise 200 with only the expenses owned by `session.user.id`, each once, newest first, at most 10, with the top-10 property, each with its category embedded. |
| Middleware.DecideOutcomes | middleware.js:17-31 | Redirect to `/login` exactly for a `/dashboard`-prefixed path without a session. Redirect to `/dashboard` exactly for `/login` or `/register` with a session. Pass through otherwise: one outcome per request. |
| Middleware.RedirectLeavesPath | middleware.js:18-29 | No redirect points back at the requested path. |
| Middleware.RedirectSettles | middleware.js:18-31 | Requesting the redirect target with the same session passes through, so redirects never chain. |
| Middleware.LoginRequiredExactlyUnderDashboard | middleware.js:34-37 | Given the matcher, a request without a session goes to `/login` exactly when its path is `/dashboard` or below it. |
| Scenarios.InUseGuard | lib/database.js:140-151 | A category used by an expense cannot be deleted. After that expense is deleted, the category can be. |
| Scenarios.OwnershipGuard | lib/database.js:204-207 | Another user cannot update an expense, even when the insert payload named them as owner. The owner can update it and sees the new amount. |
| Scenarios.Visibility | lib/database.js:56-60 | A user's category is hidden from another user. A seeded shared category is listed for both. |

## Left out

- The Supabase client, its query builder and the network are replaced by the in-memory store. Row-level security policies live in the database, not in this repository, so every query sees the whole table.
- Session retrieval (`supabase.auth.getUser`, `getServerSession`, `supabase.auth.getSession`) is an input to each operation.
- Datastore failures inside `lib/database.js` (the `if (error) throw error` lines) are not modelled: the in-memory store does not fail. The only datastore error there is `.single()` finding no row. In the routes the failure is the `fault` parameter.
- ExpensesRoute.Get: neither `app/api/expenses/route.js` nor the client library fixes what the datastore does with `.limit(NaN)` or a negative limit. Both answers are modelled as an input (`LimitHandling`): a rejected query (400; "invalid limit" stands in for the datastore's message), or the limit dropped (200 with every visible category by name). Which one holds is not decided.
- `parseInt` results are exact integers. JavaScript's loss of precision above 2^53, and its exponent notation from 10^21 on, are not modelled.
- Column lists in selects and in the embedded `categories(...)` are not modelled: rows come back whole.
- Payload fields other than the modelled columns, and an `id` inside an insert or update payload, are not modelled. An update keeps the row's id.
- Names are ordered by code point, not by the database's collation. Rows with equal sort keys come out in id order, where the datastore promises no order.
- Dates are day numbers and amounts integers; the code does no arithmetic on either.
- A session whose acting id is undefined makes the filters compare against the text `undefined`. If the owner column is a uuid the datastore would reject that text instead. The repository does not define the `categories.user_id` column or its type.
- `request.json()` failing, and a session without a `user` object, both throw (status 500). The model is handed a parsed body and a session with a user.
- `getCategories(24)` in a caller passes an argument the function ignores. The model's `GetCategories` takes none.
- CategoriesRoute.Post (and ExpensesRoute.Post through it): when the session has neither `id` nor `sub`, the insert is assumed to succeed and store a row with no owner. This relies on `categories.user_id` being nullable with a null default, and the repository does not define the `categories.user_id` column. With a NOT NULL column the source's insert fails and the route answers 400.
- Database.Store.GetExpenses: takes `limit` as a natural number; a negative or non-numeric limit is not modelled, since its callers pass 10 or nothing.
- Concurrency: each operation runs atomically. The race between a check and the write that follows it is not modelled.
- Middleware logging and `NextResponse` plumbing. A redirect is modelled by its target path; the origin is kept and the query string dropped.
- `app/api/auth/register.js`, `components/register-form.jsx`, the auth provider, hooks and pages are not part of this model: they are identity-provider pass-throughs, React state and rendering.
