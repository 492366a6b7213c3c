/**
 * `app/api/expenses/route.js`. Despite its path, both handlers work on the `categories`
 * table: GET lists the caller's and the shared categories by name, POST creates a category.
 */
module ExpensesRoute {
  import opened Wrappers
  import opened Query
  import opened Order
  import opened Rows
  import opened Database
  import opened Http
  import CategoriesRoute

  /**
   * GET: 401 without a session; otherwise the categories owned by the acting user or shared,
   * ordered by name and cut to `limit` rows (5 by default), with 200, or 400 when the
   * datastore reports an error. A `limit` that is NaN or negative is rejected by the
   * datastore (400) or dropped (every row), as `handling` says.
   */
  function Get(db: Store, session: Option<Session>, limitParam: Option<string>, handling: LimitHandling,
               fault: Option<string>): (resp: Response<Category>)
    reads db
    requires db.Valid()
    ensures session.None? ==> resp == Unauthorized()
    ensures session.Some? && fault.Some? ==> resp == Failed(fault.value)
    ensures session.Some? && fault.None? && LimitCount(ParseLimit(limitParam), handling).Failure? ==>
              resp == Failed(LimitRejected)
    ensures resp.status == 200 <==> session.Some? && fault.None? && LimitCount(ParseLimit(limitParam), handling).Success?
    ensures resp.status == 200 || resp.status == 400 || resp.status == 401
    ensures resp.status == 200 ==>
      var uid := FilterText(ActingUserId(session.value.user));
      var cut := LimitCount(ParseLimit(limitParam), handling).value;
      && resp.body.Data?
      && var rows := resp.body.rows;
         // only the caller's and the shared categories, each once
         && (forall c :: c in rows ==> c in db.categories.Values && Visible(c.userId, uid))
         && Distinct(rows)
         // by name
         && (forall i, j :: 0 <= i < j < |rows| ==> LexLe(rows[i].name, rows[j].name))
         // a dropped limit: all of them
         && (cut.None? ==> forall c :: c in db.categories.Values && Visible(c.userId, uid) ==> c in rows)
         // at most `limit`, the ones left out coming after the ones returned
         && (cut.Some? ==> |rows| <= cut.value)
         && (cut.Some? && |rows| < cut.value ==> forall c :: c in db.categories.Values && Visible(c.userId, uid) ==> c in rows)
         && (forall c, d :: c in rows && d in db.categories.Values && Visible(d.userId, uid) && d !in rows ==>
               LexLe(c.name, d.name))
  {
    if session.None? then Unauthorized()
    else
      var uid := ActingUserId(session.value.user);
      var limit := LimitCount(ParseLimit(limitParam), handling);
      if fault.Some? then Failed(fault.value)
      else if limit.Failure? then Failed(limit.error)
      else
        Response(200, Data(VisibleCategories(db.categories, db.nextCategoryId, FilterText(uid), true, limit.value)))
  }

  /**
   * POST: 401 without a session; otherwise the body is inserted into `categories` with its
   * `user_id` replaced by the acting user's id, and the new row is returned with 201.
   */
  method Post(db: Store, session: Option<Session>, body: CategoryInput, fault: Option<string>) returns (resp: Response<Category>)
    requires db.Valid()
    modifies db`categories, db`nextCategoryId
    ensures db.Valid()
    ensures session.None? ==> resp == Unauthorized()
    ensures session.Some? && fault.Some? ==> resp == Failed(fault.value)
    ensures resp.status == 201 <==> session.Some? && fault.None?
    ensures resp.status != 201 ==> db.categories == old(db.categories) && db.nextCategoryId == old(db.nextCategoryId)
    ensures resp.status == 201 ==>
      && resp.body.Data? && |resp.body.rows| == 1
      && var row := resp.body.rows[0];
         && row.userId == ActingUserId(session.value.user)
         && row.name == body.name && row.color == body.color && row.icon == body.icon
         && row.id == old(db.nextCategoryId) && row.id !in old(db.categories)
         && db.categories == old(db.categories)[row.id := row]
  {
    resp := CategoriesRoute.Post(db, session, body, fault);
  }
}
