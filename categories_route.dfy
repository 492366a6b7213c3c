/**
 * `app/api/categories/route.js`: GET lists the caller's and the shared categories, in no
 * particular order and uncut; POST creates a category.
 */
module CategoriesRoute {
  import opened Wrappers
  import opened Query
  import opened Rows
  import opened Database
  import opened Http

  /**
   * GET: 401 without a session; otherwise exactly the categories owned by the acting user or
   * shared, with 200, or 400 when the datastore reports an error.
   */
  function Get(db: Store, session: Option<Session>, fault: Option<string>): (resp: Response<Category>)
    reads db
    requires db.Valid()
    ensures session.None? ==> resp == Unauthorized()
    ensures session.Some? && fault.Some? ==> resp == Failed(fault.value)
    ensures resp.status == 200 <==> session.Some? && fault.None?
    ensures resp.status == 200 || resp.status == 400 || resp.status == 401
    ensures resp.status == 200 ==>
      var uid := FilterText(ActingUserId(session.value.user));
      && resp.body.Data?
      && (forall c :: c in resp.body.rows <==> c in db.categories.Values && Visible(c.userId, uid))
      && Distinct(resp.body.rows)
  {
    if session.None? then Unauthorized()
    else
      var uid := ActingUserId(session.value.user);
      if fault.Some? then Failed(fault.value)
      else Response(200, Data(VisibleCategories(db.categories, db.nextCategoryId, FilterText(uid), false, None)))
  }

  /**
   * POST: 401 without a session; otherwise `{ ...body, user_id: userId }` is inserted, so the
   * stored owner is the acting user's id whatever the body carried, and the row comes back
   * with 201. When the session has neither `id` nor `sub` the owner is undefined, which
   * JSON leaves out; the model assumes the column then takes a null default and the
   * insert succeeds, storing a row with no owner.
   */
  method Post(db: Store, session: Option<Session>, body: CategoryInput, fault: Option<string>) returns (resp: Response<Category>)
    requires db.Valid()
    modifies db`categories, db`nextCategoryId
    ensures db.Valid()
    ensures session.None? ==> resp == Unauthorized()
    ensures session.Some? && fault.Some? ==> resp == Failed(fault.value)
    ensures resp.status == 201 <==> session.Some? && fault.None?
    ensures resp.status != 201 ==> db.categories == old(db.categories) && db.nextCategoryId == old(db.nextCategoryId)
    ensures resp.status == 201 ==>
      && resp.body.Data? && |resp.body.rows| == 1
      && var row := resp.body.rows[0];
         && row.userId == ActingUserId(session.value.user)
         && row.name == body.name && row.color == body.color && row.icon == body.icon
         && row.id == old(db.nextCategoryId) && row.id !in old(db.categories)
         && db.categories == old(db.categories)[row.id := row]
  {
    if session.None? {
      return Unauthorized();
    }
    var uid := ActingUserId(session.value.user);
    var stamped := StampCategory(body, uid);
    if fault.Some? {
      return Failed(fault.value);
    }
    var row := db.InsertCategory(stamped);
    resp := Response(201, Data([row]));
  }
}
