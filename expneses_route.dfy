/**
 * `app/api/expneses/route.js`: GET lists the caller's ten newest expenses. It reads the
 * user id from `session.user.id` alone.
 */
module ExpnesesRoute {
  import opened Wrappers
  import opened Query
  import opened Rows
  import opened Database
  import opened Http

  /** The fixed `.limit(10)` of this route. */
  const PageSize := 10

  /**
   * GET: 401 without a session; otherwise the expenses whose `user_id` is `session.user.id`,
   * newest first, at most ten, each with its category, with 200, or 400 when the datastore
   * reports an error.
   */
  function Get(db: Store, session: Option<Session>, fault: Option<string>): (resp: Response<ExpenseWithCategory>)
    reads db
    requires db.Valid()
    ensures session.None? ==> resp == Unauthorized()
    ensures session.Some? && fault.Some? ==> resp == Failed(fault.value)
    ensures resp.status == 200 <==> session.Some? && fault.None?
    ensures resp.status == 200 || resp.status == 400 || resp.status == 401
    ensures resp.status == 200 ==>
      var owner := Some(FilterText(session.value.user.id));
      && resp.body.Data?
      && var rows := Unembed(resp.body.rows);
         && (forall e :: e in rows ==> e in db.expenses.Values && e.userId == owner)
         && Distinct(rows)
         && (forall i, j :: 0 <= i < j < |rows| ==> rows[i].date >= rows[j].date)
         && |rows| <= PageSize
         && (|rows| < PageSize ==> forall e :: e in db.expenses.Values && e.userId == owner ==> e in rows)
         && (forall e, f :: e in rows && f in db.expenses.Values && f.userId == owner && f !in rows ==> e.date >= f.date)
         && (forall i :: 0 <= i < |resp.body.rows| ==>
               resp.body.rows[i].category == CategoryOf(resp.body.rows[i].expense, db.categories))
  {
    if session.None? then Unauthorized()
    else
      var uid := session.value.user.id;
      if fault.Some? then Failed(fault.value)
      else
        var own := OwnExpenses(db.expenses, db.nextExpenseId, Some(FilterText(uid)), PageSize);
        UnembedEmbed(own, db.categories);
        Response(200, Data(Embed(own, db.categories)))
  }
}
