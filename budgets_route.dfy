/**
 * `app/api/budgets/route.js`: GET lists the caller's and the shared budgets. It parses a
 * `limit` parameter but never passes it to the query.
 */
module BudgetsRoute {
  import opened Wrappers
  import opened Query
  import opened Rows
  import opened Database
  import opened Http

  /**
   * GET: 401 without a session; otherwise exactly the budgets owned by the acting user or
   * shared, all of them, with 200, or 400 when the datastore reports an error.
   */
  function Get(db: Store, session: Option<Session>, limitParam: Option<string>, fault: Option<string>): (resp: Response<Budget>)
    reads db
    requires db.Valid()
    ensures session.None? ==> resp == Unauthorized()
    ensures session.Some? && fault.Some? ==> resp == Failed(fault.value)
    ensures resp.status == 200 <==> session.Some? && fault.None?
    ensures resp.status == 200 || resp.status == 400 || resp.status == 401
    ensures resp.status == 200 ==>
      var uid := FilterText(ActingUserId(session.value.user));
      && resp.body.Data?
      && (forall b :: b in resp.body.rows <==> b in db.budgets.Values && Visible(b.userId, uid))
      && Distinct(resp.body.rows)
      && |resp.body.rows| == |set b | b in db.budgets.Values && Visible(b.userId, uid)|
  {
    if session.None? then Unauthorized()
    else
      var uid := ActingUserId(session.value.user);
      var limit := ParseLimit(limitParam);
      if fault.Some? then Failed(fault.value)
      else Response(200, Data(VisibleBudgets(db.budgets, db.nextBudgetId, FilterText(uid))))
  }

  /** The `limit` parameter has no effect on the answer. */
  lemma LimitIgnored(db: Store, session: Option<Session>, p: Option<string>, q: Option<string>, fault: Option<string>)
    requires db.Valid()
    ensures Get(db, session, p, fault) == Get(db, session, q, fault)
  {
  }
}
