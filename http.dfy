/**
 * What the API route handlers share: the session they are given, the user id they act
 * as, the JSON responses they return, and the reading of the `limit` query parameter.
 */
module Http {
  import opened Wrappers
  import opened Rows
  import opened JsParse

  /** The `user` of a session as the route handlers read it; either property may be absent. */
  datatype SessionUser = SessionUser(id: Option<string>, sub: Option<string>)

  /** A signed-in session. The handlers receive `Option<Session>`: None when nobody is signed in. */
  datatype Session = Session(user: SessionUser)

  /**
   * `session.user.id || session.user.sub`: the id when it is present and not empty,
   * otherwise whatever `sub` holds, which may itself be absent.
   */
  function ActingUserId(user: SessionUser): Option<UserId>
  {
    if user.id.Some? && user.id.value != "" then user.id else user.sub
  }

  /** A JSON response body: the rows, or `{ error: message }`. */
  datatype Body<T> = Data(rows: seq<T>) | ErrorJson(error: string)

  /** `NextResponse.json(body, { status })`. */
  datatype Response<T> = Response(status: int, body: Body<T>)

  /** The answer to a request without a session. */
  function Unauthorized<T>(): Response<T>
  {
    Response(401, ErrorJson("Unauthorized"))
  }

  /** The answer when the datastore reports an error: 400 with its message. */
  function Failed<T>(message: string): Response<T>
  {
    Response(400, ErrorJson(message))
  }

  /** The limit a route uses when the request gives none. */
  const DefaultLimit := 5

  /**
   * `limitParam ? parseInt(limitParam, 10) : 5`: an absent parameter and an empty one
   * (both falsy) give the default; any other text is parsed.
   */
  function ParseLimit(param: Option<string>): ParsedInt
  {
    if param.None? || param.value == "" then Int(DefaultLimit) else ParseInt(param.value)
  }

  /**
   * What the datastore does with a `limit` that is not a non-negative integer (NaN, or a
   * negative number): neither the route nor the client library fixes it, so both answers
   * are modelled. It either rejects the query or drops the limit and returns every row.
   */
  datatype LimitHandling = Rejects | Ignores

  /** The text the datastore answers with when it rejects the limit it was sent. */
  const LimitRejected := "invalid limit"

  /**
   * How the datastore takes a parsed limit: a row count when it is a non-negative integer;
   * otherwise a rejected query, or no cut at all, as `handling` says.
   */
  function LimitCount(limit: ParsedInt, handling: LimitHandling): Result<Option<nat>, string>
  {
    if limit.Int? && limit.value >= 0 then Success(Some(limit.value))
    else if handling == Rejects then Failure(LimitRejected)
    else Success(None)
  }

  /**
   * A request without `limit` gets 5 rows at most; one whose `limit` is the decimal text of
   * a number, possibly followed by non-digits, gets that number.
   */
  lemma ParseLimitReadsNumber(n: int, rest: string)
    requires rest == [] || !IsDigit(rest[0])
    ensures ParseLimit(None) == Int(5) && ParseLimit(Some("")) == Int(5)
    ensures ParseLimit(Some(DecimalText(n) + rest)) == Int(n)
  {
    ParseIntDecimal(n, rest);
    assert |DecimalText(n)| > 0;
  }

  /**
   * The row count a `limit` parameter leads to: 5 when it is absent or empty, the number
   * itself when it is the decimal text of a non-negative number, and for a negative one the
   * datastore's rejection or no cut at all.
   */
  lemma LimitFromParameter(n: int, rest: string, handling: LimitHandling)
    requires rest == [] || !IsDigit(rest[0])
    ensures LimitCount(ParseLimit(None), handling) == Success(Some(DefaultLimit))
    ensures LimitCount(ParseLimit(Some("")), handling) == Success(Some(DefaultLimit))
    ensures n >= 0 ==> LimitCount(ParseLimit(Some(DecimalText(n) + rest)), handling) == Success(Some(n))
    ensures n < 0 && handling == Rejects ==> LimitCount(ParseLimit(Some(DecimalText(n) + rest)), handling) == Failure(LimitRejected)
    ensures n < 0 && handling == Ignores ==> LimitCount(ParseLimit(Some(DecimalText(n) + rest)), handling) == Success(None)
  {
    ParseLimitReadsNumber(n, rest);
  }

  /**
   * A non-empty `limit` parameter with no digit after its white space and optional sign
   * parses to NaN, and NaN is what reaches the datastore: it then rejects the query or
   * returns every row, as `handling` says.
   */
  lemma NonNumberLimitIsNaN(ws: string, sign: string, rest: string, handling: LimitHandling)
    requires forall i :: 0 <= i < |ws| ==> IsWhiteSpace(ws[i])
    requires sign == "" || sign == "-" || sign == "+"
    requires rest == [] || !IsDigit(rest[0])
    requires sign == "" && rest != [] ==> !IsWhiteSpace(rest[0]) && rest[0] != '-' && rest[0] != '+'
    requires ws + sign + rest != ""
    ensures ParseLimit(Some(ws + sign + rest)) == NaN
    ensures handling == Rejects ==> LimitCount(ParseLimit(Some(ws + sign + rest)), handling) == Failure(LimitRejected)
    ensures handling == Ignores ==> LimitCount(ParseLimit(Some(ws + sign + rest)), handling) == Success(None)
  {
    ParseIntWithoutDigits(ws, sign, rest);
  }
}
