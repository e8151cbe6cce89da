/**
 * The `authenticate` middleware: accept a request whose Authorization header
 * is "Bearer " followed by a token that verifies, handing the token's payload
 * on as the request's user; every failure is reported as the same
 * Unauthorized "Invalid or expired token".
 */
module AuthMiddleware {
  import opened Common
  import opened Domain

  const BearerPrefix := "Bearer "
  const InvalidTokenMessage := "Invalid or expired token"

  /** The token after the "Bearer " prefix (`substring(7)`), if the header has that prefix. */
  function BearerToken(header: Option<string>): (r: Option<string>)
    ensures r.Some? <==> header.Some? && |header.value| >= |BearerPrefix| && header.value[..|BearerPrefix|] == BearerPrefix
    ensures r.Some? ==> header.value == BearerPrefix + r.value
  {
    if header.Some? && |header.value| >= |BearerPrefix| && header.value[..|BearerPrefix|] == BearerPrefix
    then Some(header.value[|BearerPrefix|..])
    else None
  }

  /** A header built from any token gives that token back. */
  lemma BearerRoundTrip(token: string)
    ensures BearerToken(Some(BearerPrefix + token)) == Some(token)
  {
    assert (BearerPrefix + token)[..|BearerPrefix|] == BearerPrefix;
    assert (BearerPrefix + token)[|BearerPrefix|..] == token;
  }

  /**
   * authenticate: Ok(payload) stands for `req.user = payload; next()`, and an
   * error for `next(error)`. `verify` is verifyToken, None when it throws.
   */
  function Authenticate(header: Option<string>, verify: string -> Option<TokenPayload>)
    : (r: Result<TokenPayload>)
    ensures r.Ok? <==> BearerToken(header).Some? && verify(BearerToken(header).value).Some?
    ensures r.Ok? ==> r.value == verify(BearerToken(header).value).value
    ensures r.Err? ==> r.error == Unauthorized(InvalidTokenMessage)
    ensures header.None? ==> r == Err(Unauthorized(InvalidTokenMessage))
  {
    match BearerToken(header)
    case None => Err(Unauthorized(InvalidTokenMessage))
    case Some(token) =>
      match verify(token)
      case None => Err(Unauthorized(InvalidTokenMessage))
      case Some(payload) => Ok(payload)
  }
}
