/**
 * The `authenticate` middleware of the url-service and of the
 * analytics-service (the two are the same code): the Bearer token is
 * verified and its payload attached to the request as `req.user`, with no
 * database lookup. Every failure is a 401 passed to `next(error)`.
 */
module PayloadAuth {
  import opened Wrappers
  import opened Http
  import Bearer
  import Jwt

  const INVALID_TOKEN: string := "Invalid or expired token"

  /** The payload the header proves, or the 401 the middleware throws. */
  function Check(header: Option<string>, verify: string -> Option<Jwt.AccessPayload>): Result<Jwt.AccessPayload, AppError> {
    match Bearer.Token(header)
    case Err(e) => Err(e)
    case Ok(token) =>
      match verify(token)
      case None => Err(Fail(INVALID_TOKEN, 401))
      case Some(payload) => Ok(payload)
  }

  /**
   * The three ways a request is answered: 401 "No token provided" without
   * a "Bearer " token, 401 "Invalid or expired token" when the token the
   * header carries does not verify, and otherwise the verified payload of
   * exactly that token.
   */
  lemma CheckCases(header: Option<string>, verify: string -> Option<Jwt.AccessPayload>)
    ensures Bearer.Token(header).Err? <==> Check(header, verify) == Err(Fail(Bearer.NO_TOKEN, 401))
    ensures Check(header, verify) == Err(Fail(INVALID_TOKEN, 401)) <==>
      header.Some? && Bearer.SCHEME <= header.value && Bearer.UpToSpace(header.value[|Bearer.SCHEME|..]) != ""
      && verify(Bearer.UpToSpace(header.value[|Bearer.SCHEME|..])).None?
    ensures Check(header, verify).Ok? ==>
      && header.Some? && Bearer.SCHEME <= header.value
      && verify(Bearer.UpToSpace(header.value[|Bearer.SCHEME|..])) == Some(Check(header, verify).value)
  {
    Bearer.TokenCases(header);
  }

  /** A request as the middleware sees it: its Authorization header, and `req.user` once set. */
  class Request {
    var authorization: Option<string>
    var user: Option<Jwt.AccessPayload>

    constructor (authorization: Option<string>)
      ensures this.authorization == authorization && user == None
    {
      this.authorization := authorization;
      user := None;
    }
  }

  /** `authenticate(req, res, next)`: on success `req.user` is the payload and `next()` is called; otherwise `next(error)` with `req.user` untouched. */
  method Authenticate(req: Request, verify: string -> Option<Jwt.AccessPayload>) returns (next: Next)
    modifies req`user
    ensures next == Proceed <==> Check(req.authorization, verify).Ok?
    ensures next == Proceed ==> req.user == Some(Check(req.authorization, verify).value)
    ensures next != Proceed ==> next == NextError(App(Check(req.authorization, verify).error)) && req.user == old(req.user)
  {
    var token := Bearer.Token(req.authorization);
    if token.Err? {
      return NextError(App(token.error));
    }
    var payload := verify(token.value);
    if payload.None? {
      return NextError(App(Fail(INVALID_TOKEN, 401)));
    }
    req.user := payload;
    next := Proceed;
  }
}
