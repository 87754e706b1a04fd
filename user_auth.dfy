/**
 * The auth-service's `authenticate` middleware: the same Bearer check as
 * the other services, followed by a lookup of the token's user, who must
 * still exist; that database user becomes `req.user`. Every failure,
 * a database error included, is passed to `next(error)`.
 */
module UserAuth {
  import opened Wrappers
  import opened Http
  import Jwt
  import Users
  import PayloadAuth

  const USER_GONE: string := "User no longer exists"

  /** The user a header proves against the table in state `users`, or the error the middleware passes on. */
  function Check(header: Option<string>, verify: string -> Option<Jwt.AccessPayload>, users: seq<Users.User>, reachable: bool): Result<Users.User, Thrown> {
    match PayloadAuth.Check(header, verify)
    case Err(e) => Err(App(e))
    case Ok(payload) =>
      if !reachable then Err(Other(Users.DB_UNREACHABLE))
      else match Users.FindById(users, payload.userId)
        case None => Err(App(Fail(USER_GONE, 401)))
        case Some(user) => Ok(user)
  }

  /**
   * A request gets through exactly when its token verifies and names a
   * user in the table, and then `req.user` is that user; deleting the user
   * shuts the door on a token that still verifies.
   */
  lemma CheckCases(header: Option<string>, verify: string -> Option<Jwt.AccessPayload>, users: seq<Users.User>, reachable: bool)
    ensures Check(header, verify, users, reachable).Ok? <==>
      PayloadAuth.Check(header, verify).Ok? && reachable && Users.FindById(users, PayloadAuth.Check(header, verify).value.userId).Some?
    ensures Check(header, verify, users, reachable).Ok? ==>
      Check(header, verify, users, reachable).value.id == PayloadAuth.Check(header, verify).value.userId
      && Check(header, verify, users, reachable).value in users
    ensures PayloadAuth.Check(header, verify).Ok? && reachable && Users.FindById(users, PayloadAuth.Check(header, verify).value.userId).None? ==>
      Check(header, verify, users, reachable) == Err(App(AppError("AppError", "User no longer exists", 401)))
    ensures PayloadAuth.Check(header, verify).Err? ==> Check(header, verify, users, reachable) == Err(App(PayloadAuth.Check(header, verify).error))
  {
  }

  /** A request in the auth-service, whose `req.user` is a database user. */
  class Request {
    var authorization: Option<string>
    var user: Option<Users.User>

    constructor (authorization: Option<string>)
      ensures this.authorization == authorization && user == None
    {
      this.authorization := authorization;
      user := None;
    }
  }

  /** `authenticate(req, res, next)`. */
  method Authenticate(req: Request, table: Users.UserTable, verify: string -> Option<Jwt.AccessPayload>) returns (next: Next)
    modifies req`user
    ensures next == Proceed <==> Check(req.authorization, verify, table.users, table.reachable).Ok?
    ensures next == Proceed ==> req.user == Some(Check(req.authorization, verify, table.users, table.reachable).value)
    ensures next != Proceed ==>
      next == NextError(Check(req.authorization, verify, table.users, table.reachable).error) && req.user == old(req.user)
  {
    var payload := PayloadAuth.Check(req.authorization, verify);
    if payload.Err? {
      return NextError(App(payload.error));
    }
    var found := table.FindUnique(payload.value.userId);
    if found.Err? {
      return NextError(Other(found.error));
    }
    if found.value.None? {
      return NextError(App(Fail(USER_GONE, 401)));
    }
    req.user := found.value;
    next := Proceed;
  }
}
