/**
 * The auth-service's controller: the refresh-token life cycle. A Google
 * login issues an access token and a refresh token and stores the refresh
 * token on the user; `refresh` trades a refresh token for a new access
 * token only while it is the one stored; `logout` clears it. Signing and
 * verifying are the abstract functions of `Jwt.Keys`.
 */
module AuthController {
  import opened Wrappers
  import opened Http
  import opened Json
  import Jwt
  import Users

  const AUTH_FAILED: string := "Authentication failed"
  const REFRESH_REQUIRED: string := "Refresh token is required"
  const REFRESH_INVALID: string := "Invalid or expired refresh token"
  const REFRESH_REVOKED: string := "Refresh token has been revoked"
  const NOT_AUTHENTICATED: string := "Not authenticated"
  const LOGGED_OUT: string := "Logged out successfully"
  /** The TypeError of reading `user.id` when `req.user` is unset. */
  const NO_USER_ID: string := "Cannot read properties of undefined (reading 'id')"

  /** The user as the responses show it. */
  datatype UserView = UserView(id: string, email: string, name: string)

  /** The body of a successful Google callback. */
  datatype Issued = Issued(accessToken: string, refreshToken: string, user: UserView)

  function View(u: Users.User): UserView {
    UserView(u.id, u.email, u.name)
  }

  /**
   * `googleCallback`: without a user, 401 "Authentication failed". With
   * one, both tokens are signed for it, the refresh token is stored on its
   * row, and the response carries both tokens and the user.
   */
  method GoogleCallback(table: Users.UserTable, user: Option<Users.User>, keys: Jwt.Keys) returns (r: Result<Issued, Thrown>)
    requires table.Valid()
    modifies table`users
    ensures table.Valid()
    ensures user.None? ==> r == Err(App(Fail(AUTH_FAILED, 401)))
    ensures r.Ok? <==> user.Some? && table.reachable && Users.FindById(old(table.users), user.value.id).Some?
    ensures r.Ok? ==>
      var u := user.value;
      && r.value == Issued(keys.signAccess(Jwt.AccessPayload(u.id, u.email)), keys.signRefresh(u.id), View(u))
      && table.users == Users.WithRefreshToken(old(table.users), u.id, Some(r.value.refreshToken))
    ensures r.Err? ==> table.users == old(table.users)
  {
    if user.None? {
      return Err(App(Fail(AUTH_FAILED, 401)));
    }
    var u := user.value;
    var accessToken := keys.signAccess(Jwt.AccessPayload(u.id, u.email));
    var refreshToken := keys.signRefresh(u.id);
    var updated := table.SetRefreshToken(u.id, Some(refreshToken));
    if updated.Err? {
      return Err(Other(updated.error));
    }
    r := Ok(Issued(accessToken, refreshToken, View(u)));
  }

  /** The user id a presented refresh token verifies to; only a string can verify. */
  function RefreshSubject(token: Json, keys: Jwt.Keys): Option<string> {
    if token.JStr? && keys.verifyRefresh(token.s).Some? then Some(keys.verifyRefresh(token.s).value.userId) else None
  }

  /** What `refresh` answers for the body's `refreshToken` against the table in state `users`. */
  function RefreshOutcome(users: seq<Users.User>, reachable: bool, refreshToken: Option<Json>, keys: Jwt.Keys): Result<string, Thrown> {
    if !Truthy(refreshToken) then Err(App(Fail(REFRESH_REQUIRED, 400)))
    else
      var subject := RefreshSubject(refreshToken.value, keys);
      if subject.None? then Err(App(Fail(REFRESH_INVALID, 401)))
      else if !reachable then Err(Other(Users.DB_UNREACHABLE))
      else match Users.FindById(users, subject.value)
        case None => Err(App(Fail(REFRESH_REVOKED, 401)))
        case Some(u) =>
          if u.refreshToken.None? || refreshToken.value != JStr(u.refreshToken.value) then Err(App(Fail(REFRESH_REVOKED, 401)))
          else Ok(keys.signAccess(Jwt.AccessPayload(u.id, u.email)))
  }

  /** `refresh`: reads the table and changes nothing. */
  method Refresh(table: Users.UserTable, refreshToken: Option<Json>, keys: Jwt.Keys) returns (r: Result<string, Thrown>)
    ensures r == RefreshOutcome(table.users, table.reachable, refreshToken, keys)
  {
    if !Truthy(refreshToken) {
      return Err(App(Fail(REFRESH_REQUIRED, 400)));
    }
    var subject := RefreshSubject(refreshToken.value, keys);
    if subject.None? {
      return Err(App(Fail(REFRESH_INVALID, 401)));
    }
    var found := table.FindUnique(subject.value);
    if found.Err? {
      return Err(Other(found.error));
    }
    if found.value.None? {
      return Err(App(Fail(REFRESH_REVOKED, 401)));
    }
    var u := found.value.value;
    if u.refreshToken.None? || refreshToken.value != JStr(u.refreshToken.value) {
      return Err(App(Fail(REFRESH_REVOKED, 401)));
    }
    r := Ok(keys.signAccess(Jwt.AccessPayload(u.id, u.email)));
  }

  /**
   * `refresh` answers 400 without a token, 401 "Invalid or expired" for a
   * token that does not verify, and succeeds exactly when the token is the
   * one stored on the user it names; the new access token is for that user.
   */
  lemma RefreshCases(users: seq<Users.User>, refreshToken: Option<Json>, keys: Jwt.Keys)
    ensures refreshToken.None? || refreshToken == Some(JStr("")) || refreshToken == Some(JNull) ==>
      RefreshOutcome(users, true, refreshToken, keys) == Err(App(AppError("AppError", "Refresh token is required", 400)))
    ensures refreshToken.Some? && refreshToken.value.JStr? && refreshToken.value.s != "" && keys.verifyRefresh(refreshToken.value.s).None? ==>
      RefreshOutcome(users, true, refreshToken, keys) == Err(App(AppError("AppError", "Invalid or expired refresh token", 401)))
    ensures RefreshOutcome(users, true, refreshToken, keys).Ok? <==>
      exists t :: refreshToken == Some(JStr(t)) && t != "" && keys.verifyRefresh(t).Some?
        && Users.FindById(users, keys.verifyRefresh(t).value.userId).Some?
        && Users.FindById(users, keys.verifyRefresh(t).value.userId).value.refreshToken == Some(t)
    ensures RefreshOutcome(users, true, refreshToken, keys).Ok? ==>
      var u := Users.FindById(users, RefreshSubject(refreshToken.value, keys).value).value;
      RefreshOutcome(users, true, refreshToken, keys).value == keys.signAccess(Jwt.AccessPayload(u.id, u.email))
  {
    if RefreshOutcome(users, true, refreshToken, keys).Ok? {
      var t := refreshToken.value.s;
      assert refreshToken == Some(JStr(t));
    }
  }

  /** After logout no refresh token gets a new access token for that user, whatever it is. */
  lemma LogoutRevokes(users: seq<Users.User>, id: string, reachable: bool, refreshToken: Option<Json>, keys: Jwt.Keys)
    ensures var after := Users.WithRefreshToken(users, id, None);
      RefreshOutcome(after, reachable, refreshToken, keys).Ok? ==> RefreshSubject(refreshToken.value, keys) != Some(id)
  {
    if Truthy(refreshToken) && RefreshSubject(refreshToken.value, keys) == Some(id) {
      Users.WithRefreshTokenLookup(users, id, None, id);
    }
  }

  /** A new login replaces the stored token, so the token issued before it is revoked. */
  lemma NewLoginRevokesOldToken(users: seq<Users.User>, id: string, older: string, newer: string, keys: Jwt.Keys)
    requires older != newer && older != ""
    requires keys.verifyRefresh(older) == Some(Jwt.RefreshPayload(id))
    ensures RefreshOutcome(Users.WithRefreshToken(users, id, Some(newer)), true, Some(JStr(older)), keys)
      == Err(App(AppError("AppError", "Refresh token has been revoked", 401)))
  {
    Users.WithRefreshTokenLookup(users, id, Some(newer), id);
  }

  /**
   * The refresh token a login stores works: as long as it still verifies,
   * refreshing with it gives an access token for the stored user.
   */
  lemma IssuedTokenRefreshes(users: seq<Users.User>, id: string, keys: Jwt.Keys)
    requires Users.FindById(users, id).Some?
    requires keys.signRefresh(id) != "" && keys.verifyRefresh(keys.signRefresh(id)) == Some(Jwt.RefreshPayload(id))
    ensures var token := keys.signRefresh(id);
      var u := Users.FindById(users, id).value;
      RefreshOutcome(Users.WithRefreshToken(users, id, Some(token)), true, Some(JStr(token)), keys)
        == Ok(keys.signAccess(Jwt.AccessPayload(id, u.email)))
  {
    Users.WithRefreshTokenLookup(users, id, Some(keys.signRefresh(id)), id);
  }

  /** `getMe`: the authenticated user's id, email and name, or 401 "Not authenticated". */
  function GetMe(user: Option<Users.User>): (r: Result<UserView, AppError>)
    ensures r.Ok? <==> user.Some?
    ensures r.Ok? ==> r.value.id == user.value.id && r.value.email == user.value.email && r.value.name == user.value.name
    ensures r.Err? ==> r.error == Fail(NOT_AUTHENTICATED, 401)
  {
    if user.None? then Err(Fail(NOT_AUTHENTICATED, 401)) else Ok(View(user.value))
  }

  /**
   * `logout`: clears the stored refresh token of `req.user`. The route
   * always runs `authenticate` first; without a user the handler fails on
   * reading its id.
   */
  method Logout(table: Users.UserTable, user: Option<Users.User>) returns (r: Result<string, Thrown>)
    requires table.Valid()
    modifies table`users
    ensures table.Valid()
    ensures user.None? ==> r == Err(Other(NO_USER_ID))
    ensures r.Ok? <==> user.Some? && table.reachable && Users.FindById(old(table.users), user.value.id).Some?
    ensures r.Ok? ==> r.value == LOGGED_OUT && table.users == Users.WithRefreshToken(old(table.users), user.value.id, None)
    ensures r.Err? ==> table.users == old(table.users)
  {
    if user.None? {
      return Err(Other(NO_USER_ID));
    }
    var updated := table.SetRefreshToken(user.value.id, None);
    if updated.Err? {
      return Err(Other(updated.error));
    }
    r := Ok(LOGGED_OUT);
  }
}
