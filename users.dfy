/**
 * The auth-service's `user` table in PostgreSQL, as the strategy, the
 * middleware and the controller use it: rows with a unique id and a
 * unique googleId, looked up by id, upserted by googleId, and updated to
 * hold the user's current refresh token. Any call fails while the
 * database is unreachable.
 */
module Users {
  import opened Wrappers
  import Lookup

  datatype User = User(id: string, googleId: string, email: string, name: string, refreshToken: Option<string>)

  const DB_UNREACHABLE: string := "Can't reach database server"
  const RECORD_NOT_FOUND: string := "Record to update not found"
  const UNIQUE_VIOLATION: string := "Unique constraint failed"

  /** `findUnique({ where: { id } })`. */
  function FindById(users: seq<User>, id: string): (r: Option<User>)
    ensures r.Some? ==> r.value in users && r.value.id == id
    ensures r.None? ==> forall i :: 0 <= i < |users| ==> users[i].id != id
  {
    Lookup.FindFirst(users, (u: User) => u.id == id)
  }

  /** The row with this googleId, if any. */
  function FindByGoogleId(users: seq<User>, googleId: string): (r: Option<User>)
    ensures r.Some? ==> r.value in users && r.value.googleId == googleId
    ensures r.None? ==> forall i :: 0 <= i < |users| ==> users[i].googleId != googleId
  {
    Lookup.FindFirst(users, (u: User) => u.googleId == googleId)
  }

  /** The unique constraints on `id` and on `googleId`. */
  predicate Unique(users: seq<User>) {
    forall i, j :: 0 <= i < j < |users| ==> users[i].id != users[j].id && users[i].googleId != users[j].googleId
  }

  /** Every row `matches` accepts rewritten by `f`, the others kept. */
  function UpdateWhere(users: seq<User>, matches: User -> bool, f: User -> User): (r: seq<User>)
    ensures |r| == |users|
    ensures forall i :: 0 <= i < |users| ==> r[i] == if matches(users[i]) then f(users[i]) else users[i]
    decreases |users|
  {
    if users == [] then []
    else [if matches(users[0]) then f(users[0]) else users[0]] + UpdateWhere(users[1..], matches, f)
  }

  /** `update({ where: { googleId }, data: { name } })`. */
  function Renamed(users: seq<User>, googleId: string, name: string): seq<User> {
    UpdateWhere(users, (u: User) => u.googleId == googleId, (u: User) => u.(name := name))
  }

  /** `update({ where: { id }, data: { refreshToken } })`. */
  function WithRefreshToken(users: seq<User>, id: string, token: Option<string>): seq<User> {
    UpdateWhere(users, (u: User) => u.id == id, (u: User) => u.(refreshToken := token))
  }

  /** Setting the refresh token of a user changes that user's token and nothing else, and later lookups see it. */
  lemma {:induction false} WithRefreshTokenLookup(users: seq<User>, id: string, token: Option<string>, other: string)
    ensures FindById(WithRefreshToken(users, id, token), other) ==
      if other == id then (if FindById(users, id).Some? then Some(FindById(users, id).value.(refreshToken := token)) else None)
      else FindById(users, other)
    decreases |users|
  {
    if users != [] {
      WithRefreshTokenLookup(users[1..], id, token, other);
      assert WithRefreshToken(users, id, token)[1..] == WithRefreshToken(users[1..], id, token);
    }
  }

  /** Renaming keeps every id lookup but for the name, and keeps the googleIds. */
  lemma {:induction false} RenamedLookup(users: seq<User>, googleId: string, name: string)
    ensures FindByGoogleId(Renamed(users, googleId, name), googleId) ==
      if FindByGoogleId(users, googleId).Some? then Some(FindByGoogleId(users, googleId).value.(name := name)) else None
    decreases |users|
  {
    if users != [] {
      RenamedLookup(users[1..], googleId, name);
      assert Renamed(users, googleId, name)[1..] == Renamed(users[1..], googleId, name);
    }
  }

  /** Updating rows keeps the constraints when no id or googleId is touched. */
  lemma UpdatesKeepUnique(users: seq<User>, id: string, token: Option<string>, googleId: string, name: string)
    requires Unique(users)
    ensures Unique(WithRefreshToken(users, id, token))
    ensures Unique(Renamed(users, googleId, name))
  {
  }

  class UserTable {
    var users: seq<User>
    var reachable: bool

    constructor ()
      ensures users == [] && reachable
    {
      users := [];
      reachable := true;
    }

    predicate Valid()
      reads this
    {
      Unique(users)
    }

    /** `findUnique({ where: { id } })`: the user, if any; the database error when unreachable. */
    method FindUnique(id: string) returns (r: Result<Option<User>, string>)
      ensures r.Ok? <==> reachable
      ensures r.Ok? ==> r.value == FindById(users, id)
      ensures r.Err? ==> r.error == DB_UNREACHABLE
    {
      if !reachable {
        return Err(DB_UNREACHABLE);
      }
      r := Ok(FindById(users, id));
    }

    /**
     * `upsert({ where: { googleId }, update: { name }, create: { googleId, email, name } })`:
     * an existing user only gets the new name; otherwise a user is created
     * under the id the database generates (`newId`), with no refresh token.
     */
    method Upsert(googleId: string, email: string, name: string, newId: string) returns (r: Result<User, string>)
      requires Valid()
      modifies this`users
      ensures Valid()
      ensures r.Ok? ==> FindByGoogleId(users, googleId) == Some(r.value) && r.value.name == name
      ensures reachable && FindByGoogleId(old(users), googleId).Some? ==>
        r == Ok(FindByGoogleId(old(users), googleId).value.(name := name)) && users == Renamed(old(users), googleId, name)
      ensures reachable && FindByGoogleId(old(users), googleId).None? && FindById(old(users), newId).None? ==>
        r == Ok(User(newId, googleId, email, name, None)) && users == old(users) + [r.value]
      ensures r.Err? ==> users == old(users)
      ensures r.Err? <==> !reachable || (FindByGoogleId(old(users), googleId).None? && FindById(old(users), newId).Some?)
    {
      if !reachable {
        return Err(DB_UNREACHABLE);
      }
      var existing := FindByGoogleId(users, googleId);
      if existing.Some? {
        UpdatesKeepUnique(users, "", None, googleId, name);
        RenamedLookup(users, googleId, name);
        users := Renamed(users, googleId, name);
        return Ok(existing.value.(name := name));
      }
      if FindById(users, newId).Some? {
        return Err(UNIQUE_VIOLATION);
      }
      var created := User(newId, googleId, email, name, None);
      FindByGoogleIdAppend(users, created);
      users := users + [created];
      r := Ok(created);
    }

    /** `update({ where: { id }, data: { refreshToken } })`: fails, changing nothing, when there is no such user. */
    method SetRefreshToken(id: string, token: Option<string>) returns (r: Result<User, string>)
      requires Valid()
      modifies this`users
      ensures Valid()
      ensures r.Ok? <==> reachable && FindById(old(users), id).Some?
      ensures r.Ok? ==> r.value == FindById(old(users), id).value.(refreshToken := token) && users == WithRefreshToken(old(users), id, token)
      ensures r.Err? ==> users == old(users)
    {
      if !reachable {
        return Err(DB_UNREACHABLE);
      }
      var found := FindById(users, id);
      if found.None? {
        return Err(RECORD_NOT_FOUND);
      }
      UpdatesKeepUnique(users, id, token, "", "");
      users := WithRefreshToken(users, id, token);
      r := Ok(found.value.(refreshToken := token));
    }
  }

  /** A new row is found by its googleId when no earlier row has it. */
  lemma {:induction false} FindByGoogleIdAppend(users: seq<User>, u: User)
    requires FindByGoogleId(users, u.googleId).None?
    ensures FindByGoogleId(users + [u], u.googleId) == Some(u)
    decreases |users|
  {
    if users != [] {
      assert (users + [u])[1..] == users[1..] + [u];
      FindByGoogleIdAppend(users[1..], u);
    }
  }
}
