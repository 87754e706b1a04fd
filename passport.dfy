/**
 * The auth-service's Google OAuth2 strategy: once Google has returned the
 * user's profile, the verify callback finds the user by googleId or
 * creates one, and hands it to Passport with `done(null, user)`, or hands
 * over the error with `done(error)`. The exchange with Google itself is
 * not modelled; the callback starts from the profile it yields.
 */
module Passport {
  import opened Wrappers
  import opened Http
  import Users

  const NO_EMAIL: string := "No email returned from Google"

  /** One address of `profile.emails`. */
  datatype ProfileEmail = ProfileEmail(value: string)

  /** The Google profile: its id, its addresses (possibly absent) and the display name. */
  datatype Profile = Profile(id: string, emails: Option<seq<ProfileEmail>>, displayName: string)

  /** `profile.emails?.[0]?.value`. */
  function FirstEmail(profile: Profile): (r: Option<string>)
    ensures r.Some? <==> profile.emails.Some? && |profile.emails.value| > 0
    ensures r.Some? ==> r.value == profile.emails.value[0].value
  {
    match profile.emails
    case None => None
    case Some(emails) => if |emails| == 0 then None else Some(emails[0].value)
  }

  /** The address the callback uses, or `None` when it gives up: no address, or an empty one. */
  function UsableEmail(profile: Profile): Option<string> {
    var email := FirstEmail(profile);
    if email.None? || email.value == "" then None else email
  }

  /**
   * The verify callback. `newId` is the id the database would give a
   * created user. A profile without a usable address ends in
   * `done(error)` before the database is touched; a store error ends in
   * `done(error)` too.
   */
  method Verify(table: Users.UserTable, profile: Profile, newId: string) returns (done: Result<Users.User, Thrown>)
    requires table.Valid()
    modifies table`users
    ensures table.Valid()
    ensures UsableEmail(profile).None? ==> done == Err(Other(NO_EMAIL)) && table.users == old(table.users)
    ensures done.Err? ==> table.users == old(table.users)
    ensures done.Ok? ==> Users.FindByGoogleId(table.users, profile.id) == Some(done.value) && done.value.name == profile.displayName
    ensures UsableEmail(profile).Some? && table.reachable && Users.FindByGoogleId(old(table.users), profile.id).Some? ==>
      && done == Ok(Users.FindByGoogleId(old(table.users), profile.id).value.(name := profile.displayName))
      && table.users == Users.Renamed(old(table.users), profile.id, profile.displayName)
    ensures UsableEmail(profile).Some? && table.reachable && Users.FindByGoogleId(old(table.users), profile.id).None?
            && Users.FindById(old(table.users), newId).None? ==>
      && done == Ok(Users.User(newId, profile.id, UsableEmail(profile).value, profile.displayName, None))
      && table.users == old(table.users) + [done.value]
  {
    var email := FirstEmail(profile);
    if email.None? || email.value == "" {
      return Err(Other(NO_EMAIL));
    }
    var user := table.Upsert(profile.id, email.value, profile.displayName, newId);
    if user.Err? {
      return Err(Other(user.error));
    }
    done := Ok(user.value);
  }

  /** The email that is stored is the first address of the profile; a later address never is. */
  lemma FirstAddressUsed(id: string, first: string, others: seq<ProfileEmail>, name: string)
    requires first != ""
    ensures UsableEmail(Profile(id, Some([ProfileEmail(first)] + others), name)) == Some(first)
    ensures UsableEmail(Profile(id, Some([ProfileEmail("")] + others), name)).None?
    ensures UsableEmail(Profile(id, Some([]), name)).None? && UsableEmail(Profile(id, None, name)).None?
  {
  }

  /** `serializeUser`: the whole user is what Passport keeps. */
  function SerializeUser(user: Users.User): Users.User {
    user
  }

  /** `deserializeUser`: the kept value is the user. */
  function DeserializeUser(kept: Users.User): Users.User {
    kept
  }

  /** Serializing and then deserializing gives the same user back. */
  lemma SessionRoundTrip(user: Users.User)
    ensures DeserializeUser(SerializeUser(user)) == user
  {
  }
}
