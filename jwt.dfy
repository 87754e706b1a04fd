/**
 * The JSON Web Tokens the three services exchange. Signing and verifying
 * are done by jsonwebtoken with a shared secret; the model keeps them
 * abstract, as functions from payloads to token text and back. Verifying
 * never throws: a bad signature, an expired token or a value that is not
 * a string all give `None`.
 */
module Jwt {
  import opened Wrappers

  /** `AccessTokenPayload` (`JwtPayload` in the auth-service): who the bearer is. */
  datatype AccessPayload = AccessPayload(userId: string, email: string)

  /** The payload of a refresh token: only the user id. */
  datatype RefreshPayload = RefreshPayload(userId: string)

  /** The signing and verifying functions a service is configured with. */
  datatype Keys = Keys(
    signAccess: AccessPayload -> string,
    signRefresh: string -> string,
    verifyAccess: string -> Option<AccessPayload>,
    verifyRefresh: string -> Option<RefreshPayload>)
}
