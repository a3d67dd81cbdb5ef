/**
 * JSON Web Tokens as the backend uses them. Signing and verification are cryptography the model
 * does not look inside: they are a pair of functions given to the routes, with the three facts the
 * routes rely on stated as `Sound`. The secrets are the four environment variables the code reads.
 */
module Tokens {
  import opened Js

  /** A token payload; every field may be absent, as in a decoded JSON object. */
  datatype Claims = Claims(
    id: Option<int>, username: Option<string>, email: Option<string>,
    searchedSex: Option<string>, minAge: Option<int>, maxAge: Option<int>)

  /** The `{ id, username }` payload of refresh tokens and of refreshed access tokens. */
  function IdentityClaims(id: Option<int>, username: Option<string>): Claims {
    Claims(id, username, None, None, None, None)
  }

  /** `JWT_SECRET`, `JWT_REFRESH_SECRET`, `REFRESH_SECRET` and `SECRET_KEY`. */
  datatype Secrets = Secrets(jwtSecret: string, jwtRefreshSecret: string, refreshSecret: string, secretKey: string)

  /** Token lifetimes in seconds: `"15m"`, `"3h"` and `"7d"`. */
  const AccessLifetime := 15 * 60
  const LoginRefreshLifetime := 3 * 60 * 60
  const RefreshedRefreshLifetime := 7 * 24 * 60 * 60

  /** `sign(secret, payload, expiresAt)` and `verify(secret, token, now)`. */
  datatype Jwt = Jwt(sign: (string, Claims, int) -> string, verify: (string, string, int) -> Option<Claims>)

  predicate NoSpace(s: string) {
    forall i :: 0 <= i < |s| ==> s[i] != ' '
  }

  /**
   * A token verifies, under the secret that signed it and before it expires, to its payload; it
   * never verifies under another secret; and it is a non-empty text without spaces.
   */
  ghost predicate Sound(j: Jwt) {
    && (forall k, c, exp, now :: now < exp ==> j.verify(k, j.sign(k, c, exp), now) == Some(c))
    && (forall k, k', c, exp, now :: k != k' ==> j.verify(k', j.sign(k, c, exp), now).None?)
    && (forall k, c, exp :: j.sign(k, c, exp) != [] && NoSpace(j.sign(k, c, exp)))
  }
}
