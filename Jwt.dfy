/**
 * What the core uses of JSON Web Tokens: the payload it signs and reads back,
 * the secret expression shared by signing and verifying, and the promise the
 * token library makes about the two. Signing and verifying themselves are
 * parameters of the functions that use them.
 */
module Jwt {
  import opened Wrappers
  import Strings

  const DefaultSecret := "your-secret-key"

  /** Lifetime given to tokens issued at login (`expiresIn: '1d'`). */
  const LoginExpiry := "1d"

  /** A token payload as read back by `verify`; `id` is absent when the payload has none. */
  datatype Claims = Claims(id: Option<nat>)

  /** `process.env.JWT_SECRET || 'your-secret-key'`, written the same way at signing and at verifying. */
  function Secret(jwtSecret: Option<string>): (secret: string)
    ensures Strings.Truthy(jwtSecret) ==> secret == jwtSecret.value
    ensures !Strings.Truthy(jwtSecret) ==> secret == DefaultSecret
    ensures secret != ""
  {
    Strings.OrDefault(jwtSecret, DefaultSecret)
  }

  /**
   * The token library's promise within a token's lifetime: a token signed with a
   * secret verifies, with that same secret, to the payload it was signed with.
   */
  ghost predicate SignedTokensVerify(sign: (Claims, string, string) -> string,
                                     verify: (string, string) -> Option<Claims>)
  {
    forall c, secret, expiry :: verify(sign(c, secret, expiry), secret) == Some(c)
  }

  /** Signed tokens are three base64url segments joined by dots, so they hold no space. */
  ghost predicate SignedTokensHaveNoSpace(sign: (Claims, string, string) -> string)
  {
    forall c, secret, expiry :: ' ' !in sign(c, secret, expiry)
  }
}
