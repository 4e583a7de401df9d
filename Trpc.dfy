/**
 * The request context and the `isAuthed` gate of the tRPC layer: who the
 * caller is, read from the Authorization header, and the refusal of protected
 * procedures to anonymous callers.
 */
module Trpc {
  import opened Wrappers
  import Strings
  import opened Jwt

  /** The caller as seen by procedures: `{ id: decoded.id }`. */
  datatype ContextUser = ContextUser(id: Option<nat>)

  /** The part of the request context the procedures read (`req` and `res` are left out). */
  datatype Context = Context(user: Option<ContextUser>)

  datatype TrpcError = Unauthorized

  /** `authorization.split(' ')[1]`: `None` is `undefined`, when the header has no space. */
  function TokenOf(authorization: string): (token: Option<string>)
    ensures token.None? <==> ' ' !in authorization
    ensures token.Some? ==> ' ' !in token.value
  {
    var parts := Strings.Split(authorization, ' ');
    Strings.SplitSingle(authorization, ' ');
    if |parts| > 1 then Some(parts[1]) else None
  }

  /** The token is the text between the first space and the next one (or the end). */
  lemma TokenAfterFirstSpace(scheme: string, token: string, rest: string)
    requires ' ' !in scheme && ' ' !in token
    requires rest == [] || rest[0] == ' '
    ensures TokenOf(scheme + " " + token + rest) == Some(token)
  {
    assert scheme + " " + token + rest == scheme + [' '] + (token + rest);
    Strings.SplitPrefix(scheme, token + rest, ' ');
    Strings.SplitFirst(token, rest, ' ');
  }

  /**
   * `getUserFromHeader()`: no user without a truthy header, without a token after
   * a space, or when verification throws; otherwise the verified payload's id.
   * A missing token is rejected by the token library as well.
   */
  function GetUserFromHeader(authorization: Option<string>, jwtSecret: Option<string>,
                             verify: (string, string) -> Option<Claims>): (user: Option<ContextUser>)
    ensures !Strings.Truthy(authorization) ==> user.None?
    ensures Strings.Truthy(authorization) && ' ' !in authorization.value ==> user.None?
    ensures user.Some? ==>
      var token := TokenOf(authorization.value);
      && token.Some?
      && verify(token.value, Secret(jwtSecret)).Some?
      && user.value == ContextUser(verify(token.value, Secret(jwtSecret)).value.id)
    ensures user.None? && Strings.Truthy(authorization) && TokenOf(authorization.value).Some? ==>
      verify(TokenOf(authorization.value).value, Secret(jwtSecret)).None?
  {
    if !Strings.Truthy(authorization) then None
    else
      match TokenOf(authorization.value)
      case None => None
      case Some(token) =>
        match verify(token, Secret(jwtSecret))
        case None => None
        case Some(decoded) => Some(ContextUser(decoded.id))
  }

  /** `createContext`: the user, never an exception. */
  function CreateContext(authorization: Option<string>, jwtSecret: Option<string>,
                         verify: (string, string) -> Option<Claims>): (ctx: Context)
    ensures !Strings.Truthy(authorization) ==> ctx.user.None?
    ensures ctx.user.Some? ==>
      && Strings.Truthy(authorization)
      && TokenOf(authorization.value).Some?
      && verify(TokenOf(authorization.value).value, Secret(jwtSecret)) == Some(Claims(ctx.user.value.id))
    ensures
      && Strings.Truthy(authorization)
      && TokenOf(authorization.value).Some?
      && verify(TokenOf(authorization.value).value, Secret(jwtSecret)).Some?
      ==> ctx.user == Some(ContextUser(verify(TokenOf(authorization.value).value, Secret(jwtSecret)).value.id))
  {
    Context(GetUserFromHeader(authorization, jwtSecret, verify))
  }

  /** A `Bearer` header with a token signed under the same secret yields the signed id. */
  lemma BearerTokenAuthenticates(c: Claims, jwtSecret: Option<string>, expiry: string,
                                 sign: (Claims, string, string) -> string,
                                 verify: (string, string) -> Option<Claims>)
    requires SignedTokensVerify(sign, verify) && SignedTokensHaveNoSpace(sign)
    ensures var token := sign(c, Secret(jwtSecret), expiry);
      CreateContext(Some("Bearer " + token), jwtSecret, verify).user == Some(ContextUser(c.id))
  {
    var token := sign(c, Secret(jwtSecret), expiry);
    TokenAfterFirstSpace("Bearer", token, "");
    assert "Bearer " + token == "Bearer" + " " + token + "";
  }

  /**
   * A procedure wrapped by `isAuthed`: a context without a user is refused with
   * UNAUTHORIZED and the handler is not run; otherwise the handler runs on the
   * context's user, unchanged.
   */
  function Protected<T>(ctx: Context, handler: ContextUser -> T): (r: Result<T, TrpcError>)
    ensures ctx.user.None? <==> r == Err(Unauthorized)
    ensures ctx.user.Some? ==> r == Ok(handler(ctx.user.value))
  {
    if ctx.user.None? then Err(Unauthorized) else Ok(handler(ctx.user.value))
  }

  /** A request without an Authorization header, or with one that has no space, is refused. */
  lemma AnonymousCallRefused<T>(authorization: Option<string>, jwtSecret: Option<string>,
                                verify: (string, string) -> Option<Claims>, handler: ContextUser -> T)
    requires authorization.None? || ' ' !in authorization.value
    ensures Protected(CreateContext(authorization, jwtSecret, verify), handler) == Err(Unauthorized)
  {
  }

  /**
   * A verified payload without an `id` still yields a user, with no id, and
   * `isAuthed` lets that caller through.
   */
  lemma PayloadWithoutIdPassesGate<T>(authorization: string, jwtSecret: Option<string>,
                                      verify: (string, string) -> Option<Claims>, handler: ContextUser -> T)
    requires authorization != "" && TokenOf(authorization).Some?
    requires verify(TokenOf(authorization).value, Secret(jwtSecret)) == Some(Claims(None))
    ensures Protected(CreateContext(Some(authorization), jwtSecret, verify), handler) == Ok(handler(ContextUser(None)))
  {
  }
}
