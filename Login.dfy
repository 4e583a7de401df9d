/**
 * `Login.execute`: checks a password against the stored hash of the user with
 * the given email and, on success, issues a token carrying the user's id.
 */
module Login {
  import opened Wrappers
  import Strings
  import opened Jwt
  import opened Users
  import Trpc

  datatype LoginInput = LoginInput(email: string, password: Option<string>)

  /** The errors `execute` throws; `HashMissing` is the hashing library's refusal of a null hash. */
  datatype LoginError = PasswordRequired | InvalidCredentials | HashMissing

  function ErrorMessage(e: LoginError): (msg: string)
    ensures e == PasswordRequired <==> msg == "Password is required"
    ensures e == InvalidCredentials <==> msg == "Invalid email or password"
  {
    match e
    case PasswordRequired => "Password is required"
    case InvalidCredentials => "Invalid email or password"
    case HashMissing => "data and hash arguments required"
  }

  /**
   * `execute(input)` against the user table `users`, with the hash comparison,
   * the token signer and `JWT_SECRET` as parameters.
   */
  function Login(users: seq<User>, input: LoginInput, jwtSecret: Option<string>,
                 compare: (string, string) -> bool,
                 sign: (Claims, string, string) -> string): (r: Result<string, LoginError>)
    ensures !Strings.Truthy(input.password) ==> r == Err(PasswordRequired)
    ensures Strings.Truthy(input.password) && FindByEmail(users, input.email).None? ==>
      r == Err(InvalidCredentials)
    ensures r.Ok? <==>
      && Strings.Truthy(input.password)
      && FindByEmail(users, input.email).Some?
      && FindByEmail(users, input.email).value.password.Some?
      && compare(input.password.value, FindByEmail(users, input.email).value.password.value)
    ensures r.Ok? ==>
      r.value == sign(Claims(Some(FindByEmail(users, input.email).value.id)), Secret(jwtSecret), LoginExpiry)
  {
    if !Strings.Truthy(input.password) then Err(PasswordRequired)
    else
      match FindByEmail(users, input.email)
      case None => Err(InvalidCredentials)
      case Some(user) =>
        if user.password.None? then Err(HashMissing)
        else if !compare(input.password.value, user.password.value) then Err(InvalidCredentials)
        else Ok(sign(Claims(Some(user.id)), Secret(jwtSecret), LoginExpiry))
  }

  /** The password is checked before the table is read: without one, the table makes no difference. */
  lemma PasswordCheckedBeforeLookup(users1: seq<User>, users2: seq<User>, input: LoginInput,
                                    jwtSecret: Option<string>, compare: (string, string) -> bool,
                                    sign: (Claims, string, string) -> string)
    requires !Strings.Truthy(input.password)
    ensures Login(users1, input, jwtSecret, compare, sign) == Login(users2, input, jwtSecret, compare, sign)
    ensures ErrorMessage(Login(users1, input, jwtSecret, compare, sign).error) == "Password is required"
  {
  }

  /** An unknown email and a wrong password fail with the same error and the same message. */
  lemma UnknownEmailLikeWrongPassword(unknown: seq<User>, known: seq<User>, input: LoginInput,
                                      jwtSecret: Option<string>, compare: (string, string) -> bool,
                                      sign: (Claims, string, string) -> string)
    requires Strings.Truthy(input.password)
    requires FindByEmail(unknown, input.email).None?
    requires FindByEmail(known, input.email).Some? && FindByEmail(known, input.email).value.password.Some?
    requires !compare(input.password.value, FindByEmail(known, input.email).value.password.value)
    ensures Login(unknown, input, jwtSecret, compare, sign) == Login(known, input, jwtSecret, compare, sign)
    ensures ErrorMessage(Login(known, input, jwtSecret, compare, sign).error) == "Invalid email or password"
  {
  }

  /**
   * Under one configuration, a token issued at login authenticates its holder:
   * sent as `Bearer <token>`, the request context carries the user's id.
   */
  lemma IssuedTokenAuthenticates(users: seq<User>, input: LoginInput, jwtSecret: Option<string>,
                                 compare: (string, string) -> bool,
                                 sign: (Claims, string, string) -> string,
                                 verify: (string, string) -> Option<Claims>)
    requires SignedTokensVerify(sign, verify) && SignedTokensHaveNoSpace(sign)
    requires Login(users, input, jwtSecret, compare, sign).Ok?
    ensures var token := Login(users, input, jwtSecret, compare, sign).value;
      Trpc.CreateContext(Some("Bearer " + token), jwtSecret, verify).user
        == Some(Trpc.ContextUser(Some(FindByEmail(users, input.email).value.id)))
  {
    var user := FindByEmail(users, input.email).value;
    Trpc.BearerTokenAuthenticates(Claims(Some(user.id)), jwtSecret, LoginExpiry, sign, verify);
  }
}
