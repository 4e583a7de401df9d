/**
 * `CreateUser.execute`: registers a user with a hashed password and returns
 * the created user without its password.
 */
module Registration {
  import opened Wrappers
  import Strings
  import opened Users
  import Jwt
  import Login

  datatype CreateUserInput = CreateUserInput(email: string, name: Option<string>, password: Option<string>)

  /** A user as returned to the caller: every field but the password. */
  datatype PublicUser = PublicUser(id: nat, email: string, name: Option<string>)

  datatype CreateUserError = PasswordRequired | Db(error: DbError)

  /** The `message` of the error `execute` throws itself; a database error keeps the database's own text. */
  function ErrorMessage(e: CreateUserError): (msg: Option<string>)
    ensures e == PasswordRequired <==> msg == Some("Password is required")
    ensures e.Db? ==> msg.None?
  {
    match e
    case PasswordRequired => Some("Password is required")
    case Db(_) => None
  }

  /** `name || null` */
  function NameOrNull(name: Option<string>): (r: Option<string>)
    ensures Strings.Truthy(name) ==> r == name
    ensures !Strings.Truthy(name) ==> r == None
  {
    if Strings.Truthy(name) then name else None
  }

  /** The record handed to `createUser`, or the password error when there is nothing to hash. */
  function NewUserRecord(input: CreateUserInput, hash: string -> string): (r: Result<NewUser, CreateUserError>)
    ensures !Strings.Truthy(input.password) <==> r == Err(PasswordRequired)
    ensures r.Ok? ==>
      && r.value.email == input.email
      && r.value.name == NameOrNull(input.name)
      && r.value.password == Some(hash(input.password.value))
  {
    if !Strings.Truthy(input.password) then Err(PasswordRequired)
    else Ok(NewUser(input.email, NameOrNull(input.name), Some(hash(input.password.value))))
  }

  /** `const { password: _, ...userWithoutPassword } = createdUser` */
  function WithoutPassword(u: User): (p: PublicUser)
    ensures p.id == u.id && p.email == u.email && p.name == u.name
  {
    PublicUser(u.id, u.email, u.name)
  }

  /** `execute(input)` on the user table, with `bcrypt.hash(·, 10)` as the parameter `hash`. */
  method CreateUser(table: UserTable, input: CreateUserInput, hash: string -> string)
    returns (r: Result<PublicUser, CreateUserError>)
    requires table.Valid()
    modifies table
    ensures table.Valid()
    ensures !Strings.Truthy(input.password) ==>
      r == Err(PasswordRequired) && table.rows == old(table.rows)
    ensures Strings.Truthy(input.password) && FindByEmail(old(table.rows), input.email).Some? ==>
      r == Err(Db(EmailTaken)) && table.rows == old(table.rows)
    ensures Strings.Truthy(input.password) && FindByEmail(old(table.rows), input.email).None? ==>
      var created := User(old(table.nextId), input.email, NameOrNull(input.name), Some(hash(input.password.value)));
      table.rows == old(table.rows) + [created] && r == Ok(WithoutPassword(created))
  {
    var record := NewUserRecord(input, hash);
    if record.Err? {
      return Err(record.error);
    }
    var created := table.CreateUser(record.value);
    if created.Err? {
      return Err(Db(created.error));
    }
    r := Ok(WithoutPassword(created.value));
  }

  /**
   * A user registered under a new email can log in with the same password when
   * the hash comparison accepts a password against its own hash; the token
   * carries the new user's id.
   */
  lemma RegisteredUserCanLogIn(rows: seq<User>, id: nat, input: CreateUserInput, hash: string -> string,
                               jwtSecret: Option<string>, compare: (string, string) -> bool,
                               sign: (Jwt.Claims, string, string) -> string)
    requires Strings.Truthy(input.password)
    requires FindByEmail(rows, input.email).None?
    requires forall p :: compare(p, hash(p))
    ensures var created := User(id, input.email, NameOrNull(input.name), Some(hash(input.password.value)));
      Login.Login(rows + [created], Login.LoginInput(input.email, input.password), jwtSecret, compare, sign)
        == Ok(sign(Jwt.Claims(Some(id)), Jwt.Secret(jwtSecret), Jwt.LoginExpiry))
  {
    var created := User(id, input.email, NameOrNull(input.name), Some(hash(input.password.value)));
    FindAdded(rows, created);
  }
}
