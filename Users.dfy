/**
 * The user table the login and registration use cases work on. Users are
 * looked up by email with a unique lookup, so the table holds at most one
 * user per email and refuses to create a second one.
 */
module Users {
  import opened Wrappers

  /** A stored user; `password` holds the password hash and may be null. */
  datatype User = User(id: nat, email: string, name: Option<string>, password: Option<string>)

  /** The fields of a user the caller supplies; the id is assigned by the table. */
  datatype NewUser = NewUser(email: string, name: Option<string>, password: Option<string>)

  /** The database's refusal of a second user with an email already taken. */
  datatype DbError = EmailTaken

  /** `getUserByEmail(email)`: the user with that email, or null. */
  function FindByEmail(rows: seq<User>, email: string): (r: Option<User>)
    ensures r.None? <==> forall u :: u in rows ==> u.email != email
    ensures r.Some? ==> r.value in rows && r.value.email == email
  {
    if rows == [] then None
    else if rows[0].email == email then Some(rows[0])
    else FindByEmail(rows[1..], email)
  }

  /** No two users share an email. */
  ghost predicate UniqueEmails(rows: seq<User>) {
    forall i, j :: 0 <= i < j < |rows| ==> rows[i].email != rows[j].email
  }

  /** A user added under a new email is the one found by that email. */
  lemma {:induction false} FindAdded(rows: seq<User>, u: User)
    requires forall v :: v in rows ==> v.email != u.email
    ensures FindByEmail(rows + [u], u.email) == Some(u)
  {
    if rows != [] {
      assert (rows + [u])[1..] == rows[1..] + [u];
      FindAdded(rows[1..], u);
    }
  }

  /** `PrismaUserRepository`: the `user` table. */
  class UserTable {
    var rows: seq<User>
    var nextId: nat

    ghost predicate Valid()
      reads this
    {
      UniqueEmails(rows) && forall u :: u in rows ==> u.id < nextId
    }

    constructor ()
      ensures Valid() && rows == []
    {
      rows := [];
      nextId := 0;
    }

    function GetUserByEmail(email: string): (r: Option<User>)
      reads this
      ensures r.Some? ==> r.value in rows && r.value.email == email
      ensures r.None? <==> forall u :: u in rows ==> u.email != email
    {
      FindByEmail(rows, email)
    }

    /** `createUser(data)`: adds one user with a fresh id, unless the email is taken. */
    method CreateUser(data: NewUser) returns (r: Result<User, DbError>)
      requires Valid()
      modifies this
      ensures Valid()
      ensures FindByEmail(old(rows), data.email).Some? ==>
        r == Err(EmailTaken) && rows == old(rows) && nextId == old(nextId)
      ensures FindByEmail(old(rows), data.email).None? ==>
        && r == Ok(User(old(nextId), data.email, data.name, data.password))
        && rows == old(rows) + [r.value]
        && forall u :: u in old(rows) ==> u.id != r.value.id
    {
      if FindByEmail(rows, data.email).Some? {
        return Err(EmailTaken);
      }
      var user := User(nextId, data.email, data.name, data.password);
      rows := rows + [user];
      nextId := nextId + 1;
      r := Ok(user);
    }
  }
}
