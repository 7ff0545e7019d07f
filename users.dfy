/** The stored user accounts that registration and login read: the user
    record, its password-free public form, and the single-field lookups. */
module Users {
  import opened Common

  /** A stored account; `password` holds the password hash. */
  datatype User = User(id: Id, username: string, email: string, password: string, role: string, createdAt: int)

  /** The account as returned to clients: everything but the password. */
  datatype SafeUser = SafeUser(id: Id, username: string, email: string, role: string, createdAt: int)

  /** The account roles the user schema accepts. */
  predicate IsUserRole(role: string)
  {
    role == "admin" || role == "user"
  }

  /** `toSafeUser`: the record without its password. */
  function ToSafeUser(u: User): SafeUser
  {
    SafeUser(u.id, u.username, u.email, u.role, u.createdAt)
  }

  /** Two accounts that differ only in their password look the same once
      made safe: nothing of the password reaches the client. */
  lemma SafeUserHidesPassword(u: User, password: string)
    ensures ToSafeUser(u.(password := password)) == ToSafeUser(u)
  {
  }

  /** `findOne({ email })`: the first account with exactly this email. */
  function FindByEmail(users: seq<User>, email: string): (r: Option<User>)
    ensures r.Some? ==> r.value in users && r.value.email == email
    ensures r.None? <==> forall i :: 0 <= i < |users| ==> users[i].email != email
  {
    if users == [] then None
    else if users[0].email == email then Some(users[0])
    else
      var r := FindByEmail(users[1..], email);
      assert forall i :: 1 <= i < |users| ==> users[i] == users[1..][i - 1];
      r
  }

  /** `findOne({ username })`: the first account with exactly this username. */
  function FindByUsername(users: seq<User>, username: string): (r: Option<User>)
    ensures r.Some? ==> r.value in users && r.value.username == username
    ensures r.None? <==> forall i :: 0 <= i < |users| ==> users[i].username != username
  {
    if users == [] then None
    else if users[0].username == username then Some(users[0])
    else
      var r := FindByUsername(users[1..], username);
      assert forall i :: 1 <= i < |users| ==> users[i] == users[1..][i - 1];
      r
  }

  /** No two accounts share an email or a username. */
  predicate UniqueAccounts(users: seq<User>)
  {
    forall i, j :: 0 <= i < j < |users| ==> users[i].email != users[j].email && users[i].username != users[j].username
  }
}
