/** `POST /api/auth/login`: a chain of checks ending in a password check;
    it reads the account store and writes nothing. */
module Login {
  import opened Common
  import opened Users
  import opened EmailFormat

  datatype LoginBody = LoginBody(email: Option<string>, password: Option<string>)

  /** A refusal with its status and message, or the signed-in account
      (no token is issued). */
  datatype LoginResponse = LoginFailed(status: nat, error: string) | LoggedIn(user: SafeUser)

  const BadCredentials: string := "Invalid email or password"

  /** The route. `verify(password, hash)` stands for the password check. */
  function LoginDecision(users: seq<User>, body: LoginBody, verify: (string, string) -> bool): (r: LoginResponse)
    ensures !Present(body.email) || !Present(body.password) ==> r == LoginFailed(400, "Email and password are required")
    ensures Present(body.email) && Present(body.password) && !IsValidEmail(body.email.value) ==>
              r == LoginFailed(400, "Invalid email format")
    ensures r.LoggedIn? <==>
              Present(body.email) && Present(body.password) && IsValidEmail(body.email.value)
              && FindByEmail(users, body.email.value).Some?
              && verify(body.password.value, FindByEmail(users, body.email.value).value.password)
    ensures r.LoggedIn? ==> exists i :: 0 <= i < |users| && users[i].email == body.email.value
                                        && r.user == ToSafeUser(users[i])
    ensures r.LoginFailed? && r.status == 401 ==> r.error == BadCredentials
  {
    if !Present(body.email) || !Present(body.password) then
      LoginFailed(400, "Email and password are required")
    else if !IsValidEmail(body.email.value) then
      LoginFailed(400, "Invalid email format")
    else
      match FindByEmail(users, body.email.value)
      case None => LoginFailed(401, BadCredentials)
      case Some(u) =>
        if !verify(body.password.value, u.password) then LoginFailed(401, BadCredentials)
        else
          var i :| 0 <= i < |users| && users[i] == u;
          LoggedIn(ToSafeUser(u))
  }

  /** An unknown email and a wrong password get the very same answer. */
  lemma UniformRefusal(unknown: seq<User>, known: seq<User>, body: LoginBody, verify: (string, string) -> bool)
    requires Present(body.email) && Present(body.password) && IsValidEmail(body.email.value)
    requires forall i :: 0 <= i < |unknown| ==> unknown[i].email != body.email.value
    requires FindByEmail(known, body.email.value).Some?
    requires !verify(body.password.value, FindByEmail(known, body.email.value).value.password)
    ensures LoginDecision(unknown, body, verify) == LoginDecision(known, body, verify) == LoginFailed(401, BadCredentials)
  {
  }

  /** A malformed email is refused before the store is consulted. */
  lemma FormatCheckedBeforeLookup(a: seq<User>, b: seq<User>, body: LoginBody, verify: (string, string) -> bool)
    requires Present(body.email) && Present(body.password) && !IsValidEmail(body.email.value)
    ensures LoginDecision(a, body, verify) == LoginDecision(b, body, verify)
  {
  }
}
