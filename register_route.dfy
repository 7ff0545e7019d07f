/** `POST /api/auth/register`: a fixed chain of checks on the request body,
    then one insert into the account store. */
module Registration {
  import opened Common
  import opened Users
  import opened EmailFormat

  /** The JSON body; each field may be missing. */
  datatype RegistrationBody = RegistrationBody(username: Option<string>, email: Option<string>,
                                               password: Option<string>, role: Option<string>)

  /** The outcome of the checks: a refusal with its status and message, or
      the account to store (with the password still in clear). */
  datatype Plan = Refuse(status: nat, error: string) | Admit(username: string, email: string, password: string, role: string)

  const MinPasswordLength: nat := 6

  /** The checks of the route, in their order: required fields (400), email
      format (400), password length (400), email taken (409), username
      taken (409). The role defaults to `user`. */
  function PlanRegistration(users: seq<User>, body: RegistrationBody): (r: Plan)
    ensures r.Admit? <==>
              Present(body.username) && Present(body.email) && Present(body.password)
              && IsValidEmail(body.email.value) && |body.password.value| >= MinPasswordLength
              && (forall i :: 0 <= i < |users| ==> users[i].email != body.email.value)
              && (forall i :: 0 <= i < |users| ==> users[i].username != body.username.value)
    ensures r.Admit? ==> r.username == body.username.value && r.email == body.email.value
                         && r.password == body.password.value
                         && r.role == (if Present(body.role) then body.role.value else "user")
    ensures r.Refuse? ==> r.status == 400 || r.status == 409
  {
    if !Present(body.username) || !Present(body.email) || !Present(body.password) then
      Refuse(400, "Username, email, and password are required")
    else if !IsValidEmail(body.email.value) then
      Refuse(400, "Invalid email format")
    else if |body.password.value| < MinPasswordLength then
      Refuse(400, "Password must be at least 6 characters long")
    else if FindByEmail(users, body.email.value).Some? then
      Refuse(409, "User with this email already exists")
    else if FindByUsername(users, body.username.value).Some? then
      Refuse(409, "User with this username already exists")
    else
      Admit(body.username.value, body.email.value, body.password.value,
            if Present(body.role) then body.role.value else "user")
  }

  /** A taken email is reported before a taken username. */
  lemma EmailConflictFirst(users: seq<User>, body: RegistrationBody, i: nat, j: nat)
    requires Present(body.username) && Present(body.email) && Present(body.password)
    requires IsValidEmail(body.email.value) && |body.password.value| >= MinPasswordLength
    requires i < |users| && users[i].email == body.email.value
    requires j < |users| && users[j].username == body.username.value
    ensures PlanRegistration(users, body) == Refuse(409, "User with this email already exists")
  {
  }

  /** The document handed to `UserModel.create`; `id` may be left out. */
  datatype Draft = Draft(id: Option<Id>, username: string, email: string, password: string, role: string, createdAt: int)

  /** The validators of the user schema: `id`, `username`, `email` and
      `password` are required strings, `role` is one of the enumeration. */
  predicate SchemaAccepts(d: Draft)
  {
    Present(d.id) && d.username != "" && d.email != "" && d.password != "" && IsUserRole(d.role)
  }

  /** The draft a stored account was made from. */
  function DraftOf(u: User): Draft
  {
    Draft(Some(u.id), u.username, u.email, u.password, u.role, u.createdAt)
  }

  /** `UserModel.create`: the stored account when the validators pass,
      `None` where it throws. */
  function Create(d: Draft): (r: Option<User>)
    ensures r.Some? <==> SchemaAccepts(d)
    ensures r.Some? ==> DraftOf(r.value) == d
  {
    if SchemaAccepts(d) then Some(User(d.id.value, d.username, d.email, d.password, d.role, d.createdAt)) else None
  }

  /** The document the route passes: the admitted fields, the hash, the
      time, and no `id`. */
  function RouteDraft(p: Plan, hashed: string, now: int): Draft
    requires p.Admit?
  {
    Draft(None, p.username, p.email, hashed, p.role, now)
  }

  /** As written, the insert of every admitted registration throws: the
      route never supplies the required `id`. */
  lemma RouteDraftRejected(users: seq<User>, body: RegistrationBody, hashed: string, now: int)
    requires PlanRegistration(users, body).Admit?
    ensures Create(RouteDraft(PlanRegistration(users, body), hashed, now)).None?
  {
  }

  /** The document with an identifier supplied, as the schema expects. */
  function IntendedDraft(p: Plan, id: Id, hashed: string, now: int): Draft
    requires p.Admit?
  {
    RouteDraft(p, hashed, now).(id := Some(id))
  }

  /** The account the corrected insert stores; its password is the hash. */
  function NewAccount(p: Plan, id: Id, hashed: string, now: int): (r: User)
    requires p.Admit?
    ensures SchemaAccepts(IntendedDraft(p, id, hashed, now)) ==> Create(IntendedDraft(p, id, hashed, now)) == Some(r)
    ensures ToSafeUser(r) == SafeUser(id, p.username, p.email, p.role, now)
  {
    User(id, p.username, p.email, hashed, p.role, now)
  }

  /** With an identifier and a hash supplied, the corrected insert fails
      exactly on a role outside the enumeration. */
  lemma IntendedDraftAccepted(users: seq<User>, body: RegistrationBody, id: Id, hashed: string, now: int)
    requires PlanRegistration(users, body).Admit? && id != "" && hashed != ""
    ensures SchemaAccepts(IntendedDraft(PlanRegistration(users, body), id, hashed, now))
            <==> IsUserRole(PlanRegistration(users, body).role)
  {
  }

  /** Admitting keeps emails and usernames unique. */
  lemma AdmitKeepsAccountsUnique(users: seq<User>, body: RegistrationBody, id: Id, hashed: string, now: int)
    requires UniqueAccounts(users)
    requires PlanRegistration(users, body).Admit?
    ensures UniqueAccounts(users + [NewAccount(PlanRegistration(users, body), id, hashed, now)])
  {
  }

  /** The account store. */
  class UserDirectory {
    var users: seq<User>

    ghost predicate Valid()
      reads this
    {
      UniqueAccounts(users)
    }

    constructor ()
      ensures Valid() && users == []
    {
      users := [];
    }

    /** The route as written. `hashed` stands for
        `hashPassword(body.password)`. A refusal answers its status; an
        admitted body reaches the insert, which throws for want of an `id`,
        and the handler answers 500. Nothing is ever stored. */
    method Register(body: RegistrationBody, hashed: string, now: int) returns (status: nat, user: Option<SafeUser>)
      requires Valid()
      modifies this
      ensures Valid() && users == old(users) && user.None?
      ensures match PlanRegistration(old(users), body)
              case Refuse(code, _) => status == code
              case Admit(_, _, _, _) => status == 500
    {
      var plan := PlanRegistration(users, body);
      match plan
      case Refuse(code, _) =>
        status, user := code, None;
      case Admit(_, _, _, _) =>
        status, user := 500, None;
    }

    /** The route as intended: `id` stands for the fresh identifier the
        insert should carry. A draft the validators refuse (a role outside
        the enumeration) answers 500; otherwise 201 with the safe form of
        the new account, which is appended. */
    method RegisterIntended(body: RegistrationBody, id: Id, hashed: string, now: int)
      returns (status: nat, user: Option<SafeUser>)
      requires Valid()
      modifies this
      ensures Valid()
      ensures match PlanRegistration(old(users), body)
              case Refuse(code, _) => status == code && user.None? && users == old(users)
              case Admit(_, _, _, _) =>
                var p := PlanRegistration(old(users), body);
                if SchemaAccepts(IntendedDraft(p, id, hashed, now)) then
                  var account := NewAccount(p, id, hashed, now);
                  status == 201 && user == Some(ToSafeUser(account)) && users == old(users) + [account]
                else
                  status == 500 && user.None? && users == old(users)
    {
      var plan := PlanRegistration(users, body);
      match plan
      case Refuse(code, _) =>
        status, user := code, None;
      case Admit(_, _, _, _) =>
        var created := Create(IntendedDraft(plan, id, hashed, now));
        if created.None? {
          status, user := 500, None;
        } else {
          var account := created.value;
          AdmitKeepsAccountsUnique(users, body, id, hashed, now);
          users := users + [account];
          status, user := 201, Some(ToSafeUser(account));
        }
    }
  }
}
