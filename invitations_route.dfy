/** `/api/invitations`: POST checks the body and the caller's right to
    manage the team and then creates one invitation; GET lists invitations
    by email or by team. The caller is the user id the authentication step
    produced, or `None` when it answered 401. */
module InvitationRoutes {
  import opened Common
  import opened Teams
  import opened Invitations
  import opened Ordering
  import P = Permissions

  /** The JSON body of POST; an `invitedBy` field in it is never read. */
  datatype InvitationBody = InvitationBody(email: Option<string>, teamId: Option<string>, organizationId: Option<string>,
                                           role: Option<string>, invitedBy: Option<string>)

  /** The outcome of the checks of POST: a refusal, or the invitation to create. */
  datatype Plan = Refuse(status: nat) | Send(email: string, teamId: Id, organizationId: Id, role: string, invitedBy: Id)

  predicate HasRequiredFields(body: InvitationBody)
  {
    Present(body.email) && Present(body.teamId) && Present(body.organizationId)
  }

  /** POST's checks in order: authentication (401), required fields (400),
      `canManageTeam` as written (403). The role defaults to `member`; the
      inviter is the caller; the organization is copied from the body
      unchecked. */
  function PlanInvitation(s: P.Snapshot, caller: Option<Id>, body: InvitationBody): (r: Plan)
    ensures caller.None? ==> r == Refuse(401)
    ensures caller.Some? && !HasRequiredFields(body) ==> r == Refuse(400)
    ensures r.Send? <==> caller.Some? && HasRequiredFields(body)
                         && P.CanManageTeamAsWritten(s, caller.value, body.teamId.value)
    ensures r.Refuse? ==> r.status in {400, 401, 403}
    ensures r.Send? ==> r.invitedBy == caller.value && r.email == body.email.value && r.teamId == body.teamId.value
                        && r.organizationId == body.organizationId.value
                        && r.role == (if Present(body.role) then body.role.value else "member")
  {
    if caller.None? then Refuse(401)
    else if !HasRequiredFields(body) then Refuse(400)
    else if !P.CanManageTeamAsWritten(s, caller.value, body.teamId.value) then Refuse(403)
    else Send(body.email.value, body.teamId.value, body.organizationId.value,
              if Present(body.role) then body.role.value else "member", caller.value)
  }

  /** The same checks with the corrected `canManageTeam`, which also admits
      the team's managers and admins. */
  function PlanInvitationIntended(s: P.Snapshot, caller: Option<Id>, body: InvitationBody): (r: Plan)
    ensures caller.None? ==> r == Refuse(401)
    ensures caller.Some? && !HasRequiredFields(body) ==> r == Refuse(400)
    ensures r.Send? <==> caller.Some? && HasRequiredFields(body)
                         && P.CanManageTeam(s, caller.value, body.teamId.value)
    ensures r.Refuse? ==> r.status in {400, 401, 403}
    ensures r.Send? ==> r.invitedBy == caller.value && r.email == body.email.value && r.teamId == body.teamId.value
                        && r.organizationId == body.organizationId.value
                        && r.role == (if Present(body.role) then body.role.value else "member")
  {
    if caller.None? then Refuse(401)
    else if !HasRequiredFields(body) then Refuse(400)
    else if !P.CanManageTeam(s, caller.value, body.teamId.value) then Refuse(403)
    else Send(body.email.value, body.teamId.value, body.organizationId.value,
              if Present(body.role) then body.role.value else "member", caller.value)
  }

  /** As written, only the owner of the team's organization can invite: a
      team manager is refused with 403. */
  lemma InvitationOwnerOnly(s: P.Snapshot, caller: Id, body: InvitationBody)
    requires caller != P.ObjectText && HasRequiredFields(body)
    ensures var k := TeamIndex(s.teams, body.teamId.value);
            PlanInvitation(s, Some(caller), body).Send? <==>
              k.Some? && P.IsOrganizationOwner(s, caller, s.teams[k.value].organizationId)
  {
    P.CanManageTeamAsWrittenOwnerOnly(s, caller, body.teamId.value);
  }

  /** The manager of `team` in the example store is refused by the route as
      written and admitted by the corrected check. */
  lemma ManagerInvitationRefusedExample()
    ensures var body := InvitationBody(Some("a@b.co"), Some("team"), Some("org"), None, None);
            PlanInvitation(P.ExampleSnapshot(), Some("lead"), body) == Refuse(403)
            && PlanInvitationIntended(P.ExampleSnapshot(), Some("lead"), body).Send?
  {
    P.ManagerRefusedExample();
  }

  /** A body missing a field is refused whatever is stored: the permission
      check is not reached. */
  lemma FieldsCheckedBeforePermission(s1: P.Snapshot, s2: P.Snapshot, caller: Id, body: InvitationBody)
    requires !HasRequiredFields(body)
    ensures PlanInvitation(s1, Some(caller), body) == PlanInvitation(s2, Some(caller), body) == Refuse(400)
  {
  }

  /** The body cannot choose the inviter. */
  lemma InviterIsCaller(s: P.Snapshot, caller: Option<Id>, body: InvitationBody, claimed: Option<string>)
    ensures PlanInvitation(s, caller, body.(invitedBy := claimed)) == PlanInvitation(s, caller, body)
  {
  }

  /** Whether an invitation is sent does not depend on the organization the
      body names, which need not be the team's. */
  lemma OrganizationNotChecked(s: P.Snapshot, caller: Option<Id>, body: InvitationBody, other: Id)
    requires Present(body.organizationId) && other != ""
    ensures var r := PlanInvitation(s, caller, body.(organizationId := Some(other)));
            r.Send? == PlanInvitation(s, caller, body).Send?
            && (r.Send? ==> r.organizationId == other)
  {
  }

  /** POST, with its single store operation. `token` is the random token
      `create` draws and `delivery` the fate of its email. An invalid role
      makes `create` throw, which the handler turns into 500. */
  method PostInvitation(ledger: Ledger, s: P.Snapshot, caller: Option<Id>, body: InvitationBody,
                        token: string, now: int, delivery: Delivery) returns (status: nat)
    requires ledger.Valid()
    requires IsTokenText(token)
    requires forall i :: 0 <= i < |ledger.invitations| ==> ledger.invitations[i].token != token
    modifies ledger
    ensures ledger.Valid()
    ensures match PlanInvitation(s, caller, body)
            case Refuse(code) => status == code && ledger.invitations == old(ledger.invitations)
            case Send(email, teamId, organizationId, role, invitedBy) =>
              if IsTeamRole(role) then
                status == 201
                && ledger.invitations == old(ledger.invitations)
                     + [NewInvitation(old(ledger.nextId), email, teamId, organizationId, role, invitedBy, token, now)]
              else status == 500 && ledger.invitations == old(ledger.invitations)
  {
    var plan := PlanInvitation(s, caller, body);
    match plan
    case Refuse(code) =>
      status := code;
    case Send(email, teamId, organizationId, role, invitedBy) =>
      var r := ledger.Create(email, teamId, organizationId, role, invitedBy, token, now, delivery);
      status := if r.Ok? then 201 else 500;
  }

  /** A listing response: a refusal, or the data with its `count`. */
  datatype Listing<T> = Refused(status: nat) | Listed(data: seq<T>, count: nat)

  /** GET: by email (pending invitations only) when an email is given,
      otherwise by team (every status), otherwise 400; newest first. */
  function ListInvitations(ls: seq<Invitation>, caller: Option<Id>, email: Option<string>, teamId: Option<string>)
    : (r: Listing<Invitation>)
    ensures caller.None? ==> r == Refused(401)
    ensures caller.Some? && !Present(email) && !Present(teamId) ==> r == Refused(400)
    ensures caller.Some? && Present(email) ==>
              r.Listed? && forall inv :: inv in r.data <==> inv in ls && inv.email == email.value && inv.status == Pending
    ensures caller.Some? && !Present(email) && Present(teamId) ==>
              r.Listed? && forall inv :: inv in r.data <==> inv in ls && inv.teamId == teamId.value
    ensures caller.Some? && Present(email) ==>
              forall inv :: multiset(r.data)[inv] == if inv.email == email.value && inv.status == Pending then multiset(ls)[inv] else 0
    ensures caller.Some? && !Present(email) && Present(teamId) ==>
              forall inv :: multiset(r.data)[inv] == if inv.teamId == teamId.value then multiset(ls)[inv] else 0
    ensures r.Listed? ==> r.count == |r.data| && NewestFirst(r.data, Invitations.CreatedAt)
  {
    if caller.None? then Refused(401)
    else if Present(email) then
      var data := ByEmail(ls, email.value);
      Listed(data, |data|)
    else if Present(teamId) then
      var data := ByTeam(ls, teamId.value);
      Listed(data, |data|)
    else Refused(400)
  }
}
