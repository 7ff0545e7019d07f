/** `/api/teams`: POST checks the body and that the caller owns the
    organization and then creates one team; GET lists an organization's
    teams or the caller's. The caller is the user id the authentication step
    produced, or `None` when it answered 401. */
module TeamRoutes {
  import opened Common
  import opened Ordering
  import opened Teams
  import P = Permissions

  /** The JSON body of POST; a `createdBy` field in it is never read. */
  datatype TeamBody = TeamBody(name: Option<string>, description: Option<string>, organizationId: Option<string>,
                               permissions: Option<seq<string>>, createdBy: Option<string>)

  /** The outcome of the checks of POST: a refusal, or the team to create. */
  datatype Plan = Refuse(status: nat)
                | Build(name: string, description: string, organizationId: Id, permissions: seq<string>, createdBy: Id)

  predicate HasRequiredFields(body: TeamBody)
  {
    Present(body.name) && Present(body.description) && Present(body.organizationId)
  }

  /** POST's checks in order: authentication (401), required fields (400),
      organization owner (403). Permissions default to none; the creator is
      the caller. */
  function PlanTeam(s: P.Snapshot, caller: Option<Id>, body: TeamBody): (r: Plan)
    ensures caller.None? ==> r == Refuse(401)
    ensures caller.Some? && !HasRequiredFields(body) ==> r == Refuse(400)
    ensures r.Build? <==> caller.Some? && HasRequiredFields(body) && P.IsOrganizationOwner(s, caller.value, body.organizationId.value)
    ensures r.Refuse? ==> r.status in {400, 401, 403}
    ensures r.Build? ==> r.createdBy == caller.value && r.name == body.name.value && r.description == body.description.value
                         && r.organizationId == body.organizationId.value
                         && r.permissions == (if body.permissions.Some? then body.permissions.value else [])
  {
    if caller.None? then Refuse(401)
    else if !HasRequiredFields(body) then Refuse(400)
    else if !P.IsOrganizationOwner(s, caller.value, body.organizationId.value) then Refuse(403)
    else Build(body.name.value, body.description.value, body.organizationId.value,
               if body.permissions.Some? then body.permissions.value else [], caller.value)
  }

  /** Only the owner of an existing organization, whose user document
      exists, gets past the checks. */
  lemma OnlyOwnerBuilds(s: P.Snapshot, caller: Id, body: TeamBody)
    requires PlanTeam(s, Some(caller), body).Build?
    ensures exists i :: 0 <= i < |s.orgs| && s.orgs[i].id == body.organizationId.value && s.orgs[i].owner == caller
    ensures caller in s.users
  {
  }

  /** The body cannot choose the creator. */
  lemma CreatorIsCaller(s: P.Snapshot, caller: Option<Id>, body: TeamBody, claimed: Option<string>)
    ensures PlanTeam(s, caller, body.(createdBy := claimed)) == PlanTeam(s, caller, body)
  {
  }

  /** POST, with its single store operation under the fresh id `id`. The
      route only rejects falsy fields, so a whitespace-only name or
      description reaches `create`, whose validation error the route's
      `catch` answers with 500. */
  method PostTeam(registry: TeamRegistry, s: P.Snapshot, caller: Option<Id>, body: TeamBody, id: Id, now: int)
    returns (status: nat)
    requires registry.Valid()
    requires forall i :: 0 <= i < |registry.teams| ==> registry.teams[i].id != id
    modifies registry
    ensures registry.Valid()
    ensures match PlanTeam(s, caller, body)
            case Refuse(code) => status == code && registry.Docs() == old(registry.Docs())
            case Build(name, description, organizationId, permissions, createdBy) =>
              if CreateValid(name, description) then
                status == 201
                && registry.Docs() == old(registry.Docs()) + [NewTeam(id, name, description, organizationId, Some(permissions), createdBy, now)]
              else
                status == 500 && registry.Docs() == old(registry.Docs())
  {
    var plan := PlanTeam(s, caller, body);
    match plan
    case Refuse(code) =>
      status := code;
    case Build(name, description, organizationId, permissions, createdBy) =>
      var r := registry.Create(id, name, description, organizationId, Some(permissions), createdBy, now);
      status := if r.Ok? then 201 else 500;
  }

  /** A listing response: a refusal, or the data with its `count`. */
  datatype Listing<T> = Refused(status: nat) | Listed(data: seq<T>, count: nat)

  /** GET: the organization's teams when `organizationId` is given,
      otherwise the teams with an entry for the caller; newest first. The
      `limit` and `skip` parameters are read and not used. */
  function ListTeams(ds: seq<TeamDoc>, caller: Option<Id>, organizationId: Option<string>,
                     limit: Option<string>, skip: Option<string>): (r: Listing<TeamDoc>)
    ensures caller.None? ==> r == Refused(401)
    ensures caller.Some? ==> r.Listed? && r.count == |r.data| && NewestFirst(r.data, Teams.CreatedAt)
    ensures caller.Some? && Present(organizationId) ==>
              forall d :: d in r.data <==> d in ds && d.organizationId == organizationId.value
    ensures caller.Some? && Present(organizationId) ==>
              forall d :: multiset(r.data)[d] == if d.organizationId == organizationId.value then multiset(ds)[d] else 0
    ensures caller.Some? && !Present(organizationId) ==>
              forall d :: d in r.data <==> d in ds && HasMember(d.members, caller.value)
    ensures caller.Some? && !Present(organizationId) ==>
              forall d :: multiset(r.data)[d] == if HasMember(d.members, caller.value) then multiset(ds)[d] else 0
  {
    if caller.None? then Refused(401)
    else
      var data := if Present(organizationId) then ByOrganization(ds, organizationId.value) else ByUser(ds, caller.value);
      Listed(data, |data|)
  }

  /** Paging parameters change nothing. */
  lemma PagingIgnored(ds: seq<TeamDoc>, caller: Option<Id>, organizationId: Option<string>,
                      limit1: Option<string>, skip1: Option<string>, limit2: Option<string>, skip2: Option<string>)
    ensures ListTeams(ds, caller, organizationId, limit1, skip1) == ListTeams(ds, caller, organizationId, limit2, skip2)
  {
  }
}
