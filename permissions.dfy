/** The access resolver: read-only decisions about who may do what, taken
    over a snapshot of the stored organizations, teams and users.

    The resolver reads teams through two queries that populate references:
    `getById` replaces the team's `organizationId` and every member's
    `userId` by the referenced document, and `getByUser` replaces the
    `organizationId`. After `.lean()` a populated reference is a plain
    object whose `toString()` is "[object Object]", and a reference whose
    document no longer exists becomes `null`, on which `toString()` throws.
    `Ref` keeps these shapes apart. Each decision exists twice: as written
    (comparing `toString()` of the raw reference) and corrected (comparing
    the referenced id, as `canManageTeam` already does for the organization). */
module Permissions {
  import opened Common
  import opened Teams

  /** An organization document: its id and the id of its owner. */
  datatype Organization = Organization(id: Id, owner: Id)

  /** The stored documents the resolver reads. */
  datatype Snapshot = Snapshot(orgs: seq<Organization>, teams: seq<TeamDoc>, users: set<Id>)

  /** A reference field after a lean query: an unpopulated object id, a
      populated plain object with that `_id`, or `null` when the referenced
      document is missing. */
  datatype Ref = Bare(id: Id) | Populated(id: Id) | Unresolved

  /** `toString()` of a plain object. */
  const ObjectText: string := "[object Object]"

  /** `ref.toString()`; `None` where it throws. */
  function RefText(r: Ref): Option<string>
  {
    match r
    case Bare(id) => Some(id)
    case Populated(_) => Some(ObjectText)
    case Unresolved => None
  }

  /** The referenced id, unwrapping `_id` when populated; `None` where the
      unwrapping throws. */
  function RefId(r: Ref): Option<Id>
  {
    match r
    case Bare(id) => Some(id)
    case Populated(id) => Some(id)
    case Unresolved => None
  }

  // ---------------------------------------------------------------------
  // Reading the snapshot

  /** `organizationService.getById`. */
  function FindOrg(orgs: seq<Organization>, id: Id): (r: Option<Organization>)
    ensures r.Some? ==> r.value in orgs && r.value.id == id
    ensures r.None? ==> forall i :: 0 <= i < |orgs| ==> orgs[i].id != id
  {
    if orgs == [] then None
    else if orgs[0].id == id then Some(orgs[0])
    else
      match FindOrg(orgs[1..], id)
      case None =>
        assert forall i :: 1 <= i < |orgs| ==> orgs[i] == orgs[1..][i - 1];
        None
      case Some(o) => Some(o)
  }

  /** A populated reference to a user. */
  function PopulateUser(s: Snapshot, id: Id): Ref
  {
    if id in s.users then Populated(id) else Unresolved
  }

  /** A populated reference to an organization. */
  function PopulateOrg(s: Snapshot, id: Id): Ref
  {
    if FindOrg(s.orgs, id).Some? then Populated(id) else Unresolved
  }

  /** A member entry as a query returns it. */
  datatype MemberView = MemberView(userId: Ref, role: string)

  /** A team document as a query returns it. */
  datatype TeamView = TeamView(id: Id, organizationId: Ref, permissions: seq<string>, members: seq<MemberView>)

  /** The member list with every `userId` populated. */
  function PopulateMembers(s: Snapshot, ms: seq<Member>): seq<MemberView>
  {
    if ms == [] then []
    else [MemberView(PopulateUser(s, ms[0].userId), ms[0].role)] + PopulateMembers(s, ms[1..])
  }

  /** The member list with its references left as ids. */
  function BareMembers(ms: seq<Member>): seq<MemberView>
  {
    seq(|ms|, i requires 0 <= i < |ms| => MemberView(Bare(ms[i].userId), ms[i].role))
  }

  /** `teamService.getById`: organization and members populated. */
  function ReadTeam(s: Snapshot, teamId: Id): (r: Option<TeamView>)
    ensures r.Some? <==> exists i :: 0 <= i < |s.teams| && s.teams[i].id == teamId
    ensures r.Some? ==> r.value.id == teamId
  {
    match TeamIndex(s.teams, teamId)
    case None => None
    case Some(k) =>
      var d := s.teams[k];
      Some(TeamView(d.id, PopulateOrg(s, d.organizationId), d.permissions, PopulateMembers(s, d.members)))
  }

  /** One team of `teamService.getByUser`: organization populated. */
  function UserTeamView(s: Snapshot, d: TeamDoc): TeamView
  {
    TeamView(d.id, PopulateOrg(s, d.organizationId), d.permissions, BareMembers(d.members))
  }

  /** `teamService.getByUser`. */
  function ReadTeamsOfUser(s: Snapshot, userId: Id): seq<TeamView>
  {
    var ds := ByUser(s.teams, userId);
    seq(|ds|, i requires 0 <= i < |ds| => UserTeamView(s, ds[i]))
  }

  /** The teams of the organization `o` that have an entry for `userId`, in
      stored terms. */
  predicate InUserOrgTeam(s: Snapshot, userId: Id, o: Id, d: TeamDoc)
  {
    d in s.teams && HasMember(d.members, userId) && d.organizationId == o && FindOrg(s.orgs, o).Some?
  }

  // ---------------------------------------------------------------------
  // isOrganizationOwner, isTeamMember

  /** `isOrganizationOwner`: the organization exists and its populated owner
      is `userId`; an owner whose user document is gone throws, caught as
      false. */
  function IsOrganizationOwner(s: Snapshot, userId: Id, organizationId: Id): (b: bool)
    ensures b <==> exists i :: 0 <= i < |s.orgs| && s.orgs[i].id == organizationId
                             && FindOrg(s.orgs, organizationId) == Some(s.orgs[i])
                             && s.orgs[i].owner == userId && userId in s.users
    ensures FindOrg(s.orgs, organizationId).None? ==> !b
  {
    match FindOrg(s.orgs, organizationId)
    case None => false
    case Some(org) =>
      var i :| 0 <= i < |s.orgs| && s.orgs[i] == org;
      match PopulateUser(s, org.owner)
      case Populated(id) => id == userId
      case _ => false
  }

  /** `isTeamMember`: some team with that id has an entry for the user. */
  function IsTeamMember(s: Snapshot, userId: Id, teamId: Id): (b: bool)
    ensures b <==> exists i :: 0 <= i < |s.teams| && s.teams[i].id == teamId && HasMember(s.teams[i].members, userId)
  {
    IsMember(s.teams, teamId, userId)
  }

  // ---------------------------------------------------------------------
  // getUserTeamRole

  /** `members.find(m => m.userId.toString() === userId)`: the outer `None`
      is a thrown `TypeError` on a `null` reference. */
  function FindMemberAsWritten(ms: seq<MemberView>, userId: Id): Option<Option<MemberView>>
  {
    if ms == [] then Some(None)
    else
      match RefText(ms[0].userId)
      case None => None
      case Some(text) => if text == userId then Some(Some(ms[0])) else FindMemberAsWritten(ms[1..], userId)
  }

  /** The first entry whose referenced id is `userId`. */
  function FindMember(ms: seq<MemberView>, userId: Id): Option<MemberView>
  {
    if ms == [] then None
    else if RefId(ms[0].userId) == Some(userId) then Some(ms[0])
    else FindMember(ms[1..], userId)
  }

  /** `getUserTeamRole` as written: reads the team with populated members
      and compares each member's `toString()`. */
  function GetUserTeamRoleAsWritten(s: Snapshot, userId: Id, teamId: Id): Option<string>
  {
    match ReadTeam(s, teamId)
    case None => None
    case Some(v) =>
      match FindMemberAsWritten(v.members, userId)
      case Some(Some(m)) => Some(m.role)
      case _ => None
  }

  /** Against populated members the as-written search never finds anyone
      whose id is not literally "[object Object]". */
  lemma {:induction false} FindMemberAsWrittenMisses(s: Snapshot, ms: seq<Member>, userId: Id)
    requires userId != ObjectText
    ensures FindMemberAsWritten(PopulateMembers(s, ms), userId) in {None, Some(None)}
  {
    if ms != [] {
      FindMemberAsWrittenMisses(s, ms[1..], userId);
    }
  }

  /** `getUserTeamRole` as written never reports a role. */
  lemma {:induction false} GetUserTeamRoleAsWrittenNeverFinds(s: Snapshot, userId: Id, teamId: Id)
    requires userId != ObjectText
    ensures GetUserTeamRoleAsWritten(s, userId, teamId) == None
  {
    match TeamIndex(s.teams, teamId)
    case None =>
    case Some(k) => FindMemberAsWrittenMisses(s, s.teams[k].members, userId);
  }

  /** The corrected search over populated members is the first stored entry
      of the user, provided the user document exists. */
  lemma {:induction false} FindMemberPopulated(s: Snapshot, ms: seq<Member>, userId: Id)
    ensures FindMember(PopulateMembers(s, ms), userId)
         == if userId in s.users && HasMember(ms, userId)
            then Some(MemberView(Populated(userId), ms[FirstIndex(ms, userId).value].role))
            else None
  {
    if ms != [] {
      FindMemberPopulated(s, ms[1..], userId);
      if !(ms[0].userId == userId && userId in s.users) && HasMember(ms, userId) {
        var i :| 0 <= i < |ms| && ms[i].userId == userId;
        if ms[0].userId == userId {
          assert userId !in s.users;
        } else {
          assert ms[1..][i - 1].userId == userId;
        }
      }
    }
  }

  /** `getUserTeamRole`, corrected: the role of the user's first entry in the
      team, or `None` when the team is missing, the user has no entry, or
      the user document is gone. */
  function GetUserTeamRole(s: Snapshot, userId: Id, teamId: Id): (r: Option<string>)
    ensures match TeamIndex(s.teams, teamId)
            case None => r.None?
            case Some(k) =>
              var ms := s.teams[k].members;
              r == if userId in s.users && HasMember(ms, userId) then Some(ms[FirstIndex(ms, userId).value].role) else None
  {
    match ReadTeam(s, teamId)
    case None => None
    case Some(v) =>
      FindMemberPopulated(s, s.teams[TeamIndex(s.teams, teamId).value].members, userId);
      match FindMember(v.members, userId)
      case Some(m) => Some(m.role)
      case None => None
  }

  // ---------------------------------------------------------------------
  // canManageTeam

  /** The decision of `canManageTeam` once the team and the caller's role
      are known: the organization reference is unwrapped (a `null` one
      throws, caught as false), then owner, then manager. */
  function ManageDecision(s: Snapshot, userId: Id, organization: Ref, role: Option<string>): bool
  {
    match RefId(organization)
    case None => false
    case Some(o) => IsOrganizationOwner(s, userId, o) || role == Some("manager")
  }

  /** The unwrapping gives the same decision for both shapes of the reference. */
  lemma ManageDecisionShapeIndependent(s: Snapshot, userId: Id, o: Id, role: Option<string>)
    ensures ManageDecision(s, userId, Bare(o), role) == ManageDecision(s, userId, Populated(o), role)
    ensures ManageDecision(s, userId, Bare(o), role) <==> IsOrganizationOwner(s, userId, o) || role == Some("manager")
  {
  }

  /** `canManageTeam` as written, over the as-written role lookup. */
  function CanManageTeamAsWritten(s: Snapshot, userId: Id, teamId: Id): bool
  {
    match ReadTeam(s, teamId)
    case None => false
    case Some(v) => ManageDecision(s, userId, v.organizationId, GetUserTeamRoleAsWritten(s, userId, teamId))
  }

  /** `canManageTeam`, over the corrected role lookup. */
  function CanManageTeam(s: Snapshot, userId: Id, teamId: Id): bool
  {
    match ReadTeam(s, teamId)
    case None => false
    case Some(v) => ManageDecision(s, userId, v.organizationId, GetUserTeamRole(s, userId, teamId))
  }

  /** `canManageTeam` is false for a missing team; otherwise true exactly for
      the owner of the team's organization, whatever their entry in the
      team, and for a manager of the team, provided the organization still
      exists. */
  lemma {:induction false} CanManageTeamMeaning(s: Snapshot, userId: Id, teamId: Id)
    ensures TeamIndex(s.teams, teamId).None? ==> !CanManageTeam(s, userId, teamId)
    ensures TeamIndex(s.teams, teamId).Some? ==>
              var o := s.teams[TeamIndex(s.teams, teamId).value].organizationId;
              (IsOrganizationOwner(s, userId, o) ==> CanManageTeam(s, userId, teamId))
              && (!IsOrganizationOwner(s, userId, o) ==>
                    (CanManageTeam(s, userId, teamId) <==>
                       FindOrg(s.orgs, o).Some? && GetUserTeamRole(s, userId, teamId) == Some("manager")))
  {
  }

  /** As written, `canManageTeam` admits the organization owner only: a
      team manager is refused. */
  lemma {:induction false} CanManageTeamAsWrittenOwnerOnly(s: Snapshot, userId: Id, teamId: Id)
    requires userId != ObjectText
    ensures CanManageTeamAsWritten(s, userId, teamId) <==>
              TeamIndex(s.teams, teamId).Some?
              && IsOrganizationOwner(s, userId, s.teams[TeamIndex(s.teams, teamId).value].organizationId)
  {
    GetUserTeamRoleAsWrittenNeverFinds(s, userId, teamId);
  }

  /** A snapshot with one organization owned by "owner" and one team in it
      where "lead" is a manager. */
  function ExampleSnapshot(): Snapshot
  {
    Snapshot(
      [Organization("org", "owner")],
      [TeamDoc("team", "Core", "", "org", ["team:write"], [Member("lead", "manager", 0, "owner")], 1, "owner", 0)],
      {"owner", "lead"})
  }

  /** The manager of the example team may manage it under the corrected
      lookup and may not as written. */
  lemma ManagerRefusedExample()
    ensures CanManageTeam(ExampleSnapshot(), "lead", "team")
    ensures !CanManageTeamAsWritten(ExampleSnapshot(), "lead", "team")
  {
    var s := ExampleSnapshot();
    assert FindMember(PopulateMembers(s, s.teams[0].members), "lead") == Some(MemberView(Populated("lead"), "manager"));
    assert "lead" != ObjectText;
    CanManageTeamAsWrittenOwnerOnly(s, "lead", "team");
  }

  // ---------------------------------------------------------------------
  // The organization filter of hasPermission, hasRolePermission, getUserOrgRole

  /** The team's organization reference designates `o`. */
  predicate InOrg(v: TeamView, o: Id)
  {
    RefId(v.organizationId) == Some(o)
  }

  /** The organization filter, corrected: compares the referenced id. */
  function OrgTeams(views: seq<TeamView>, o: Id): seq<TeamView>
  {
    Filter(views, v => InOrg(v, o))
  }

  /** `teams.filter(team => team.organizationId.toString() === o)`; `None`
      where a `null` reference throws. */
  function OrgTeamsAsWritten(views: seq<TeamView>, o: Id): Option<seq<TeamView>>
  {
    if views == [] then Some([])
    else
      match RefText(views[0].organizationId)
      case None => None
      case Some(text) =>
        match OrgTeamsAsWritten(views[1..], o)
        case None => None
        case Some(rest) => Some((if text == o then [views[0]] else []) + rest)
  }

  /** Over bare references the as-written filter is the corrected one: it
      keeps, in order, exactly the teams of `o`. */
  lemma {:induction false} OrgFilterBareAgrees(views: seq<TeamView>, o: Id)
    requires forall i :: 0 <= i < |views| ==> views[i].organizationId.Bare?
    ensures OrgTeamsAsWritten(views, o) == Some(OrgTeams(views, o))
  {
    if views != [] {
      OrgFilterBareAgrees(views[1..], o);
    }
  }

  /** Over populated or dangling references the as-written filter keeps
      nothing, or throws. */
  lemma {:induction false} OrgFilterPopulatedEmpty(views: seq<TeamView>, o: Id)
    requires forall i :: 0 <= i < |views| ==> !views[i].organizationId.Bare?
    requires o != ObjectText
    ensures OrgTeamsAsWritten(views, o) == None || OrgTeamsAsWritten(views, o) == Some([])
  {
    if views != [] {
      OrgFilterPopulatedEmpty(views[1..], o);
      var rest := OrgTeamsAsWritten(views[1..], o);
      if RefText(views[0].organizationId).Some? && rest.Some? {
        assert RefText(views[0].organizationId).value != o;
        assert rest.value == [];
        assert OrgTeamsAsWritten(views, o) == Some([] + rest.value);
        assert [] + rest.value == [];
      }
    }
  }

  /** `getByUser` populates every organization reference. */
  lemma {:induction false} UserTeamsPopulated(s: Snapshot, userId: Id)
    ensures forall i :: 0 <= i < |ReadTeamsOfUser(s, userId)| ==> !ReadTeamsOfUser(s, userId)[i].organizationId.Bare?
  {
  }

  /** Every view `getByUser` returns is the view of a stored team with an
      entry for the user. */
  lemma UserTeamViewSource(s: Snapshot, userId: Id, v: TeamView) returns (d: TeamDoc)
    requires v in ReadTeamsOfUser(s, userId)
    ensures d in s.teams && HasMember(d.members, userId) && v == UserTeamView(s, d)
  {
    var ds := ByUser(s.teams, userId);
    var m :| 0 <= m < |ds| && ReadTeamsOfUser(s, userId)[m] == v;
    d := ds[m];
    assert d in ds;
  }

  /** Every stored team with an entry for the user is viewed by `getByUser`. */
  lemma UserTeamViewed(s: Snapshot, userId: Id, d: TeamDoc)
    requires d in s.teams && HasMember(d.members, userId)
    ensures UserTeamView(s, d) in ReadTeamsOfUser(s, userId)
  {
    var ds := ByUser(s.teams, userId);
    assert d in ds;
    var m :| 0 <= m < |ds| && ds[m] == d;
    var views := ReadTeamsOfUser(s, userId);
    assert |views| == |ds| && views[m] == UserTeamView(s, ds[m]);
  }

  /** Every team the corrected filter keeps over `getByUser` is the view of
      one of the user's teams in `o`. */
  lemma {:induction false} OrgTeamsOfUserSound(s: Snapshot, userId: Id, o: Id, v: TeamView)
    requires v in OrgTeams(ReadTeamsOfUser(s, userId), o)
    ensures exists d :: InUserOrgTeam(s, userId, o, d) && v == UserTeamView(s, d)
  {
    var views := ReadTeamsOfUser(s, userId);
    assert v in views && InOrg(v, o);
    var d := UserTeamViewSource(s, userId, v);
    assert InUserOrgTeam(s, userId, o, d);
  }

  /** Every team of the user in `o` is kept by the corrected filter. */
  lemma {:induction false} OrgTeamsOfUserComplete(s: Snapshot, userId: Id, o: Id, d: TeamDoc)
    requires InUserOrgTeam(s, userId, o, d)
    ensures UserTeamView(s, d) in OrgTeams(ReadTeamsOfUser(s, userId), o)
  {
    UserTeamViewed(s, userId, d);
    assert InOrg(UserTeamView(s, d), o);
  }

  // ---------------------------------------------------------------------
  // hasPermission

  /** `hasPermission` as written. */
  function HasPermissionAsWritten(s: Snapshot, userId: Id, o: Id, permission: string): bool
  {
    match OrgTeamsAsWritten(ReadTeamsOfUser(s, userId), o)
    case None => false
    case Some(ts) => Any(ts, (v: TeamView) => permission in v.permissions)
  }

  /** `hasPermission`, corrected. */
  function HasPermission(s: Snapshot, userId: Id, o: Id, permission: string): bool
  {
    Any(OrgTeams(ReadTeamsOfUser(s, userId), o), (v: TeamView) => permission in v.permissions)
  }

  /** `hasPermission` holds exactly when one of the user's teams in the
      organization lists the permission. */
  lemma {:induction false} HasPermissionMeaning(s: Snapshot, userId: Id, o: Id, permission: string)
    ensures HasPermission(s, userId, o, permission) <==>
              exists d :: InUserOrgTeam(s, userId, o, d) && permission in d.permissions
  {
    if HasPermission(s, userId, o, permission) {
      HasPermissionSound(s, userId, o, permission);
    }
    if exists d :: InUserOrgTeam(s, userId, o, d) && permission in d.permissions {
      var d :| InUserOrgTeam(s, userId, o, d) && permission in d.permissions;
      HasPermissionComplete(s, userId, o, permission, d);
    }
  }

  lemma {:induction false} HasPermissionSound(s: Snapshot, userId: Id, o: Id, permission: string)
    requires HasPermission(s, userId, o, permission)
    ensures exists d :: InUserOrgTeam(s, userId, o, d) && permission in d.permissions
  {
    var r := OrgTeams(ReadTeamsOfUser(s, userId), o);
    var i :| 0 <= i < |r| && permission in r[i].permissions;
    OrgTeamsOfUserSound(s, userId, o, r[i]);
    var d :| InUserOrgTeam(s, userId, o, d) && r[i] == UserTeamView(s, d);
    assert permission in d.permissions;
  }

  lemma {:induction false} HasPermissionComplete(s: Snapshot, userId: Id, o: Id, permission: string, d: TeamDoc)
    requires InUserOrgTeam(s, userId, o, d) && permission in d.permissions
    ensures HasPermission(s, userId, o, permission)
  {
    var r := OrgTeams(ReadTeamsOfUser(s, userId), o);
    OrgTeamsOfUserComplete(s, userId, o, d);
    var i :| 0 <= i < |r| && r[i] == UserTeamView(s, d);
    assert permission in r[i].permissions;
  }

  /** As written, `hasPermission` grants nothing. */
  lemma {:induction false} HasPermissionAsWrittenNeverGrants(s: Snapshot, userId: Id, o: Id, permission: string)
    requires o != ObjectText
    ensures !HasPermissionAsWritten(s, userId, o, permission)
  {
    UserTeamsPopulated(s, userId);
    OrgFilterPopulatedEmpty(ReadTeamsOfUser(s, userId), o);
  }

  /** The example manager holds "team:write" in "org" under the corrected
      filter and not as written. */
  lemma PermissionRefusedExample()
    ensures HasPermission(ExampleSnapshot(), "lead", "org", "team:write")
    ensures !HasPermissionAsWritten(ExampleSnapshot(), "lead", "org", "team:write")
  {
    var s := ExampleSnapshot();
    assert s.teams[0].members[0].userId == "lead";
    assert FindOrg(s.orgs, "org") == Some(s.orgs[0]);
    assert InUserOrgTeam(s, "lead", "org", s.teams[0]) && "team:write" in s.teams[0].permissions;
    HasPermissionMeaning(s, "lead", "org", "team:write");
    HasPermissionAsWrittenNeverGrants(s, "lead", "org", "team:write");
  }

  // ---------------------------------------------------------------------
  // hasRolePermission, getUserOrgRole

  /** The organization-level roles, highest first. */
  datatype OrgRole = Admin | Manager | MemberRole

  /** A team role satisfies the required role inside the loop of
      `hasRolePermission`: `member` wants any (truthy) role, `manager` wants
      `manager`, and no team role is `admin`. */
  predicate Satisfies(required: OrgRole, role: Option<string>)
  {
    match required
    case Admin => false
    case Manager => role == Some("manager")
    case MemberRole => role.Some? && role.value != ""
  }

  /** `hasRolePermission` as written. */
  function HasRolePermissionAsWritten(s: Snapshot, userId: Id, o: Id, required: OrgRole): bool
  {
    IsOrganizationOwner(s, userId, o)
    || match OrgTeamsAsWritten(ReadTeamsOfUser(s, userId), o)
       case None => false
       case Some(ts) => Any(ts, (v: TeamView) => Satisfies(required, GetUserTeamRoleAsWritten(s, userId, v.id)))
  }

  /** `hasRolePermission`, corrected. */
  function HasRolePermission(s: Snapshot, userId: Id, o: Id, required: OrgRole): bool
  {
    IsOrganizationOwner(s, userId, o)
    || FoundInOrgTeams(s, userId, o, required)
  }

  /** Some team of the user in `o` gives the user a role satisfying `required`. */
  ghost predicate RoleInSomeTeam(s: Snapshot, userId: Id, o: Id, required: OrgRole)
  {
    exists d :: InUserOrgTeam(s, userId, o, d) && Satisfies(required, GetUserTeamRole(s, userId, d.id))
  }

  /** The loop of `hasRolePermission` over the organization's teams: some
      team's role satisfies the requirement. */
  predicate FoundInOrgTeams(s: Snapshot, userId: Id, o: Id, required: OrgRole)
  {
    Any(OrgTeams(ReadTeamsOfUser(s, userId), o), (v: TeamView) => Satisfies(required, GetUserTeamRole(s, userId, v.id)))
  }

  /** The loop over the organization's teams is the search for a satisfying team. */
  lemma {:induction false} OrgTeamSearch(s: Snapshot, userId: Id, o: Id, required: OrgRole)
    ensures FoundInOrgTeams(s, userId, o, required) <==> RoleInSomeTeam(s, userId, o, required)
  {
    if FoundInOrgTeams(s, userId, o, required) {
      OrgTeamSearchSound(s, userId, o, required);
    }
    if RoleInSomeTeam(s, userId, o, required) {
      var d :| InUserOrgTeam(s, userId, o, d) && Satisfies(required, GetUserTeamRole(s, userId, d.id));
      OrgTeamSearchComplete(s, userId, o, required, d);
    }
  }

  lemma {:induction false} OrgTeamSearchSound(s: Snapshot, userId: Id, o: Id, required: OrgRole)
    requires FoundInOrgTeams(s, userId, o, required)
    ensures RoleInSomeTeam(s, userId, o, required)
  {
    var r := OrgTeams(ReadTeamsOfUser(s, userId), o);
    var i :| 0 <= i < |r| && Satisfies(required, GetUserTeamRole(s, userId, r[i].id));
    OrgTeamsOfUserSound(s, userId, o, r[i]);
    var d :| InUserOrgTeam(s, userId, o, d) && r[i] == UserTeamView(s, d);
    assert r[i].id == d.id;
  }

  lemma {:induction false} OrgTeamSearchComplete(s: Snapshot, userId: Id, o: Id, required: OrgRole, d: TeamDoc)
    requires InUserOrgTeam(s, userId, o, d) && Satisfies(required, GetUserTeamRole(s, userId, d.id))
    ensures FoundInOrgTeams(s, userId, o, required)
  {
    var r := OrgTeams(ReadTeamsOfUser(s, userId), o);
    OrgTeamsOfUserComplete(s, userId, o, d);
    var i :| 0 <= i < |r| && r[i] == UserTeamView(s, d);
    assert r[i].id == d.id;
  }

  /** An owner satisfies every required role; a non-owner never satisfies
      `admin`, and otherwise needs a team in the organization whose role
      satisfies the requirement. The roles form a hierarchy. */
  lemma {:induction false} HasRolePermissionMeaning(s: Snapshot, userId: Id, o: Id, required: OrgRole)
    ensures IsOrganizationOwner(s, userId, o) ==> HasRolePermission(s, userId, o, required)
    ensures !IsOrganizationOwner(s, userId, o) ==>
              (HasRolePermission(s, userId, o, required) <==> required != Admin && RoleInSomeTeam(s, userId, o, required))
    ensures HasRolePermission(s, userId, o, Admin) ==> HasRolePermission(s, userId, o, Manager)
    ensures HasRolePermission(s, userId, o, Manager) ==> HasRolePermission(s, userId, o, MemberRole)
  {
    OrgTeamSearch(s, userId, o, required);
    OrgTeamSearch(s, userId, o, Admin);
    OrgTeamSearch(s, userId, o, Manager);
    OrgTeamSearch(s, userId, o, MemberRole);
    if RoleInSomeTeam(s, userId, o, Manager) {
      var d :| InUserOrgTeam(s, userId, o, d) && Satisfies(Manager, GetUserTeamRole(s, userId, d.id));
      assert Satisfies(MemberRole, GetUserTeamRole(s, userId, d.id));
    }
  }

  /** As written, `hasRolePermission` holds for the owner only. */
  lemma {:induction false} HasRolePermissionAsWrittenOwnerOnly(s: Snapshot, userId: Id, o: Id, required: OrgRole)
    requires o != ObjectText
    ensures HasRolePermissionAsWritten(s, userId, o, required) <==> IsOrganizationOwner(s, userId, o)
  {
    UserTeamsPopulated(s, userId);
    OrgFilterPopulatedEmpty(ReadTeamsOfUser(s, userId), o);
  }

  /** `getUserOrgRole` as written. */
  function GetUserOrgRoleAsWritten(s: Snapshot, userId: Id, o: Id): Option<OrgRole>
  {
    if IsOrganizationOwner(s, userId, o) then Some(Admin)
    else
      match OrgTeamsAsWritten(ReadTeamsOfUser(s, userId), o)
      case None => None
      case Some(ts) =>
        if |ts| == 0 then None
        else if Any(ts, (v: TeamView) => GetUserTeamRoleAsWritten(s, userId, v.id) == Some("manager")) then Some(Manager)
        else Some(MemberRole)
  }

  /** `getUserOrgRole`, corrected. */
  function GetUserOrgRole(s: Snapshot, userId: Id, o: Id): Option<OrgRole>
  {
    if IsOrganizationOwner(s, userId, o) then Some(Admin)
    else
      var ts := OrgTeams(ReadTeamsOfUser(s, userId), o);
      if |ts| == 0 then None
      else if FoundInOrgTeams(s, userId, o, Manager) then Some(Manager)
      else Some(MemberRole)
  }

  /** `getUserOrgRole` in priority order: `admin` for the owner; none when
      the user has no team in the organization; `manager` when some such
      team makes the user a manager; `member` otherwise. */
  lemma {:induction false} GetUserOrgRoleMeaning(s: Snapshot, userId: Id, o: Id)
    ensures var r := GetUserOrgRole(s, userId, o);
            var owner := IsOrganizationOwner(s, userId, o);
            var inOrg := exists d :: InUserOrgTeam(s, userId, o, d);
            (r == Some(Admin) <==> owner)
            && (r.None? <==> !owner && !inOrg)
            && (r == Some(Manager) <==> !owner && RoleInSomeTeam(s, userId, o, Manager))
            && (r == Some(MemberRole) <==> !owner && inOrg && !RoleInSomeTeam(s, userId, o, Manager))
  {
    var ts := OrgTeams(ReadTeamsOfUser(s, userId), o);
    OrgTeamSearch(s, userId, o, Manager);
    if |ts| > 0 {
      OrgTeamsOfUserSound(s, userId, o, ts[0]);
    }
    if exists d :: InUserOrgTeam(s, userId, o, d) {
      var d :| InUserOrgTeam(s, userId, o, d);
      OrgTeamsOfUserComplete(s, userId, o, d);
    }
  }

  /** As written, `getUserOrgRole` knows only the owner. */
  lemma {:induction false} GetUserOrgRoleAsWrittenOwnerOnly(s: Snapshot, userId: Id, o: Id)
    requires o != ObjectText
    ensures GetUserOrgRoleAsWritten(s, userId, o) == if IsOrganizationOwner(s, userId, o) then Some(Admin) else None
  {
    UserTeamsPopulated(s, userId);
    OrgFilterPopulatedEmpty(ReadTeamsOfUser(s, userId), o);
  }
}
