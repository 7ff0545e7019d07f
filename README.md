# Team, invitation and access core of softcom-26

This project models the access-control core of a Next.js dashboard:

- **Team registry** (`Teams`). Team documents hold a member list and a `membersCount` counter. The service updates them in place: push or pull a member, update a role, add or remove a permission, patch fields, delete. `name` and `description` pass through the schema's `trim` setter, and a value that is empty once trimmed fails the `required` validator, on `create` and on `update`.
- **Invitation ledger** (`Invitations`). An invitation starts `pending` and leaves that state at most once. Accept and reject are compare-and-set updates on `{ token, status: 'pending' }`. Expiry is lazy in `isValid` and batched in `expireOld`.
- **Access resolver** (`Permissions`). It answers whether a user owns an organization, belongs to or may manage a team, holds a permission in an organization, satisfies an organization role, and which organization role the user has.
- **Route guard chains** (`InvitationRoutes`, `TeamRoutes`, `Registration`, `Login`). Each is the ordered checks of one API route: authentication, required fields, format, uniqueness, permission. Then comes the single store operation it performs.
- **Small pure pieces**:
  - bearer-token extraction (`Jwt`);
  - the page middleware (`Proxy`);
  - the navigation filter (`Navigation`);
  - the shared email test (`EmailFormat`);
  - the account records (`Users`).

Shared vocabulary lives in `Common` (option and result values, `filter`, `some`, JavaScript whitespace and `trim`) and `Ordering` (the `createdAt` descending sort of the queries).

Stateful parts are classes whose methods update fields under `modifies`:
- `Teams.Team` and `Teams.TeamRegistry`;
- `Invitations.Ledger`;
- `Registration.UserDirectory`.

Each method is specified by a pure function of the old state (`MemberAdded`, `CompareAndSet`, `Sweep`, …), and the lemmas are about those functions.

The resolver reads a `Snapshot` of the stored organizations, teams and user ids. It models Mongoose's `populate` + `lean` explicitly: a reference is `Bare(id)`, `Populated(id)` (a plain object whose `toString()` is `"[object Object]"`) or `Unresolved` (a dangling reference, `null`, on which `toString()` throws and the resolver's `catch` answers false or null).

The code and the design description disagree on two points. The model follows the code:

- **Member counter.** The design says `membersCount` always equals the length of `members`. It also says a user has at most one membership per team. The code does not enforce either:
  - `addMember` pushes without checking for an existing entry;
  - `removeMember` pulls every entry of the user but decrements the counter by one, even when there was none.

  The model therefore proves the exact conditions under which the counter stays consistent, and exhibits the drift.
- **Role checks.** The design describes working role and permission checks. As written, the filters in `permissions.ts` compare populated references by their string form. See "## Findings".

The register route has a defect of its own. It inserts the account without the `id` the user schema requires, so every admitted registration answers 500 and stores nothing (`Registration.UserDirectory.Register`). The intended behaviour, a 201 with the stored account, is `Registration.UserDirectory.RegisterIntended`. See "## Findings".

## Model

| member | source | states |
|---|---|---|
| Teams.NewTeam | src/lib/services/team-service.ts:13-29 | A new team stores `name` and `description` trimmed (the schema's `trim` setter, src/lib/models/team.ts:50-59), and both are non-empty and fully trimmed when the schema accepts them. It has no members, a zero counter that agrees with the list, the given permissions or none, and the caller's ids and time |
| Teams.TrimOnCreateExamples | src/lib/models/team.ts:50-59 | A name of three spaces fails the schema's `required` check once trimmed; a name " A " is stored as "A" |
| Teams.MemberAdded | src/lib/services/team-service.ts:144-158 | Adding a member appends exactly that entry after the old list and raises the counter by one; nothing else changes; a consistent counter stays consistent |
| Teams.MemberRemoved | src/lib/services/team-service.ts:168-180 | Removing a user leaves no entry for that user, shortens the list by the user's number of entries, and lowers the counter by exactly one |
| Teams.RoleUpdated | src/lib/services/team-service.ts:185-206 | The positional role update changes the role of the user's first entry only; every other entry and field is unchanged |
| Teams.PermissionAdded | src/lib/services/team-service.ts:211-223 | `$addToSet`: the permission set grows by exactly the new permission; a permission already present leaves the document unchanged |
| Teams.PermissionRemoved | src/lib/services/team-service.ts:228-240 | `$pull`: the remaining permissions are exactly the old ones other than the removed one. Every other permission keeps its number of copies, and no copy of the removed one is left |
| Teams.Patched | src/lib/services/team-service.ts:103-119 | `$set` of a partial update: each supplied field takes the new value, `name` and `description` trimmed by the schema's setter, others keep theirs; members and counter untouched. A valid patch keeps stored names and descriptions non-empty and trimmed |
| Teams.TeamIndex | src/lib/services/team-service.ts:34-43 | `getById` finds the document with that id, or reports that none has it |
| Teams.IsMember | src/lib/services/team-service.ts:265-272 | `isMember` is true exactly when the team with that id has an entry for the user |
| Teams.ByOrganization | src/lib/services/team-service.ts:72-82 | Exactly the organization's teams, each with as many copies as stored and no other document, newest first |
| Teams.ByUser | src/lib/services/team-service.ts:87-98 | Exactly the teams with an entry for the user, each with as many copies as stored and no other document, newest first |
| Teams.FirstIndex | src/lib/services/team-service.ts:201 | The position the positional operator `$` designates: the first entry of the user, none earlier; none when the user has no entry |
| Teams.WithoutUser | src/lib/services/team-service.ts:173 | `$pull` by `userId` drops every entry of the user and keeps every other entry |
| Teams.OccurrencesPositive | src/lib/services/team-service.ts:173 | A user has entries exactly when their count of entries is positive |
| Teams.OccurrencesAppend | src/lib/services/team-service.ts:147 | Entry counts add up over concatenated member lists |
| Teams.AddMemberNeverDeduplicates | src/lib/services/team-service.ts:144-158 | Adding a user who already has an entry adds a second one: the user's entries grow by exactly one |
| Teams.RemoveMemberCountIffSingleEntry | src/lib/services/team-service.ts:168-180 | From a consistent document, removal keeps the counter equal to the list length if and only if the user had exactly one entry |
| Teams.RemoveAbsentMemberDrifts | src/lib/services/team-service.ts:168-180 | Removing a user with no entry leaves the list alone but drops the counter below the list length |
| Teams.RemovingNothing | src/lib/services/team-service.ts:173 | Pulling a user without entries leaves the member list unchanged |
| Teams.DuplicateAddThenRemoveDrifts | src/lib/services/team-service.ts:124-180 | Two adds of the same user and one remove leave an empty list with a counter of one |
| Teams.AddPermissionIdempotent | src/lib/services/team-service.ts:211-223 | Adding a permission twice equals adding it once, and a duplicate-free permission list stays duplicate-free |
| Teams.RemovePermissionAll | src/lib/services/team-service.ts:228-240 | After removal the permission is absent; removing it again changes nothing |
| Teams.FilterKeepsAll | src/lib/services/team-service.ts:235 | Pulling an absent permission leaves the list unchanged |
| Teams.DocsOf | src/lib/models/team.ts:48-91 | The stored documents, one per team object, in order |
| Teams.Team.constructor | src/lib/services/team-service.ts:13-29 | The new object's document is `NewTeam` of the arguments |
| Teams.Team.PushMember | src/lib/services/team-service.ts:144-158 | The object's new document is `MemberAdded` of the old one |
| Teams.Team.PullMember | src/lib/services/team-service.ts:168-180 | The object's new document is `MemberRemoved` of the old one |
| Teams.Team.SetMemberRole | src/lib/services/team-service.ts:199-203 | The object's new document is `RoleUpdated` of the old one |
| Teams.Team.AddToSetPermission | src/lib/services/team-service.ts:216-220 | The object's new document is `PermissionAdded` of the old one |
| Teams.Team.PullPermission | src/lib/services/team-service.ts:233-237 | The object's new document is `PermissionRemoved` of the old one |
| Teams.Team.SetFields | src/lib/services/team-service.ts:112-116 | The object's new document is `Patched` of the old one |
| Teams.TeamRegistry.Docs | src/lib/services/team-service.ts:34-43 | The stored documents, one per team, with unique ids while the registry is valid |
| Teams.TeamRegistry.constructor | src/lib/models/team.ts:97-98 | An empty collection |
| Teams.TeamRegistry.Create | src/lib/services/team-service.ts:13-29 | When the trimmed name or description is empty, the schema's validation error and nothing stored. Otherwise `create` appends a fresh team whose document is `NewTeam`; ids stay unique |
| Teams.TeamRegistry.OthersUnchanged | src/lib/services/team-service.ts:103-240 | A single-document update leaves every other stored document as it was |
| Teams.TeamRegistry.Update | src/lib/services/team-service.ts:103-119 | A patch whose `name` or `description` is empty once trimmed fails the update validators: an error with no write. A missing team gives null. Otherwise exactly that team becomes `Patched`, and that document is returned |
| Teams.TeamRegistry.AddMember | src/lib/services/team-service.ts:124-163 | Invalid role: error, no write. Missing team: null. Otherwise only that team becomes `MemberAdded` and is returned |
| Teams.TeamRegistry.RemoveMember | src/lib/services/team-service.ts:168-180 | Missing team: null; otherwise only that team becomes `MemberRemoved` and is returned |
| Teams.TeamRegistry.UpdateMemberRole | src/lib/services/team-service.ts:185-206 | Invalid role: error, no write. Missing team or no entry for the user: null. Otherwise only that team becomes `RoleUpdated` |
| Teams.TeamRegistry.AddPermission | src/lib/services/team-service.ts:211-223 | Missing team: null; otherwise only that team becomes `PermissionAdded` |
| Teams.TeamRegistry.RemovePermission | src/lib/services/team-service.ts:228-240 | Missing team: null; otherwise only that team becomes `PermissionRemoved` |
| Teams.TeamRegistry.Delete | src/lib/services/team-service.ts:245-249 | True exactly when a team with that id existed; that one document is removed and the order of the rest kept |
| Invitations.NewInvitation | src/lib/services/invitation-service.ts:30-42 | A new invitation is pending, carries the given token and fields, and expires seven days (604800000 ms) after creation |
| Invitations.FindByToken | src/lib/services/invitation-service.ts:82-90 | `getByToken` finds an invitation with that token in any status, or reports that none has it |
| Invitations.FindByTokenAt | src/lib/services/invitation-service.ts:82-90 | With unique tokens, the lookup of a stored invitation's token returns that invitation |
| Invitations.ByEmail | src/lib/services/invitation-service.ts:95-104 | Exactly the pending invitations for the address, each with as many copies as stored and no other document, newest first |
| Invitations.ByTeam | src/lib/services/invitation-service.ts:109-118 | Exactly the team's invitations in every status, each with as many copies as stored and no other document, newest first |
| Invitations.PendingIndex | src/lib/services/invitation-service.ts:126-129 | The document the filter `{ token, status: 'pending' }` matches, or none exactly when no pending invitation has the token |
| Invitations.CompareAndSet | src/lib/services/invitation-service.ts:123-145 | Accept and reject succeed exactly when a pending invitation has the token. Only that invitation changes, and only its status (to the target). A failed call writes nothing |
| Invitations.CheckValid | src/lib/services/invitation-service.ts:159-177 | `isValid` is true exactly for a pending invitation not past its expiry. A pending one past expiry is marked expired, and nothing else is written |
| Invitations.Sweep | src/lib/services/invitation-service.ts:182-192 | `expireOld` turns exactly the pending invitations whose expiry is before now into expired ones |
| Invitations.IdIndex | src/lib/services/invitation-service.ts:150-154 | The position of the invitation with a document id, or none |
| Invitations.ResolvedIsTerminal | src/lib/services/invitation-service.ts:123-145 | After a successful accept or reject no invitation with that token is pending, so no later accept or reject can succeed |
| Invitations.AcceptIgnoresExpiry | src/lib/services/invitation-service.ts:123-132 | `accept` succeeds on a pending invitation whose expiry has passed: it does not check the date |
| Invitations.LazyExpiry | src/lib/services/invitation-service.ts:159-177 | `isValid` on a pending, overdue invitation answers false and leaves it expired |
| Invitations.SweepCountsChanges | src/lib/services/invitation-service.ts:182-192 | The count `expireOld` reports equals the number of invitations it changed |
| Invitations.CountExpirable | src/lib/services/invitation-service.ts:182-192 | The count `expireOld` reports is at most the number of invitations, and zero exactly when none is pending past its expiry |
| Invitations.SweepIdempotent | src/lib/services/invitation-service.ts:182-192 | A second sweep at the same time changes nothing and counts zero |
| Invitations.CheckAfterSweepWritesNothing | src/lib/services/invitation-service.ts:159-192 | After a sweep at time now, `isValid` at the same time writes nothing |
| Invitations.Ledger.constructor | src/lib/models/invitation.ts:74-75 | An empty ledger |
| Invitations.Ledger.Create | src/lib/services/invitation-service.ts:14-77 | A role outside the team roles throws before any write. Otherwise exactly `NewInvitation` is appended under the next id, with its 64-character token. Tokens and ids stay unique |
| Invitations.Ledger.Accept | src/lib/services/invitation-service.ts:123-132 | The new ledger and the result are `CompareAndSet` toward accepted |
| Invitations.Ledger.Reject | src/lib/services/invitation-service.ts:137-145 | The new ledger and the result are `CompareAndSet` toward rejected |
| Invitations.Ledger.Delete | src/lib/services/invitation-service.ts:150-154 | True exactly when an invitation with that id existed; that one is removed |
| Invitations.Ledger.IsValid | src/lib/services/invitation-service.ts:159-177 | The new ledger and the answer are `CheckValid` |
| Invitations.Ledger.ExpireOld | src/lib/services/invitation-service.ts:182-192 | The ledger becomes `Sweep` of the old one and the count is the number of expirable invitations |
| Permissions.FindOrg | src/lib/utils/permissions.ts:53 | The organization with that id, or none when no stored organization has it |
| Permissions.IsOrganizationOwner | src/lib/utils/permissions.ts:48-61 | True exactly when the organization exists, its owner is the user, and the owner's user document exists; false for a missing organization |
| Permissions.IsTeamMember | src/lib/utils/permissions.ts:66-76 | True exactly when the team has an entry for the user |
| Permissions.ReadTeam | src/lib/services/team-service.ts:34-43 | `getById` finds a team exactly when one with that id is stored, and returns that team |
| Permissions.FindMemberAsWrittenMisses | src/lib/utils/permissions.ts:89 | As written, the member search over populated entries finds nobody (or throws on a dangling one) |
| Permissions.GetUserTeamRoleAsWrittenNeverFinds | src/lib/utils/permissions.ts:81-96 | As written, `getUserTeamRole` never reports a role |
| Permissions.GetUserTeamRoleAsWritten | src/lib/utils/permissions.ts:81-96 | `getUserTeamRole` as written, over the populated members of `getById`; `GetUserTeamRoleAsWrittenNeverFinds` shows it finds no one |
| Permissions.FindMemberPopulated | src/lib/utils/permissions.ts:89 | The corrected search over populated entries returns the user's first stored entry when the user document exists |
| Permissions.GetUserTeamRole | src/lib/utils/permissions.ts:81-96 | Corrected: the role of the user's first entry in the team. None when the team is missing, the user has no entry, or the user document is gone |
| Permissions.ManageDecisionShapeIndependent | src/lib/utils/permissions.ts:110-120 | Unwrapping the organization reference gives the same answer for bare and populated forms: owner or manager |
| Permissions.CanManageTeamMeaning | src/lib/utils/permissions.ts:101-125 | False for a missing team. The organization's owner may manage. Anyone else may manage exactly when the organization exists and their role in the team is manager |
| Permissions.CanManageTeamAsWrittenOwnerOnly | src/lib/utils/permissions.ts:101-125 | As written, `canManageTeam` holds exactly for the owner of an existing team's organization |
| Permissions.CanManageTeamAsWritten | src/lib/utils/permissions.ts:101-125 | `canManageTeam` as written: the team's organization owner, or the role `getUserTeamRole` finds; by `CanManageTeamAsWrittenOwnerOnly` it admits exactly the owner |
| Permissions.CanManageTeam | src/lib/utils/permissions.ts:101-125 | `canManageTeam` with the corrected role lookup; its meaning is proved in `CanManageTeamMeaning` |
| Permissions.ManagerRefusedExample | src/lib/utils/permissions.ts:89 | A team manager is allowed by the corrected check and refused by the check as written |
| Permissions.OrgFilterBareAgrees | src/lib/utils/permissions.ts:28-30 | Over unpopulated references the string comparison is the intended organization filter |
| Permissions.OrgFilterPopulatedEmpty | src/lib/utils/permissions.ts:28-30 | Over populated or dangling references the filter keeps nothing (or throws) |
| Permissions.UserTeamsPopulated | src/lib/services/team-service.ts:87-98 | The user's teams come back with their organization populated |
| Permissions.ReadTeamsOfUser | src/lib/services/team-service.ts:87-98 | `getByUser`: the user's teams with the organization populated; which teams appear is proved in `OrgTeamsOfUserSound` and `OrgTeamsOfUserComplete` |
| Permissions.UserTeamViewSource | src/lib/services/team-service.ts:87-98 | Every view `getByUser` returns is the view of a stored team with an entry for the user |
| Permissions.UserTeamViewed | src/lib/services/team-service.ts:87-98 | Every stored team with an entry for the user is viewed by `getByUser` |
| Permissions.OrgTeamsOfUserSound | src/lib/utils/permissions.ts:26-30 | Every team the corrected filter keeps is one of the user's teams in the organization |
| Permissions.OrgTeamsOfUserComplete | src/lib/utils/permissions.ts:26-30 | Every team of the user in the organization is kept by the corrected filter |
| Permissions.HasPermissionMeaning | src/lib/utils/permissions.ts:20-43 | Corrected: the user holds the permission exactly when one of their teams in the organization lists it |
| Permissions.HasPermissionAsWritten | src/lib/utils/permissions.ts:20-43 | `hasPermission` as written, with the organization filter on `toString()`; `HasPermissionAsWrittenNeverGrants` shows it never grants |
| Permissions.HasPermission | src/lib/utils/permissions.ts:20-43 | `hasPermission` with the corrected filter; its meaning is proved in `HasPermissionMeaning`, `HasPermissionSound` and `HasPermissionComplete` |
| Permissions.HasPermissionSound | src/lib/utils/permissions.ts:20-43 | A granted permission comes from one of the user's teams in the organization |
| Permissions.HasPermissionComplete | src/lib/utils/permissions.ts:20-43 | A permission listed by one of the user's teams in the organization is granted |
| Permissions.HasPermissionAsWrittenNeverGrants | src/lib/utils/permissions.ts:20-43 | As written, `hasPermission` grants nothing |
| Permissions.PermissionRefusedExample | src/lib/utils/permissions.ts:28-30 | A team's permission is granted by the corrected check and refused as written |
| Permissions.OrgTeamSearch | src/lib/utils/permissions.ts:148-158 | The loop over the organization's teams finds a satisfying role exactly when some team of the user in the organization gives one |
| Permissions.OrgTeamSearchSound | src/lib/utils/permissions.ts:148-158 | A role found by the loop comes from one of the user's teams in the organization |
| Permissions.OrgTeamSearchComplete | src/lib/utils/permissions.ts:148-158 | A satisfying role in one of the user's teams in the organization is found by the loop |
| Permissions.HasRolePermissionMeaning | src/lib/utils/permissions.ts:131-165 | The owner satisfies every role. Anyone else satisfies one exactly when it is not admin and some team gives a sufficient role. Admin implies manager implies member |
| Permissions.HasRolePermissionAsWritten | src/lib/utils/permissions.ts:131-165 | `hasRolePermission` as written; `HasRolePermissionAsWrittenOwnerOnly` shows only the owner passes |
| Permissions.HasRolePermission | src/lib/utils/permissions.ts:131-165 | `hasRolePermission` with the corrected filter; its meaning is proved in `HasRolePermissionMeaning` |
| Permissions.HasRolePermissionAsWrittenOwnerOnly | src/lib/utils/permissions.ts:131-165 | As written, `hasRolePermission` holds exactly for the owner |
| Permissions.GetUserOrgRoleMeaning | src/lib/utils/permissions.ts:171-200 | Corrected, in priority order: admin exactly for the owner. None exactly for a non-owner with no team in the organization. Manager when a team makes them manager. Member otherwise |
| Permissions.GetUserOrgRoleAsWritten | src/lib/utils/permissions.ts:171-200 | `getUserOrgRole` as written; `GetUserOrgRoleAsWrittenOwnerOnly` shows every non-owner gets null |
| Permissions.GetUserOrgRole | src/lib/utils/permissions.ts:171-200 | `getUserOrgRole` with the corrected filter; its meaning is proved in `GetUserOrgRoleMeaning` |
| Permissions.GetUserOrgRoleAsWrittenOwnerOnly | src/lib/utils/permissions.ts:171-200 | As written, `getUserOrgRole` is admin for the owner and null for everyone else |
| Jwt.ExtractToken | src/lib/auth/jwt.ts:24-27 | A token exactly when the header is present, non-empty and starts with `Bearer `; the header is then that prefix followed by the token |
| Jwt.ExtractTokenRoundTrip | src/lib/auth/jwt.ts:24-27 | Any token placed behind the prefix is extracted back, the empty one included |
| Jwt.ExtractTokenIsStrict | src/lib/auth/jwt.ts:25 | A lower-case scheme, a missing space or a missing header gives no token |
| Jwt.VerifyToken | src/lib/auth/jwt.ts:16-22 | The claims exactly when the library's verification succeeds, and null when it throws |
| Proxy.Middleware | src/proxy.ts:7-50 | Only next or a redirect to the sign-in page. Redirect exactly for a path that is neither public nor internal and is either the root or a dashboard path without a cookie whose parse yields `id` or `_id` |
| Proxy.PublicSubpathsPass | src/proxy.ts:5-13 | Every path below a public page passes, whatever the cookie |
| Proxy.IsPublic | src/proxy.ts:5-13 | A path is public when it starts with one of the four sign-in, sign-up and password pages |
| Proxy.IsInternal | src/proxy.ts:16-18 | A path is internal when it starts with `/api`, `/_next` or `/favicon` |
| Proxy.InternalPathsPass | src/proxy.ts:16-18 | API and static paths pass without a cookie |
| Proxy.RootRedirects | src/proxy.ts:25-27 | The root is always redirected to sign-in |
| Proxy.DashboardNeedsUser | src/proxy.ts:30-46 | A dashboard path passes exactly when the cookie parses to a user with an id |
| Proxy.AuthorizationIgnored | src/proxy.ts:22 | The authorization header never changes the decision |
| Navigation.FilterNav | src/hooks/use-nav.ts:40-84 | The result is no longer than the input and every item kept is allowed |
| Navigation.KeptIndices | src/hooks/use-nav.ts:42-61 | The positions of exactly the allowed items, increasing |
| Navigation.FilterNavInOrder | src/hooks/use-nav.ts:40-84 | The result is exactly the allowed items, in their original order, each with its children filtered |
| Navigation.AlongCons | src/hooks/use-nav.ts:62-84 | Mapping over positions distributes over a leading position |
| Navigation.UnrestrictedKept | src/hooks/use-nav.ts:43 | An item with no access requirements is kept |
| Navigation.Allowed | src/hooks/use-nav.ts:43-58 | The filter callback: no requirements, or the organization, permission and exact role each met when asked for; `UnrestrictedKept` and `UnmetRequirementDrops` state both directions |
| Navigation.UnmetRequirementDrops | src/hooks/use-nav.ts:46-58 | A missing organization, a missing permission or a different role each drop the item |
| Navigation.ChildlessUnchanged | src/hooks/use-nav.ts:63 | A kept item without children comes back unchanged |
| Navigation.ParentOutlivesChildren | src/hooks/use-nav.ts:65-83 | A kept parent whose children are all refused stays, with an empty child list |
| EmailFormat.EmailTestMatchesPattern | src/app/api/auth/register/route.ts:19-25 | The plain reading (no whitespace, one `@` not first, a later `.` neither right after it nor last) accepts exactly the strings the regular expression matches |
| EmailFormat.ValidExample | src/app/api/auth/register/route.ts:19-25 | `ann@example.com` passes the test |
| EmailFormat.SeveralDotsExample | src/app/api/auth/register/route.ts:19-25 | A domain with several dots, `a@b.c.d`, passes |
| EmailFormat.MissingDotExample | src/app/api/auth/register/route.ts:19-25 | A domain without a dot is refused |
| EmailFormat.DoubleAtExample | src/app/api/auth/register/route.ts:19-25 | A second `@` is refused |
| EmailFormat.SpaceExample | src/app/api/auth/register/route.ts:19-25 | A space in the address is refused |
| EmailFormat.DotAfterAtExample | src/app/api/auth/register/route.ts:19-25 | A dot right after the `@` does not count as the domain's dot |
| Users.SafeUserHidesPassword | src/lib/auth/users.ts:76-79 | The safe form of an account does not depend on its password |
| Users.ToSafeUser | src/lib/auth/users.ts:76-79 | `toSafeUser`: the account without its password; `SafeUserHidesPassword` shows nothing of the password survives |
| Users.FindByEmail | src/lib/auth/users.ts:27-34 | An account with exactly that email, or none exactly when no account has it |
| Users.FindByUsername | src/lib/auth/users.ts:36-43 | An account with exactly that username, or none exactly when no account has it |
| Registration.PlanRegistration | src/app/api/auth/register/route.ts:12-65 | Admitted exactly when all fields are present, the email is well-formed, the password has 6 or more characters, and neither email nor username is taken. Fields are kept and the role defaults to `user`. Refusals are 400 or 409 |
| Registration.EmailConflictFirst | src/app/api/auth/register/route.ts:37-53 | When both are taken, the email conflict is the one reported |
| Registration.AdmitKeepsAccountsUnique | src/app/api/auth/register/route.ts:37-65 | Admitting keeps emails and usernames unique among accounts |
| Registration.Create | src/lib/auth/user-model.ts:5-44 | `UserModel.create` stores a document exactly when the schema's validators accept it, and the stored account is that document |
| Registration.RouteDraftRejected | src/app/api/auth/register/route.ts:59-65 | The insert of every admitted registration fails: the document the route builds has no `id` |
| Registration.IntendedDraftAccepted | src/lib/auth/user-model.ts:7-34 | With an identifier and a hash supplied, the insert fails exactly on a role outside `admin`/`user` |
| Registration.NewAccount | src/app/api/auth/register/route.ts:59-65 | The corrected insert stores exactly this account. Its safe form carries the id, username, email, role and time, and not the password |
| Registration.UserDirectory.constructor | src/lib/auth/user-model.ts:5-44 | An empty account store |
| Registration.UserDirectory.Register | src/app/api/auth/register/route.ts:7-91 | As written: a refusal answers its status, and every admitted body answers 500 because the insert lacks the required `id`. Nothing is ever stored and no user is returned |
| Registration.UserDirectory.RegisterIntended | src/app/api/auth/register/route.ts:55-91 | With an identifier supplied: a refusal writes nothing; a draft the schema refuses (a role outside `admin`/`user`) answers 500 with no write; otherwise 201 with the safe form of the new account, which is appended |
| Login.LoginDecision | src/app/api/auth/login/route.ts:6-56 | 400 for missing fields or a malformed email. Signed in exactly when the email's account exists and the password checks. The user returned is the safe form of that account. Every 401 has the same message |
| Login.UniformRefusal | src/app/api/auth/login/route.ts:28-45 | An unknown email and a wrong password get the identical answer |
| Login.FormatCheckedBeforeLookup | src/app/api/auth/login/route.ts:19-25 | A malformed email is refused whatever the store holds |
| InvitationRoutes.PlanInvitation | src/app/api/invitations/route.ts:7-39 | 401 without a caller, then 400 for a missing field. Otherwise sent exactly when `canManageTeam` as written admits the caller, and 403 when it does not. The role defaults to member, the inviter is the caller and the organization is copied from the body |
| InvitationRoutes.PlanInvitationIntended | src/app/api/invitations/route.ts:7-39 | The same checks with the corrected `canManageTeam`: sent exactly when the caller owns the team's organization or has a manager entry in the team |
| InvitationRoutes.InvitationOwnerOnly | src/app/api/invitations/route.ts:25-31 | As written, a complete body is sent exactly when the team exists and the caller owns its organization |
| InvitationRoutes.ManagerInvitationRefusedExample | src/app/api/invitations/route.ts:25-31 | In `ExampleSnapshot` the team's manager gets 403 as written and would be let through by the corrected check |
| InvitationRoutes.FieldsCheckedBeforePermission | src/app/api/invitations/route.ts:15-31 | A body missing a field is refused with 400 whatever is stored |
| InvitationRoutes.InviterIsCaller | src/app/api/invitations/route.ts:33-39 | The body cannot choose the inviter |
| InvitationRoutes.OrganizationNotChecked | src/app/api/invitations/route.ts:25-39 | Whether an invitation is sent does not depend on the organization in the body, which is copied as given |
| InvitationRoutes.PostInvitation | src/app/api/invitations/route.ts:7-56 | Follows `PlanInvitation` (the check as written). A refusal writes nothing. An invalid role is a 500 with no write. Otherwise 201, with exactly `NewInvitation` appended to the ledger |
| InvitationRoutes.ListInvitations | src/app/api/invitations/route.ts:59-96 | 401 without a caller. By email: that address's pending invitations. Else by team: every invitation of the team. Else 400. Each listed invitation has as many copies as stored and no other is listed; newest first, with `count` equal to the length |
| TeamRoutes.PlanTeam | src/app/api/teams/route.ts:44-76 | 401, then 400 for a missing field. Otherwise built exactly when the caller owns the organization. Fields are kept, permissions default to none and the creator is the caller |
| TeamRoutes.OnlyOwnerBuilds | src/app/api/teams/route.ts:62-68 | Only the owner of an existing organization, whose user document exists, gets past the checks |
| TeamRoutes.CreatorIsCaller | src/app/api/teams/route.ts:70-76 | The body cannot choose the creator |
| TeamRoutes.PostTeam | src/app/api/teams/route.ts:44-93 | A refusal writes nothing. A name or description that passes the falsy check but is whitespace only makes `create` throw: 500 and nothing written. Otherwise 201 and exactly `NewTeam` appended |
| TeamRoutes.ListTeams | src/app/api/teams/route.ts:7-41 | 401 without a caller. Otherwise the organization's teams, or the caller's teams, each with as many copies as stored and no other document; newest first, with `count` equal to the length |
| TeamRoutes.PagingIgnored | src/app/api/teams/route.ts:15-24 | `limit` and `skip` do not change the listing |
| Ordering.Insert | src/lib/services/team-service.ts:78 | Inserting into a newest-first list keeps it newest-first and adds exactly that element |
| Ordering.SortNewestFirst | src/lib/services/team-service.ts:78 | `.sort({ createdAt: -1 })`: a newest-first permutation of the input |
| Ordering.SortedMembers | src/lib/services/team-service.ts:78 | Sorting keeps exactly the documents it was given |
| Common.Filter | src/lib/utils/permissions.ts:28-30 | `filter`: an element is in the result exactly when it is in the input and passes, with no more copies than the input |
| Common.FilterAppend | src/lib/utils/permissions.ts:28-30 | `filter` keeps the order: the filter of a concatenation is the concatenation of the filters |
| Common.FilterCounts | src/lib/utils/permissions.ts:28-30 | Every passing element keeps exactly its number of copies, and no other element has any |
| Common.Trim | src/lib/models/team.ts:50-59 | The schema's `trim` setter (`String.prototype.trim`): empty exactly when every character is whitespace; otherwise neither end is whitespace, and the result is the input with only whitespace cut from its ends |
| Common.TrimIdempotent | src/lib/models/team.ts:50-59 | Trimming a trimmed string changes nothing |
| Common.FilterNone | src/hooks/use-nav.ts:65-81 | Filtering with a test no element passes leaves nothing |

## Left out

- Email delivery (`emailService.sendInvitationEmail`) is not modelled. Its outcome is the `Delivery` parameter, which changes nothing: the source logs and swallows every failure.
- The random token (`crypto.randomBytes`) is a parameter, required to be 64 hex characters and unused so far.
- Clocks are a `now` parameter in milliseconds. The seven days are a fixed 604800000 ms; calendar arithmetic across daylight-saving changes is not modelled.
- Password hashing and its comparison are the `hashed` parameter and the `verify` function. JWT signing and verification are the `verify` function of `Jwt.VerifyToken`.
- Authentication (`authenticate`) is represented by `caller: Option<Id>`, where `None` is its 401.
- The cookie's `JSON.parse` is the `parse` function of `Proxy.Middleware`.
- `ObjectId` casting and the `CastError` a malformed id raises are not modelled. Ids are strings compared for equality.
- Display fields that populate adds (names, emails) are not modelled. Organizations are reduced to their id and owner.
- The user and invitation schemas' `lowercase`/`trim` normalisation of emails and usernames is not modelled. Those values are stored as given. The team schema's `trim` of `name` and `description` is modelled.
- String length is counted in characters, not UTF-16 code units.
- Generic 500 responses for database or network exceptions are not modelled. Only the 500s caused by the schemas' validators are: a missing `id`, an invalid role, and a team name or description that is empty once trimmed.
- Every store update is one atomic step. Concurrent requests and interleavings are not modelled.
- Documents with equal `createdAt` may come back in any order. The model fixes one order. It proves newest-first order and the exact number of copies of each document, but not the relative order of ties.
- `getAll`, `count` and paging of the services are not modelled. The team listing reads `limit`/`skip` and ignores them (`TeamRoutes.PagingIgnored`).
- Registration.UserDirectory.Register: assumes the user schema of `src/lib/auth/user-model.ts` is the one registered under `User`. The schema of `src/lib/models/user.ts` is not part of this model; if it were registered first, the insert would succeed.
- Registration.UserDirectory.RegisterIntended: `id` stands for a fresh identifier. The unique index on `id` is not modelled.
- The register route's token generation after insertion is not modelled.
- The navigation filter takes its access context as a parameter. The hook's placeholder context and the plan and feature keys of items are not modelled.
- `Users.FindByEmail`: modelled as an exact string match, without the schema's lower-casing.
- `Teams.TeamRegistry.Update`: only the `trim` setters and `required` validators of `name` and `description` are modelled. Other validators are not.
- `InvitationRoutes.ListInvitations` and `TeamRoutes.ListTeams`: they return the stored documents, not the populated ones the source sends back.

## Findings

| source | as written | input that shows it | evidently intended | confidence | as-written member | corrected member |
|---|---|---|---|---|---|---|
| src/lib/utils/permissions.ts:28-30 | `hasPermission` filters the user's teams with `team.organizationId.toString() === organizationId`, but `getByUser` populates `organizationId`, so the left side is `"[object Object]"` | `ExampleSnapshot`: "lead" is in team "team" of "org", which lists "team:write"; `hasPermission("lead", "org", "team:write")` is false | compare the referenced organization's id | high, not executed | Permissions.HasPermissionAsWrittenNeverGrants | Permissions.HasPermissionMeaning |
| src/lib/utils/permissions.ts:143-145 | `hasRolePermission` uses the same filter, so a non-owner never satisfies any role | any non-owner with a manager entry in a team of the organization | the role loop over the user's teams in the organization | high, not executed | Permissions.HasRolePermissionAsWrittenOwnerOnly | Permissions.HasRolePermissionMeaning |
| src/lib/utils/permissions.ts:182-184 | `getUserOrgRole` uses the same filter, so every non-owner gets null | a non-owner member of a team of the organization | manager or member from the user's teams | high, not executed | Permissions.GetUserOrgRoleAsWrittenOwnerOnly | Permissions.GetUserOrgRoleMeaning |
| src/lib/utils/permissions.ts:89 | `getUserTeamRole` compares `m.userId.toString()` after `getById` populated `members.userId`, so no member is ever found and `canManageTeam` admits only the organization's owner; the invitation route therefore answers 403 to a team manager | `ExampleSnapshot`: "lead" is the manager of "team"; `canManageTeam("lead", "team")` is false, and POST `/api/invitations` by "lead" for "team" is refused with 403 | compare the referenced user's id | high, not executed | Permissions.ManagerRefusedExample | Permissions.CanManageTeamMeaning |
| src/app/api/auth/register/route.ts:59-65 | the route creates the account without `id`, which the user schema (`src/lib/auth/user-model.ts:7-11`) requires and does not default, so the insert throws and the handler answers 500 | any admitted body, e.g. username "ann", email "ann@example.com", password "secret1" against an empty store | store the account with a generated identifier and answer 201 | medium, not executed (depends on which `User` schema is registered first) | Registration.RouteDraftRejected | Registration.UserDirectory.RegisterIntended |
