/** The team registry of `src/lib/services/team-service.ts` over the team
    documents of `src/lib/models/team.ts`. Every update is one atomic
    single-document operation of the store (`$push`, `$pull`, `$inc`,
    positional `$set`, `$addToSet`); a `Team` object stands for one stored
    document and its methods for those operators, and `TeamRegistry` stands
    for the collection. */
module Teams {
  import opened Common
  import opened Ordering

  /** `VALID_TEAM_ROLES`: the only roles a team member may hold. */
  const ValidTeamRoles: seq<string> := ["member", "manager"]

  /** The message of the `Error` thrown for any other role. */
  const InvalidRoleMessage: string := "Invalid role. Must be one of: member, manager"

  /** The message of the validation error of a create or an update that
      leaves a required string field empty once trimmed. */
  const RequiredFieldMessage: string := "Validation failed: a required field is empty"

  predicate IsTeamRole(role: string)
  {
    role in ValidTeamRoles
  }

  /** One embedded entry of a team's `members` list. */
  datatype Member = Member(userId: Id, role: string, addedAt: int, addedBy: Id)

  /** A stored team document. `membersCount` is a separate counter that the
      store never recomputes from `members`. */
  datatype TeamDoc = TeamDoc(
    id: Id,
    name: string,
    description: string,
    organizationId: Id,
    permissions: seq<string>,
    members: seq<Member>,
    membersCount: int,
    createdBy: Id,
    createdAt: int)

  /** The `Partial<{ name, description, permissions }>` given to `update`. */
  datatype TeamPatch = TeamPatch(name: Option<string>, description: Option<string>, permissions: Option<seq<string>>)

  function CreatedAt(d: TeamDoc): int
  {
    d.createdAt
  }

  // ---------------------------------------------------------------------
  // The member list

  predicate HasMember(members: seq<Member>, userId: Id)
  {
    exists i :: 0 <= i < |members| && members[i].userId == userId
  }

  /** How many entries of `members` belong to `userId`. */
  function Occurrences(members: seq<Member>, userId: Id): nat
  {
    if members == [] then 0
    else (if members[0].userId == userId then 1 else 0) + Occurrences(members[1..], userId)
  }

  /** The counter agrees with the list. */
  predicate CountConsistent(d: TeamDoc)
  {
    d.membersCount == |d.members|
  }

  /** A user has an entry exactly when they occur a positive number of times. */
  lemma {:induction false} OccurrencesPositive(members: seq<Member>, userId: Id)
    ensures Occurrences(members, userId) > 0 <==> HasMember(members, userId)
  {
    if members != [] {
      OccurrencesPositive(members[1..], userId);
      if HasMember(members[1..], userId) {
        var i :| 0 <= i < |members[1..]| && members[1..][i].userId == userId;
        assert members[i + 1].userId == userId;
      }
      if members[0].userId != userId && HasMember(members, userId) {
        var i :| 0 <= i < |members| && members[i].userId == userId;
        assert members[1..][i - 1].userId == userId;
      }
    }
  }

  /** Occurrences of a user in a concatenation add up. */
  lemma {:induction false} OccurrencesAppend(a: seq<Member>, b: seq<Member>, userId: Id)
    ensures Occurrences(a + b, userId) == Occurrences(a, userId) + Occurrences(b, userId)
  {
    if a == [] {
      assert a + b == b;
    } else {
      assert (a + b)[1..] == a[1..] + b;
      OccurrencesAppend(a[1..], b, userId);
    }
  }

  /** The position of the first entry of `userId`: the element a positional
      `members.$` update addresses. */
  function FirstIndex(members: seq<Member>, userId: Id): (r: Option<nat>)
    ensures r.None? <==> !HasMember(members, userId)
    ensures r.Some? ==> r.value < |members| && members[r.value].userId == userId
    ensures r.Some? ==> forall j :: 0 <= j < r.value ==> members[j].userId != userId
  {
    if members == [] then None
    else if members[0].userId == userId then Some(0)
    else
      match FirstIndex(members[1..], userId)
      case None =>
        assert forall i :: 1 <= i < |members| ==> members[i] == members[1..][i - 1];
        None
      case Some(k) => Some(k + 1)
  }

  /** `$pull: { members: { userId } }`: every entry of `userId` removed, the
      others kept in order. */
  function WithoutUser(members: seq<Member>, userId: Id): (r: seq<Member>)
    ensures |r| == |members| - Occurrences(members, userId)
    ensures !HasMember(r, userId)
    ensures forall i :: 0 <= i < |r| ==> r[i] in members
    ensures forall i :: 0 <= i < |members| && members[i].userId != userId ==> members[i] in r
  {
    if members == [] then []
    else
      var rest := WithoutUser(members[1..], userId);
      if members[0].userId == userId then rest else [members[0]] + rest
  }

  // ---------------------------------------------------------------------
  // The effect of each service operation on one document

  /** The schema's validators on `create`: `name` and `description` are
      required, and the `trim` setter runs first, so neither may be empty
      or whitespace only. */
  predicate CreateValid(name: string, description: string)
  {
    Trim(name) != "" && Trim(description) != ""
  }

  /** A stored name or description: non-empty and already trimmed. */
  predicate Normalised(field: string)
  {
    field != "" && Trim(field) == field
  }

  /** The document `create` stores: `name` and `description` trimmed, no
      members and a zero counter; `permissions` defaults to the empty list. */
  function NewTeam(id: Id, name: string, description: string, organizationId: Id,
                   permissions: Option<seq<string>>, createdBy: Id, now: int): (d: TeamDoc)
    ensures d.name == Trim(name) && d.description == Trim(description)
    ensures CreateValid(name, description) ==> Normalised(d.name) && Normalised(d.description)
    ensures d.members == [] && d.membersCount == 0 && CountConsistent(d)
    ensures d.permissions == if permissions.Some? then permissions.value else []
    ensures d.id == id && d.organizationId == organizationId && d.createdBy == createdBy && d.createdAt == now
  {
    TrimIdempotent(name);
    TrimIdempotent(description);
    TeamDoc(id, Trim(name), Trim(description), organizationId,
            if permissions.Some? then permissions.value else [],
            [], 0, createdBy, now)
  }

  /** The route only rejects falsy fields: a name of spaces is refused by
      the schema, and a padded name is stored without its padding. */
  lemma TrimOnCreateExamples(id: Id, organizationId: Id, createdBy: Id, now: int)
    ensures !CreateValid("   ", "Platform team")
    ensures NewTeam(id, " A ", "Platform team", organizationId, None, createdBy, now).name == "A"
  {
    assert Trim("   ") == [];
    assert LeadingSpaces(" A ") == 1;
    assert TrailingSpaces(" A ") == 1 by {
      assert TrailingSpaces(" A "[..2]) == 0;
    }
    assert " A "[1..2] == "A";
  }

  /** `addMember`'s `$push` and `$inc: 1`. No check for an existing entry. */
  function MemberAdded(d: TeamDoc, m: Member): (r: TeamDoc)
    ensures |r.members| == |d.members| + 1 && r.members[|d.members|] == m
    ensures r.members[..|d.members|] == d.members
    ensures r.membersCount == d.membersCount + 1
    ensures r == d.(members := r.members, membersCount := r.membersCount)
    ensures CountConsistent(d) ==> CountConsistent(r)
  {
    d.(members := d.members + [m], membersCount := d.membersCount + 1)
  }

  /** `removeMember`'s `$pull` of every entry of `userId` and `$inc: -1`. */
  function MemberRemoved(d: TeamDoc, userId: Id): (r: TeamDoc)
    ensures !HasMember(r.members, userId)
    ensures |r.members| == |d.members| - Occurrences(d.members, userId)
    ensures r.membersCount == d.membersCount - 1
    ensures r == d.(members := r.members, membersCount := r.membersCount)
  {
    d.(members := WithoutUser(d.members, userId), membersCount := d.membersCount - 1)
  }

  /** `updateMemberRole`'s `$set: { 'members.$.role': role }`: the role of
      the first entry of `userId`, and nothing else. */
  function RoleUpdated(d: TeamDoc, userId: Id, role: string): (r: TeamDoc)
    requires HasMember(d.members, userId)
    ensures |r.members| == |d.members|
    ensures r == d.(members := r.members)
    ensures forall i :: 0 <= i < |d.members| && i != FirstIndex(d.members, userId).value ==> r.members[i] == d.members[i]
    ensures var k := FirstIndex(d.members, userId).value; r.members[k] == d.members[k].(role := role)
  {
    var k := FirstIndex(d.members, userId).value;
    d.(members := d.members[k := d.members[k].(role := role)])
  }

  /** `$addToSet: { permissions: p }`. */
  function PermissionAdded(d: TeamDoc, p: string): (r: TeamDoc)
    ensures p in r.permissions
    ensures forall q :: q in r.permissions <==> q in d.permissions || q == p
    ensures p in d.permissions ==> r == d
    ensures r == d.(permissions := r.permissions)
  {
    if p in d.permissions then d else d.(permissions := d.permissions + [p])
  }

  /** `$pull: { permissions: p }`: every occurrence removed. */
  function PermissionRemoved(d: TeamDoc, p: string): (r: TeamDoc)
    ensures forall q :: q in r.permissions <==> q in d.permissions && q != p
    ensures forall q :: q != p ==> multiset(r.permissions)[q] == multiset(d.permissions)[q]
    ensures multiset(r.permissions)[p] == 0
    ensures r == d.(permissions := r.permissions)
  {
    var keep := (q: string) => q != p;
    FilterCountsAll(d.permissions, keep);
    d.(permissions := Filter(d.permissions, keep))
  }

  /** The update validators (`runValidators: true`) after the `trim`
      setter, which `$set` also runs: `name` and `description` are required
      strings, so neither may be set to "" or to whitespace only. */
  predicate PatchValid(patch: TeamPatch)
  {
    (patch.name.Some? ==> Trim(patch.name.value) != "")
    && (patch.description.Some? ==> Trim(patch.description.value) != "")
  }

  /** `update`'s `$set: data`: exactly the supplied fields, the strings
      trimmed. A valid patch of a document whose strings are normalised
      leaves them normalised. */
  function Patched(d: TeamDoc, patch: TeamPatch): (r: TeamDoc)
    ensures r.name == (if patch.name.Some? then Trim(patch.name.value) else d.name)
    ensures r.description == (if patch.description.Some? then Trim(patch.description.value) else d.description)
    ensures PatchValid(patch) && Normalised(d.name) && Normalised(d.description) ==>
              Normalised(r.name) && Normalised(r.description)
    ensures r.permissions == (if patch.permissions.Some? then patch.permissions.value else d.permissions)
    ensures r.members == d.members && r.membersCount == d.membersCount
    ensures r == d.(name := r.name, description := r.description, permissions := r.permissions)
  {
    TrimIdempotent(if patch.name.Some? then patch.name.value else "");
    TrimIdempotent(if patch.description.Some? then patch.description.value else "");
    d.(name := if patch.name.Some? then Trim(patch.name.value) else d.name,
       description := if patch.description.Some? then Trim(patch.description.value) else d.description,
       permissions := if patch.permissions.Some? then patch.permissions.value else d.permissions)
  }

  // ---------------------------------------------------------------------
  // Queries over the collection

  predicate UniqueIds(ds: seq<TeamDoc>)
  {
    forall i, j :: 0 <= i < j < |ds| ==> ds[i].id != ds[j].id
  }

  /** The position of the document with id `id` (`findById`). */
  function TeamIndex(ds: seq<TeamDoc>, id: Id): (r: Option<nat>)
    ensures r.Some? ==> r.value < |ds| && ds[r.value].id == id
    ensures r.None? ==> forall i :: 0 <= i < |ds| ==> ds[i].id != id
  {
    if ds == [] then None
    else if ds[0].id == id then Some(0)
    else
      match TeamIndex(ds[1..], id)
      case None =>
        assert forall i :: 1 <= i < |ds| ==> ds[i] == ds[1..][i - 1];
        None
      case Some(k) => Some(k + 1)
  }

  /** `isMember`: some team with that id has an entry for `userId`. */
  function IsMember(ds: seq<TeamDoc>, teamId: Id, userId: Id): (b: bool)
    ensures b <==> exists i :: 0 <= i < |ds| && ds[i].id == teamId && HasMember(ds[i].members, userId)
  {
    if ds == [] then false
    else if ds[0].id == teamId && FirstIndex(ds[0].members, userId).Some? then true
    else
      var b := IsMember(ds[1..], teamId, userId);
      assert forall i :: 1 <= i < |ds| ==> ds[i] == ds[1..][i - 1];
      b
  }

  /** `getByOrganization`: the organization's teams, newest first. */
  function ByOrganization(ds: seq<TeamDoc>, organizationId: Id): (r: seq<TeamDoc>)
    ensures NewestFirst(r, CreatedAt)
    ensures forall d :: d in r <==> d in ds && d.organizationId == organizationId
    ensures forall d :: multiset(r)[d] == if d.organizationId == organizationId then multiset(ds)[d] else 0
  {
    var keep := (d: TeamDoc) => d.organizationId == organizationId;
    FilterCountsAll(ds, keep);
    var matching := Filter(ds, keep);
    var r := SortNewestFirst(matching, CreatedAt);
    forall d ensures d in r <==> d in ds && d.organizationId == organizationId {
      SortedMembers(matching, CreatedAt, d);
      if d in ds && d.organizationId == organizationId {
        var i :| 0 <= i < |ds| && ds[i] == d;
      }
      if d in matching {
        var i :| 0 <= i < |matching| && matching[i] == d;
      }
    }
    r
  }

  /** `getByUser`: the teams with an entry for `userId`, newest first. */
  function ByUser(ds: seq<TeamDoc>, userId: Id): (r: seq<TeamDoc>)
    ensures NewestFirst(r, CreatedAt)
    ensures forall d :: d in r <==> d in ds && HasMember(d.members, userId)
    ensures forall d :: multiset(r)[d] == if HasMember(d.members, userId) then multiset(ds)[d] else 0
  {
    var keep := (d: TeamDoc) => FirstIndex(d.members, userId).Some?;
    FilterCountsAll(ds, keep);
    var matching := Filter(ds, keep);
    var r := SortNewestFirst(matching, CreatedAt);
    forall d ensures d in r <==> d in ds && HasMember(d.members, userId) {
      SortedMembers(matching, CreatedAt, d);
      if d in ds && HasMember(d.members, userId) {
        var i :| 0 <= i < |ds| && ds[i] == d;
      }
      if d in matching {
        var i :| 0 <= i < |matching| && matching[i] == d;
      }
    }
    r
  }

  // ---------------------------------------------------------------------
  // Properties of the member operations

  /** `addMember` appends even when the user already has an entry: the user's
      entries grow by exactly one. */
  lemma AddMemberNeverDeduplicates(d: TeamDoc, m: Member)
    ensures Occurrences(MemberAdded(d, m).members, m.userId) == Occurrences(d.members, m.userId) + 1
  {
    OccurrencesAppend(d.members, [m], m.userId);
    assert Occurrences([m], m.userId) == 1 by {
      assert [m][1..] == [];
    }
  }

  /** `removeMember` keeps the counter equal to the list length exactly when
      the user had exactly one entry. */
  lemma RemoveMemberCountIffSingleEntry(d: TeamDoc, userId: Id)
    requires CountConsistent(d)
    ensures CountConsistent(MemberRemoved(d, userId)) <==> Occurrences(d.members, userId) == 1
  {
  }

  /** Removing a user who has no entry still decrements the counter. */
  lemma RemoveAbsentMemberDrifts(d: TeamDoc, userId: Id)
    requires CountConsistent(d) && !HasMember(d.members, userId)
    ensures MemberRemoved(d, userId).members == d.members
    ensures MemberRemoved(d, userId).membersCount == |d.members| - 1
  {
    OccurrencesPositive(d.members, userId);
    var r := WithoutUser(d.members, userId);
    assert |r| == |d.members|;
    RemovingNothing(d.members, userId);
  }

  lemma {:induction false} RemovingNothing(members: seq<Member>, userId: Id)
    requires !HasMember(members, userId)
    ensures WithoutUser(members, userId) == members
  {
    if members != [] {
      var t := members[1..];
      assert !HasMember(t, userId) by {
        forall i | 0 <= i < |t| ensures t[i].userId != userId {
          assert t[i] == members[i + 1];
        }
      }
      RemovingNothing(t, userId);
      assert members[0].userId != userId;
      assert WithoutUser(members, userId) == [members[0]] + t;
      assert [members[0]] + t == members;
    }
  }

  /** Adding the same user twice and removing them once leaves the counter at
      one more than the list length: the counter does not always track the
      list. */
  lemma DuplicateAddThenRemoveDrifts(d: TeamDoc, m: Member)
    requires d.members == [] && d.membersCount == 0
    ensures var r := MemberRemoved(MemberAdded(MemberAdded(d, m), m), m.userId);
            r.members == [] && r.membersCount == 1
  {
    var twice := MemberAdded(MemberAdded(d, m), m);
    assert twice.members == [m, m];
    assert twice.members[1..] == [m];
    assert [m][1..] == [];
  }

  /** Adding a permission twice is the same as adding it once, and a list
      without duplicates keeps none. */
  lemma AddPermissionIdempotent(d: TeamDoc, p: string)
    ensures PermissionAdded(PermissionAdded(d, p), p) == PermissionAdded(d, p)
    ensures NoDuplicates(d.permissions) ==> NoDuplicates(PermissionAdded(d, p).permissions)
  {
    if p !in d.permissions {
      var ps := d.permissions + [p];
      if NoDuplicates(d.permissions) {
        forall i, j | 0 <= i < j < |ps| ensures ps[i] != ps[j] {
          if j == |ps| - 1 {
            assert ps[i] in d.permissions;
          }
        }
      }
    }
  }

  predicate NoDuplicates(s: seq<string>)
  {
    forall i, j :: 0 <= i < j < |s| ==> s[i] != s[j]
  }

  /** Removing a permission removes every copy; removing again changes nothing. */
  lemma RemovePermissionAll(d: TeamDoc, p: string)
    ensures p !in PermissionRemoved(d, p).permissions
    ensures PermissionRemoved(PermissionRemoved(d, p), p).permissions == PermissionRemoved(d, p).permissions
  {
    var once := PermissionRemoved(d, p).permissions;
    FilterKeepsAll(once, p);
  }

  lemma {:induction false} FilterKeepsAll(s: seq<string>, p: string)
    requires p !in s
    ensures Filter(s, q => q != p) == s
  {
    if s != [] {
      FilterKeepsAll(s[1..], p);
      assert s == [s[0]] + s[1..];
    }
  }

  // ---------------------------------------------------------------------
  // The stored documents

  /** One stored team document. */
  class Team {
    const id: Id
    var name: string
    var description: string
    const organizationId: Id
    var permissions: seq<string>
    var members: seq<Member>
    var membersCount: int
    const createdBy: Id
    const createdAt: int

    function Doc(): TeamDoc
      reads this
    {
      TeamDoc(id, name, description, organizationId, permissions, members, membersCount, createdBy, createdAt)
    }

    constructor (id: Id, name: string, description: string, organizationId: Id,
                 permissions: Option<seq<string>>, createdBy: Id, now: int)
      ensures this.id == id
      ensures Doc() == NewTeam(id, name, description, organizationId, permissions, createdBy, now)
    {
      this.id := id;
      this.name := Trim(name);
      this.description := Trim(description);
      this.organizationId := organizationId;
      this.permissions := if permissions.Some? then permissions.value else [];
      this.members := [];
      this.membersCount := 0;
      this.createdBy := createdBy;
      this.createdAt := now;
    }

    method PushMember(m: Member)
      modifies this
      ensures Doc() == MemberAdded(old(Doc()), m)
    {
      members := members + [m];
      membersCount := membersCount + 1;
    }

    method PullMember(userId: Id)
      modifies this
      ensures Doc() == MemberRemoved(old(Doc()), userId)
    {
      members := WithoutUser(members, userId);
      membersCount := membersCount - 1;
    }

    method SetMemberRole(userId: Id, role: string)
      requires HasMember(members, userId)
      modifies this
      ensures Doc() == RoleUpdated(old(Doc()), userId, role)
    {
      var k := FirstIndex(members, userId).value;
      members := members[k := members[k].(role := role)];
    }

    method AddToSetPermission(p: string)
      modifies this
      ensures Doc() == PermissionAdded(old(Doc()), p)
    {
      if p !in permissions {
        permissions := permissions + [p];
      }
    }

    method PullPermission(p: string)
      modifies this
      ensures Doc() == PermissionRemoved(old(Doc()), p)
    {
      permissions := Filter(permissions, q => q != p);
    }

    method SetFields(patch: TeamPatch)
      modifies this
      ensures Doc() == Patched(old(Doc()), patch)
    {
      if patch.name.Some? { name := Trim(patch.name.value); }
      if patch.description.Some? { description := Trim(patch.description.value); }
      if patch.permissions.Some? { permissions := patch.permissions.value; }
    }
  }

  function DocsOf(ts: seq<Team>): (ds: seq<TeamDoc>)
    reads set t | t in ts
    ensures |ds| == |ts|
    ensures forall i :: 0 <= i < |ts| ==> ds[i] == ts[i].Doc()
  {
    if ts == [] then [] else [ts[0].Doc()] + DocsOf(ts[1..])
  }

  lemma DocsOfAppend(ts: seq<Team>, t: Team)
    ensures DocsOf(ts + [t]) == DocsOf(ts) + [t.Doc()]
  {
    assert forall i :: 0 <= i < |ts| ==> (ts + [t])[i] == ts[i];
  }

  /** No two of the objects share a document id. */
  ghost predicate DistinctIds(ts: seq<Team>)
  {
    forall i, j :: 0 <= i < j < |ts| ==> ts[i].id != ts[j].id
  }

  lemma DistinctIdsAppend(ts: seq<Team>, t: Team)
    requires DistinctIds(ts)
    requires forall i :: 0 <= i < |ts| ==> ts[i].id != t.id
    ensures DistinctIds(ts + [t])
  {
  }

  lemma DistinctIdsRemove(ts: seq<Team>, k: nat)
    requires DistinctIds(ts) && k < |ts|
    ensures DistinctIds(ts[..k] + ts[k + 1..])
  {
    var rest := ts[..k] + ts[k + 1..];
    assert forall i :: 0 <= i < |rest| ==> rest[i] == if i < k then ts[i] else ts[i + 1];
  }

  lemma DocsOfRemove(ts: seq<Team>, k: nat)
    requires k < |ts|
    ensures DocsOf(ts[..k] + ts[k + 1..]) == DocsOf(ts)[..k] + DocsOf(ts)[k + 1..]
  {
    var rest := ts[..k] + ts[k + 1..];
    var ds := DocsOf(ts);
    var a := DocsOf(rest);
    var b := ds[..k] + ds[k + 1..];
    forall i | 0 <= i < |a|
      ensures a[i] == b[i]
    {
      if i < k {
        assert rest[i] == ts[i] && b[i] == ds[i];
      } else {
        assert rest[i] == ts[i + 1] && b[i] == ds[i + 1];
      }
    }
  }

  /** The team collection. */
  class TeamRegistry {
    var teams: seq<Team>

    /** Document ids are unique, so no object appears twice. */
    ghost predicate Valid()
      reads this
    {
      DistinctIds(teams)
    }

    /** The stored documents, in insertion order. */
    function Docs(): (ds: seq<TeamDoc>)
      reads this, set t | t in teams
      ensures |ds| == |teams|
      ensures forall i :: 0 <= i < |teams| ==> ds[i] == teams[i].Doc()
      ensures Valid() ==> UniqueIds(ds)
    {
      DocsOf(teams)
    }

    constructor ()
      ensures Valid() && Docs() == []
    {
      teams := [];
    }

    /** `create`: a new empty team under a fresh id, or the validation
        error, with nothing stored, when a trimmed name or description is
        empty. */
    method Create(id: Id, name: string, description: string, organizationId: Id,
                  permissions: Option<seq<string>>, createdBy: Id, now: int) returns (r: Result<Team>)
      requires Valid()
      requires forall i :: 0 <= i < |teams| ==> teams[i].id != id
      modifies this
      ensures Valid()
      ensures !CreateValid(name, description) ==> r == Err(RequiredFieldMessage) && teams == old(teams)
      ensures CreateValid(name, description) ==>
                r.Ok? && fresh(r.value)
                && r.value.Doc() == NewTeam(id, name, description, organizationId, permissions, createdBy, now)
                && Docs() == old(Docs()) + [r.value.Doc()]
    {
      if !CreateValid(name, description) {
        return Err(RequiredFieldMessage);
      }
      var t := new Team(id, name, description, organizationId, permissions, createdBy, now);
      DistinctIdsAppend(teams, t);
      teams := teams + [t];
      Appended(t);
      r := Ok(t);
    }

    /** Appending an object leaves the stored documents before it as they
        were. */
    twostate lemma Appended(new t: Team)
      requires teams == old(teams) + [t]
      requires forall i :: 0 <= i < |old(teams)| ==> unchanged(old(teams)[i])
      ensures Docs() == old(Docs()) + [t.Doc()]
    {
      DocsOfAppend(old(teams), t);
      assert DocsOf(old(teams)) == old(DocsOf(teams));
    }

    /** Applies an already-checked update to the document at `k`: the
        other documents keep their state. */
    twostate lemma OthersUnchanged(k: nat)
      requires old(Valid()) && Valid() && teams == old(teams) && k < |teams|
      requires forall i :: 0 <= i < |teams| && i != k ==> teams[i].Doc() == old(teams[i].Doc())
      ensures Docs() == old(Docs())[k := teams[k].Doc()]
    {
    }

    /** `update`: the supplied fields of the team, if it exists. */
    method Update(id: Id, patch: TeamPatch) returns (r: Result<Option<TeamDoc>>)
      requires Valid()
      modifies set t | t in teams
      ensures Valid() && teams == old(teams)
      ensures !PatchValid(patch) ==> r == Err(RequiredFieldMessage) && Docs() == old(Docs())
      ensures PatchValid(patch) ==>
        match TeamIndex(old(Docs()), id)
        case None => r == Ok(None) && Docs() == old(Docs())
        case Some(k) =>
          var d := Patched(old(Docs())[k], patch);
          r == Ok(Some(d)) && Docs() == old(Docs())[k := d]
    {
      if !PatchValid(patch) {
        return Err(RequiredFieldMessage);
      }
      var found := TeamIndex(Docs(), id);
      if found.None? {
        return Ok(None);
      }
      var k := found.value;
      teams[k].SetFields(patch);
      OthersUnchanged(k);
      r := Ok(Some(teams[k].Doc()));
    }

    /** `addMember`: validates the role, then appends one entry and
        increments the counter. */
    method AddMember(teamId: Id, userId: Id, role: string, addedBy: Id, now: int)
      returns (r: Result<Option<TeamDoc>>)
      requires Valid()
      modifies set t | t in teams
      ensures Valid() && teams == old(teams)
      ensures !IsTeamRole(role) ==> r == Err(InvalidRoleMessage) && Docs() == old(Docs())
      ensures IsTeamRole(role) ==>
        match TeamIndex(old(Docs()), teamId)
        case None => r == Ok(None) && Docs() == old(Docs())
        case Some(k) =>
          var d := MemberAdded(old(Docs())[k], Member(userId, role, now, addedBy));
          r == Ok(Some(d)) && Docs() == old(Docs())[k := d]
    {
      if !IsTeamRole(role) {
        return Err(InvalidRoleMessage);
      }
      var found := TeamIndex(Docs(), teamId);
      if found.None? {
        return Ok(None);
      }
      var k := found.value;
      teams[k].PushMember(Member(userId, role, now, addedBy));
      OthersUnchanged(k);
      r := Ok(Some(teams[k].Doc()));
    }

    /** `removeMember`: pulls every entry of the user and decrements the
        counter by one. */
    method RemoveMember(teamId: Id, userId: Id) returns (r: Option<TeamDoc>)
      requires Valid()
      modifies set t | t in teams
      ensures Valid() && teams == old(teams)
      ensures match TeamIndex(old(Docs()), teamId)
        case None => r == None && Docs() == old(Docs())
        case Some(k) =>
          var d := MemberRemoved(old(Docs())[k], userId);
          r == Some(d) && Docs() == old(Docs())[k := d]
    {
      var found := TeamIndex(Docs(), teamId);
      if found.None? {
        return None;
      }
      var k := found.value;
      teams[k].PullMember(userId);
      OthersUnchanged(k);
      r := Some(teams[k].Doc());
    }

    /** `updateMemberRole`: validates the role; the store's filter matches
        only a team that has an entry for the user. */
    method UpdateMemberRole(teamId: Id, userId: Id, role: string) returns (r: Result<Option<TeamDoc>>)
      requires Valid()
      modifies set t | t in teams
      ensures Valid() && teams == old(teams)
      ensures !IsTeamRole(role) ==> r == Err(InvalidRoleMessage) && Docs() == old(Docs())
      ensures IsTeamRole(role) ==>
        match TeamIndex(old(Docs()), teamId)
        case None => r == Ok(None) && Docs() == old(Docs())
        case Some(k) =>
          if !HasMember(old(Docs())[k].members, userId) then
            r == Ok(None) && Docs() == old(Docs())
          else
            var d := RoleUpdated(old(Docs())[k], userId, role);
            r == Ok(Some(d)) && Docs() == old(Docs())[k := d]
    {
      if !IsTeamRole(role) {
        return Err(InvalidRoleMessage);
      }
      var found := TeamIndex(Docs(), teamId);
      if found.None? {
        return Ok(None);
      }
      var k := found.value;
      if FirstIndex(teams[k].members, userId).None? {
        return Ok(None);
      }
      teams[k].SetMemberRole(userId, role);
      OthersUnchanged(k);
      r := Ok(Some(teams[k].Doc()));
    }

    /** `addPermission`: set insertion. */
    method AddPermission(teamId: Id, p: string) returns (r: Option<TeamDoc>)
      requires Valid()
      modifies set t | t in teams
      ensures Valid() && teams == old(teams)
      ensures match TeamIndex(old(Docs()), teamId)
        case None => r == None && Docs() == old(Docs())
        case Some(k) =>
          var d := PermissionAdded(old(Docs())[k], p);
          r == Some(d) && Docs() == old(Docs())[k := d]
    {
      var found := TeamIndex(Docs(), teamId);
      if found.None? {
        return None;
      }
      var k := found.value;
      teams[k].AddToSetPermission(p);
      OthersUnchanged(k);
      r := Some(teams[k].Doc());
    }

    /** `removePermission`: removes every occurrence. */
    method RemovePermission(teamId: Id, p: string) returns (r: Option<TeamDoc>)
      requires Valid()
      modifies set t | t in teams
      ensures Valid() && teams == old(teams)
      ensures match TeamIndex(old(Docs()), teamId)
        case None => r == None && Docs() == old(Docs())
        case Some(k) =>
          var d := PermissionRemoved(old(Docs())[k], p);
          r == Some(d) && Docs() == old(Docs())[k := d]
    {
      var found := TeamIndex(Docs(), teamId);
      if found.None? {
        return None;
      }
      var k := found.value;
      teams[k].PullPermission(p);
      OthersUnchanged(k);
      r := Some(teams[k].Doc());
    }

    /** `delete`: true exactly when a team with that id existed. */
    method Delete(id: Id) returns (deleted: bool)
      requires Valid()
      modifies this
      ensures Valid()
      ensures deleted <==> TeamIndex(old(Docs()), id).Some?
      ensures match TeamIndex(old(Docs()), id)
        case None => Docs() == old(Docs())
        case Some(k) => Docs() == old(Docs())[..k] + old(Docs())[k + 1..]
    {
      var found := TeamIndex(Docs(), id);
      if found.None? {
        return false;
      }
      var k := found.value;
      DistinctIdsRemove(teams, k);
      DocsOfRemove(teams, k);
      teams := teams[..k] + teams[k + 1..];
      deleted := true;
    }
  }
}
