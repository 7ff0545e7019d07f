/** The invitation ledger of `src/lib/services/invitation-service.ts` over the
    documents of `src/lib/models/invitation.ts`. An invitation starts
    `Pending` and leaves that state at most once, to `Accepted`, `Rejected`
    or `Expired`; every write is a store update whose filter includes
    `status: 'pending'`, so it acts as a compare-and-set. Time is an integer
    number of milliseconds passed in as `now`. */
module Invitations {
  import opened Common
  import opened Ordering
  import Teams

  datatype Status = Pending | Accepted | Rejected | Expired

  /** A stored invitation. `id` is the document id, allocated by the store. */
  datatype Invitation = Invitation(
    id: nat,
    email: string,
    teamId: Id,
    organizationId: Id,
    role: string,
    invitedBy: Id,
    status: Status,
    token: string,
    expiresAt: int,
    createdAt: int)

  /** One day and the seven-day validity window, in milliseconds. */
  const Day: int := 24 * 60 * 60 * 1000
  const ExpiryWindow: int := 7 * Day

  /** What happened to the invitation e-mail: sent, not sent because the
      team, organization or inviter could not be read, or failed. */
  datatype Delivery = Sent | MissingData | SendFailed

  predicate IsHexDigit(c: char)
  {
    '0' <= c <= '9' || 'a' <= c <= 'f'
  }

  /** The text of `randomBytes(32).toString('hex')`: 64 lower-case hex digits. */
  predicate IsTokenText(t: string)
  {
    |t| == 64 && forall i :: 0 <= i < |t| ==> IsHexDigit(t[i])
  }

  function CreatedAt(inv: Invitation): int
  {
    inv.createdAt
  }

  /** The document `create` stores. */
  function NewInvitation(id: nat, email: string, teamId: Id, organizationId: Id, role: string,
                         invitedBy: Id, token: string, now: int): (inv: Invitation)
    ensures inv.status == Pending && inv.token == token
    ensures inv.createdAt == now && inv.expiresAt == now + ExpiryWindow
    ensures inv.email == email && inv.teamId == teamId && inv.organizationId == organizationId
    ensures inv.role == role && inv.invitedBy == invitedBy && inv.id == id
  {
    Invitation(id, email, teamId, organizationId, role, invitedBy, Pending, token, now + ExpiryWindow, now)
  }

  predicate UniqueTokens(s: seq<Invitation>)
  {
    forall i, j :: 0 <= i < j < |s| ==> s[i].token != s[j].token
  }

  // ---------------------------------------------------------------------
  // Read-only queries

  /** `getByToken`: the invitation with that token, whatever its status. */
  function FindByToken(s: seq<Invitation>, token: string): (r: Option<Invitation>)
    ensures r.Some? ==> r.value in s && r.value.token == token
    ensures r.None? <==> forall i :: 0 <= i < |s| ==> s[i].token != token
  {
    if s == [] then None
    else if s[0].token == token then Some(s[0])
    else
      var r := FindByToken(s[1..], token);
      assert forall i :: 1 <= i < |s| ==> s[i] == s[1..][i - 1];
      r
  }

  /** With unique tokens, the invitation `getByToken` finds is the one at the
      token's position. */
  lemma FindByTokenAt(s: seq<Invitation>, k: nat)
    requires UniqueTokens(s) && k < |s|
    ensures FindByToken(s, s[k].token) == Some(s[k])
  {
    var r := FindByToken(s, s[k].token);
    var j :| 0 <= j < |s| && s[j] == r.value;
    assert j == k;
  }

  /** `getByEmail`: the pending invitations for an address, newest first. */
  function ByEmail(s: seq<Invitation>, email: string): (r: seq<Invitation>)
    ensures NewestFirst(r, CreatedAt)
    ensures forall inv :: inv in r <==> inv in s && inv.email == email && inv.status == Pending
    ensures forall inv :: multiset(r)[inv] == if inv.email == email && inv.status == Pending then multiset(s)[inv] else 0
  {
    var keep := (inv: Invitation) => inv.email == email && inv.status == Pending;
    FilterCountsAll(s, keep);
    var matching := Filter(s, keep);
    var r := SortNewestFirst(matching, CreatedAt);
    forall inv ensures inv in r <==> inv in s && inv.email == email && inv.status == Pending {
      SortedMembers(matching, CreatedAt, inv);
      if inv in s {
        var i :| 0 <= i < |s| && s[i] == inv;
      }
      if inv in matching {
        var i :| 0 <= i < |matching| && matching[i] == inv;
      }
    }
    r
  }

  /** `getByTeam`: every invitation of a team, in any status, newest first. */
  function ByTeam(s: seq<Invitation>, teamId: Id): (r: seq<Invitation>)
    ensures NewestFirst(r, CreatedAt)
    ensures forall inv :: inv in r <==> inv in s && inv.teamId == teamId
    ensures forall inv :: multiset(r)[inv] == if inv.teamId == teamId then multiset(s)[inv] else 0
  {
    var keep := (inv: Invitation) => inv.teamId == teamId;
    FilterCountsAll(s, keep);
    var matching := Filter(s, keep);
    var r := SortNewestFirst(matching, CreatedAt);
    forall inv ensures inv in r <==> inv in s && inv.teamId == teamId {
      SortedMembers(matching, CreatedAt, inv);
      if inv in s {
        var i :| 0 <= i < |s| && s[i] == inv;
      }
      if inv in matching {
        var i :| 0 <= i < |matching| && matching[i] == inv;
      }
    }
    r
  }

  // ---------------------------------------------------------------------
  // Guarded transitions

  predicate HasPending(s: seq<Invitation>, token: string)
  {
    exists i :: 0 <= i < |s| && s[i].token == token && s[i].status == Pending
  }

  /** The document the filter `{ token, status: 'pending' }` matches first. */
  function PendingIndex(s: seq<Invitation>, token: string): (r: Option<nat>)
    ensures r.None? <==> !HasPending(s, token)
    ensures r.Some? ==> r.value < |s| && s[r.value].token == token && s[r.value].status == Pending
  {
    if s == [] then None
    else if s[0].token == token && s[0].status == Pending then Some(0)
    else
      match PendingIndex(s[1..], token)
      case None =>
        assert forall i :: 1 <= i < |s| ==> s[i] == s[1..][i - 1];
        None
      case Some(k) => Some(k + 1)
  }

  /** `accept` (target `Accepted`) and `reject` (target `Rejected`): the
      `findOneAndUpdate` on `{ token, status: 'pending' }`. It changes one
      pending invitation and returns it, or changes nothing and returns null.
      The expiry date is not consulted. */
  function CompareAndSet(s: seq<Invitation>, token: string, target: Status): (r: (seq<Invitation>, Option<Invitation>))
    ensures |r.0| == |s|
    ensures r.1.Some? <==> HasPending(s, token)
    ensures r.1.None? ==> r.0 == s
    ensures r.1.Some? ==> r.1.value.status == target && r.1.value.token == token && r.1.value in r.0
    ensures forall i :: 0 <= i < |s| ==>
              r.0[i] == s[i] || (s[i].status == Pending && s[i].token == token && r.0[i] == s[i].(status := target))
    ensures forall i :: 0 <= i < |s| && r.0[i] != s[i] ==> r.1 == Some(r.0[i]) && s[i].status == Pending
    ensures forall i :: 0 <= i < |s| ==> r.0[i].token == s[i].token && r.0[i].id == s[i].id
  {
    match PendingIndex(s, token)
    case None => (s, None)
    case Some(k) =>
      var inv := s[k].(status := target);
      assert s[k := inv][k] == inv;
      (s[k := inv], Some(inv))
  }

  /** `isValid`: false when no pending invitation has the token; a pending
      one past `expiresAt` is set to `Expired` (a lazy write) and gives false;
      otherwise true. */
  function CheckValid(s: seq<Invitation>, token: string, now: int): (r: (seq<Invitation>, bool))
    ensures |r.0| == |s|
    ensures r.1 <==> HasPending(s, token) && now <= s[PendingIndex(s, token).value].expiresAt
    ensures forall i :: 0 <= i < |s| ==>
              r.0[i] == (if Some(i) == PendingIndex(s, token) && now > s[i].expiresAt
                         then s[i].(status := Expired) else s[i])
    ensures forall i :: 0 <= i < |s| ==> r.0[i].token == s[i].token && r.0[i].id == s[i].id
  {
    match PendingIndex(s, token)
    case None => (s, false)
    case Some(k) =>
      if now > s[k].expiresAt then (s[k := s[k].(status := Expired)], false)
      else (s, true)
  }

  /** The condition of `expireOld`'s filter `{ status: 'pending', expiresAt: { $lt: now } }`. */
  predicate Expirable(inv: Invitation, now: int)
  {
    inv.status == Pending && inv.expiresAt < now
  }

  function ExpireIfDue(inv: Invitation, now: int): Invitation
  {
    if Expirable(inv, now) then inv.(status := Expired) else inv
  }

  /** `expireOld`'s `updateMany`: every expirable invitation moves to
      `Expired`; nothing else changes. */
  function Sweep(s: seq<Invitation>, now: int): (r: seq<Invitation>)
    ensures |r| == |s|
    ensures forall i :: 0 <= i < |s| ==> r[i] == ExpireIfDue(s[i], now)
  {
    if s == [] then []
    else [ExpireIfDue(s[0], now)] + Sweep(s[1..], now)
  }

  /** How many invitations `expireOld` modifies (`modifiedCount`). */
  function CountExpirable(s: seq<Invitation>, now: int): (n: nat)
    ensures n <= |s|
    ensures n == 0 <==> forall i :: 0 <= i < |s| ==> !Expirable(s[i], now)
  {
    if s == [] then 0
    else
      var rest := CountExpirable(s[1..], now);
      assert forall i :: 1 <= i < |s| ==> s[i] == s[1..][i - 1];
      (if Expirable(s[0], now) then 1 else 0) + rest
  }

  /** The number of positions at which two equally long ledgers differ. */
  function Differences(a: seq<Invitation>, b: seq<Invitation>): nat
    requires |a| == |b|
  {
    if a == [] then 0
    else (if a[0] != b[0] then 1 else 0) + Differences(a[1..], b[1..])
  }

  /** The position of the invitation with document id `id`. */
  function IdIndex(s: seq<Invitation>, id: nat): (r: Option<nat>)
    ensures r.Some? ==> r.value < |s| && s[r.value].id == id
    ensures r.None? ==> forall i :: 0 <= i < |s| ==> s[i].id != id
  {
    if s == [] then None
    else if s[0].id == id then Some(0)
    else
      match IdIndex(s[1..], id)
      case None =>
        assert forall i :: 1 <= i < |s| ==> s[i] == s[1..][i - 1];
        None
      case Some(k) => Some(k + 1)
  }

  // ---------------------------------------------------------------------
  // Properties of the lifecycle

  /** Once `accept` or `reject` has succeeded for a token, neither succeeds
      again for it, and the ledger stays as it is: accepted and rejected are
      terminal, and of two racing calls only the first wins. */
  lemma {:induction false} ResolvedIsTerminal(s: seq<Invitation>, token: string, first: Status, second: Status)
    requires UniqueTokens(s)
    requires first != Pending
    requires CompareAndSet(s, token, first).1.Some?
    ensures var after := CompareAndSet(s, token, first).0;
            CompareAndSet(after, token, second) == (after, None)
  {
    var after := CompareAndSet(s, token, first).0;
    var k := PendingIndex(s, token).value;
    forall i | 0 <= i < |after| ensures after[i].token != token || after[i].status != Pending {
      if i != k {
        assert s[i].token != s[k].token;
      }
    }
  }

  /** `accept` succeeds on a pending invitation whose expiry date has passed,
      unless `isValid` or `expireOld` ran first. */
  lemma AcceptIgnoresExpiry(s: seq<Invitation>, k: nat, now: int)
    requires UniqueTokens(s) && k < |s| && s[k].status == Pending && s[k].expiresAt < now
    ensures CompareAndSet(s, s[k].token, Accepted).1 == Some(s[k].(status := Accepted))
  {
    var r := PendingIndex(s, s[k].token).value;
    assert r == k;
  }

  /** Lazy expiry: `isValid` on a pending invitation past its expiry date
      returns false, and `getByToken` afterwards shows it `Expired`. */
  lemma LazyExpiry(s: seq<Invitation>, k: nat, now: int)
    requires UniqueTokens(s) && k < |s| && s[k].status == Pending && now > s[k].expiresAt
    ensures var (after, valid) := CheckValid(s, s[k].token, now);
            !valid && FindByToken(after, s[k].token) == Some(s[k].(status := Expired))
  {
    assert PendingIndex(s, s[k].token).value == k;
    var after := CheckValid(s, s[k].token, now).0;
    assert after == s[k := s[k].(status := Expired)];
    FindByTokenAt(after, k);
  }

  /** `expireOld` reports exactly the number of invitations it modified. */
  lemma {:induction false} SweepCountsChanges(s: seq<Invitation>, now: int)
    ensures Differences(s, Sweep(s, now)) == CountExpirable(s, now)
  {
    if s != [] {
      assert Sweep(s, now)[1..] == Sweep(s[1..], now);
      SweepCountsChanges(s[1..], now);
    }
  }

  /** A second `expireOld` at the same time finds nothing and changes nothing. */
  lemma {:induction false} SweepIdempotent(s: seq<Invitation>, now: int)
    ensures Sweep(Sweep(s, now), now) == Sweep(s, now)
    ensures CountExpirable(Sweep(s, now), now) == 0
  {
    if s != [] {
      SweepIdempotent(s[1..], now);
      assert Sweep(s, now)[1..] == Sweep(s[1..], now);
    }
  }

  /** After a sweep, `isValid` at the same time never needs its lazy write:
      the two expiry paths use the same condition. */
  lemma CheckAfterSweepWritesNothing(s: seq<Invitation>, token: string, now: int)
    ensures CheckValid(Sweep(s, now), token, now).0 == Sweep(s, now)
  {
  }

  // ---------------------------------------------------------------------
  // The stored collection

  class Ledger {
    var invitations: seq<Invitation>
    /** The next document id the store hands out. */
    var nextId: nat

    /** Tokens are unique (the schema's unique index) and document ids are
        allocated in increasing order. */
    ghost predicate Valid()
      reads this
    {
      && UniqueTokens(invitations)
      && (forall i :: 0 <= i < |invitations| ==> invitations[i].id < nextId)
      && (forall i, j :: 0 <= i < j < |invitations| ==> invitations[i].id < invitations[j].id)
    }

    constructor ()
      ensures Valid() && invitations == [] && nextId == 0
    {
      invitations := [];
      nextId := 0;
    }

    /** `create`: rejects a role outside `VALID_TEAM_ROLES` before storing
        anything; otherwise stores a pending invitation valid for seven
        days. `token` is the fresh output of the random source. The e-mail
        is best effort: whatever `delivery` is, the stored invitation is
        returned. */
    method Create(email: string, teamId: Id, organizationId: Id, role: string, invitedBy: Id,
                  token: string, now: int, delivery: Delivery) returns (r: Result<Invitation>)
      requires Valid()
      requires IsTokenText(token)
      requires forall i :: 0 <= i < |invitations| ==> invitations[i].token != token
      modifies this
      ensures Valid()
      ensures !Teams.IsTeamRole(role) ==>
                r == Err(Teams.InvalidRoleMessage) && invitations == old(invitations) && nextId == old(nextId)
      ensures Teams.IsTeamRole(role) ==>
                && r == Ok(NewInvitation(old(nextId), email, teamId, organizationId, role, invitedBy, token, now))
                && invitations == old(invitations) + [r.value]
                && |r.value.token| == 64
    {
      if !Teams.IsTeamRole(role) {
        return Err(Teams.InvalidRoleMessage);
      }
      var inv := NewInvitation(nextId, email, teamId, organizationId, role, invitedBy, token, now);
      invitations := invitations + [inv];
      nextId := nextId + 1;
      r := Ok(inv);
    }

    method Accept(token: string) returns (r: Option<Invitation>)
      requires Valid()
      modifies this
      ensures Valid() && nextId == old(nextId)
      ensures (invitations, r) == CompareAndSet(old(invitations), token, Accepted)
    {
      var (after, result) := CompareAndSet(invitations, token, Accepted);
      invitations, r := after, result;
    }

    method Reject(token: string) returns (r: Option<Invitation>)
      requires Valid()
      modifies this
      ensures Valid() && nextId == old(nextId)
      ensures (invitations, r) == CompareAndSet(old(invitations), token, Rejected)
    {
      var (after, result) := CompareAndSet(invitations, token, Rejected);
      invitations, r := after, result;
    }

    /** `delete`: true exactly when an invitation with that id existed. */
    method Delete(id: nat) returns (deleted: bool)
      requires Valid()
      modifies this
      ensures Valid() && nextId == old(nextId)
      ensures deleted <==> IdIndex(old(invitations), id).Some?
      ensures match IdIndex(old(invitations), id)
        case None => invitations == old(invitations)
        case Some(k) => invitations == old(invitations)[..k] + old(invitations)[k + 1..]
    {
      var found := IdIndex(invitations, id);
      if found.None? {
        return false;
      }
      var k := found.value;
      ghost var s := invitations;
      invitations := invitations[..k] + invitations[k + 1..];
      assert forall i :: 0 <= i < |invitations| ==> invitations[i] == (if i < k then s[i] else s[i + 1]);
      deleted := true;
    }

    method IsValid(token: string, now: int) returns (valid: bool)
      requires Valid()
      modifies this
      ensures Valid() && nextId == old(nextId)
      ensures (invitations, valid) == CheckValid(old(invitations), token, now)
    {
      var (after, result) := CheckValid(invitations, token, now);
      invitations, valid := after, result;
    }

    method ExpireOld(now: int) returns (count: nat)
      requires Valid()
      modifies this
      ensures Valid() && nextId == old(nextId)
      ensures invitations == Sweep(old(invitations), now)
      ensures count == CountExpirable(old(invitations), now)
    {
      count := CountExpirable(invitations, now);
      ghost var before := invitations;
      invitations := Sweep(invitations, now);
      assert forall i :: 0 <= i < |invitations| ==>
               invitations[i].id == before[i].id && invitations[i].token == before[i].token;
    }
  }
}
