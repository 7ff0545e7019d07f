/** The navigation filter of `useFilteredNavItems`: it keeps the menu items
    the access context allows and, for every kept item, filters its direct
    children by the same rule. */
module Navigation {
  import opened Common

  /** The `access` requirements of an item. */
  datatype Access = Access(requireOrg: bool, permission: Option<string>, role: Option<string>)

  /** A menu item with optional access requirements and optional children. */
  datatype NavItem = NavItem(title: string, url: string, access: Option<Access>, items: Option<seq<NavItem>>)

  /** What the hook knows about the signed-in user. */
  datatype AccessContext = AccessContext(permissions: seq<string>, role: string, hasOrg: bool)

  /** The filter callback: an item without requirements is allowed; one
      with requirements needs the organization when it asks for one, the
      permission when it names one and the exact role when it names one. */
  predicate Allowed(ctx: AccessContext, item: NavItem)
  {
    match item.access
    case None => true
    case Some(a) =>
      !(a.requireOrg && !ctx.hasOrg)
      && (Present(a.permission) ==> a.permission.value in ctx.permissions)
      && (Present(a.role) ==> ctx.role == a.role.value)
  }

  /** The map callback: an item without children is returned as it is;
      otherwise its children are filtered (one level deep). */
  function WithChildrenFiltered(ctx: AccessContext, item: NavItem): NavItem
  {
    match item.items
    case None => item
    case Some(children) =>
      if |children| == 0 then item
      else item.(items := Some(Filter(children, (c: NavItem) => Allowed(ctx, c))))
  }

  /** `useFilteredNavItems`. */
  function FilterNav(ctx: AccessContext, items: seq<NavItem>): (r: seq<NavItem>)
    ensures |r| <= |items|
    ensures forall i :: 0 <= i < |r| ==> Allowed(ctx, r[i])
  {
    if items == [] then []
    else
      var rest := FilterNav(ctx, items[1..]);
      if Allowed(ctx, items[0]) then [WithChildrenFiltered(ctx, items[0])] + rest else rest
  }

  /** The positions, from `from` on, of the allowed items, in increasing order. */
  function KeptIndices(ctx: AccessContext, items: seq<NavItem>, from: nat): (idx: seq<nat>)
    requires from <= |items|
    ensures forall k :: 0 <= k < |idx| ==> from <= idx[k] < |items| && Allowed(ctx, items[idx[k]])
    ensures forall k, l :: 0 <= k < l < |idx| ==> idx[k] < idx[l]
    ensures forall j :: from <= j < |items| && Allowed(ctx, items[j]) ==> j in idx
    decreases |items| - from
  {
    if from == |items| then []
    else
      var rest := KeptIndices(ctx, items, from + 1);
      if Allowed(ctx, items[from]) then [from] + rest else rest
  }

  /** The items at the positions `idx`, each with its children filtered. */
  function Along(ctx: AccessContext, items: seq<NavItem>, idx: seq<nat>): seq<NavItem>
    requires forall k :: 0 <= k < |idx| ==> idx[k] < |items|
  {
    seq(|idx|, k requires 0 <= k < |idx| => WithChildrenFiltered(ctx, items[idx[k]]))
  }

  /** The result is the allowed items, in their original order, each with
      its children filtered: an order-preserving subsequence of the input
      (take `from` = 0 for the whole list). */
  lemma {:induction false} FilterNavInOrder(ctx: AccessContext, items: seq<NavItem>, from: nat)
    requires from <= |items|
    ensures FilterNav(ctx, items[from..]) == Along(ctx, items, KeptIndices(ctx, items, from))
    decreases |items| - from
  {
    if from < |items| {
      FilterNavInOrder(ctx, items, from + 1);
      assert items[from..][1..] == items[from + 1..];
      assert items[from..][0] == items[from];
      var rest := KeptIndices(ctx, items, from + 1);
      if Allowed(ctx, items[from]) {
        AlongCons(ctx, items, from, rest);
      }
    }
  }

  lemma AlongCons(ctx: AccessContext, items: seq<NavItem>, i: nat, rest: seq<nat>)
    requires i < |items| && forall k :: 0 <= k < |rest| ==> rest[k] < |items|
    ensures Along(ctx, items, [i] + rest) == [WithChildrenFiltered(ctx, items[i])] + Along(ctx, items, rest)
  {
    var a := Along(ctx, items, [i] + rest);
    var b := [WithChildrenFiltered(ctx, items[i])] + Along(ctx, items, rest);
    assert |a| == |b|;
    forall k | 0 <= k < |a| ensures a[k] == b[k] {
      if k > 0 {
        assert ([i] + rest)[k] == rest[k - 1];
      }
    }
  }

  /** An item without requirements is kept, with its children filtered. */
  lemma UnrestrictedKept(ctx: AccessContext, item: NavItem, others: seq<NavItem>)
    requires item.access.None?
    ensures FilterNav(ctx, [item] + others)[0] == WithChildrenFiltered(ctx, item)
  {
    assert ([item] + others)[1..] == others;
  }

  /** Each requirement, when unmet, drops the item. */
  lemma UnmetRequirementDrops(ctx: AccessContext, item: NavItem, a: Access)
    requires item.access == Some(a)
    requires (a.requireOrg && !ctx.hasOrg)
             || (Present(a.permission) && a.permission.value !in ctx.permissions)
             || (Present(a.role) && a.role.value != ctx.role)
    ensures FilterNav(ctx, [item]) == []
  {
  }

  /** A kept item without children comes back unchanged. */
  lemma ChildlessUnchanged(ctx: AccessContext, item: NavItem)
    requires Allowed(ctx, item)
    requires item.items.None? || item.items == Some([])
    ensures FilterNav(ctx, [item]) == [item]
  {
  }

  /** A kept parent stays even when every child is dropped; only its direct
      children are filtered. */
  lemma ParentOutlivesChildren(ctx: AccessContext, item: NavItem)
    requires Allowed(ctx, item)
    requires item.items.Some? && |item.items.value| > 0
    requires forall i :: 0 <= i < |item.items.value| ==> !Allowed(ctx, item.items.value[i])
    ensures FilterNav(ctx, [item]) == [item.(items := Some([]))]
  {
    FilterNone(item.items.value, (c: NavItem) => Allowed(ctx, c));
  }
}
