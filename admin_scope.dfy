/**
 * The tenant scoping every admin class of the panel repeats: `get_queryset` shows a
 * non-superuser only the rows of the request's tenant, and `save_model` stamps a new
 * object with the request's tenant.
 */
module AdminScope {
  import opened Wrappers
  import opened Seqs
  import opened TenantModels
  import opened Requests

  /**
   * What a `get_queryset` keeps: the whole table, or the rows of one tenant. `OnlyTenant(None)`
   * is `filter(tenant=None)`, which matches no row because every tenant column is NOT NULL.
   */
  datatype Scope = Everything | OnlyTenant(tenant: Option<nat>)

  /** The id a `tenant=` lookup compares with. */
  function TenantIdOf(t: Option<Tenant>): (r: Option<nat>)
    ensures r.Some? <==> t.Some?
    ensures r.Some? ==> r.value == t.value.id
  {
    if t.Some? then Some(t.value.id) else None
  }

  /**
   * `if not request.user.is_superuser: if hasattr(request, 'tenant'): qs = qs.filter(...)`:
   * superusers and requests the middleware never saw are not restricted.
   */
  function ScopeOf(user: Visitor, attr: TenantAttr): (s: Scope)
    ensures s.Everything? <==> IsSuperuser(user) || attr.Unset?
    ensures s.OnlyTenant? ==> s.tenant == TenantIdOf(attr.tenant)
  {
    if !IsSuperuser(user) then
      if attr.Resolved? then OnlyTenant(TenantIdOf(attr.tenant)) else Everything
    else Everything
  }

  /** A row owned by `owner` (`None` when the join finds no tenant) is listed under `s`. */
  predicate InScope(s: Scope, owner: Option<nat>)
  {
    s.Everything? || (s.tenant.Some? && owner == s.tenant)
  }

  function Keeps<T>(s: Scope, owner: T -> Option<nat>): T -> bool
  {
    (x: T) => InScope(s, owner(x))
  }

  /** `get_queryset` on a table whose rows reach their tenant through `owner`. */
  function Scoped<T(!new)>(rows: seq<T>, s: Scope, owner: T -> Option<nat>): (r: seq<T>)
    ensures Subseq(r, rows)
    ensures s.Everything? ==> r == rows
    ensures forall x :: x in r <==> x in rows && InScope(s, owner(x))
  {
    if s.Everything? then
      SubseqRefl(rows);
      rows
    else Filter(rows, Keeps(s, owner))
  }

  /** A row inserted at the end of the table shows up at the end of every list that may see it. */
  lemma ScopedAppend<T(!new)>(rows: seq<T>, x: T, s: Scope, owner: T -> Option<nat>)
    ensures Scoped(rows + [x], s, owner) == Scoped(rows, s, owner) + (if InScope(s, owner(x)) then [x] else [])
  {
    if s.OnlyTenant? {
      FilterAppend(rows, [x], Keeps(s, owner));
      assert Filter([x], Keeps(s, owner)) == if InScope(s, owner(x)) then [x] else [];
    }
  }

  /** A row placed at the head of the table shows up at the head of every list that may see it. */
  lemma ScopedPrepend<T(!new)>(x: T, rows: seq<T>, s: Scope, owner: T -> Option<nat>)
    ensures Scoped([x] + rows, s, owner) == (if InScope(s, owner(x)) then [x] else []) + Scoped(rows, s, owner)
  {
    if s.OnlyTenant? {
      FilterAppend([x], rows, Keeps(s, owner));
      assert Filter([x], Keeps(s, owner)) == if InScope(s, owner(x)) then [x] else [];
    }
  }

  /** The admins of two different tenants never see the same row. */
  lemma TenantScopesDisjoint<T(!new)>(rows: seq<T>, a: nat, b: nat, owner: T -> Option<nat>, x: T)
    requires a != b
    requires x in Scoped(rows, OnlyTenant(Some(a)), owner)
    ensures x !in Scoped(rows, OnlyTenant(Some(b)), owner)
  {
  }

  /**
   * The tenant `save_model` stores: on create, when the request has a `tenant` attribute, the
   * request's tenant (`None`: the NOT NULL column refuses the insert); otherwise the object's own,
   * as the form left it.
   */
  function SavedTenant(current: nat, change: bool, attr: TenantAttr): (r: Option<nat>)
    ensures r.None? <==> !change && attr == Resolved(None)
    ensures change || attr.Unset? ==> r == Some(current)
    ensures !change && attr.Resolved? ==> r == TenantIdOf(attr.tenant)
  {
    if !change && attr.Resolved? then TenantIdOf(attr.tenant) else Some(current)
  }

  /** Whatever an admin creates and manages to save is in that admin's own list. */
  lemma CreatedObjectInScope(user: Visitor, attr: TenantAttr, current: nat)
    requires SavedTenant(current, false, attr).Some?
    ensures InScope(ScopeOf(user, attr), SavedTenant(current, false, attr))
  {
  }
}
