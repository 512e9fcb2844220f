/**
 * `TenantAdminSite`: the admin panel admits an active, signed-in user of the tenant the
 * middleware attached (any superuser, or a member), and its login page explains a refusal.
 */
module CustomAdmin {
  import opened Wrappers
  import opened TenantModels
  import opened Requests
  import opened Database

  const PanelDenied: string := "No tienes permisos para acceder al panel de este tenant."

  /** `has_permission`: `getattr(request, 'tenant', None)` must be a tenant. */
  function HasPermission(user: Visitor, attr: TenantAttr, memberships: seq<TenantUser>): (r: bool)
    ensures r ==> IsActiveUser(user) && CurrentTenant(attr).Some?
    ensures IsActiveUser(user) && IsSuperuser(user) && CurrentTenant(attr).Some? ==> r
    ensures !IsSuperuser(user) ==>
      (r <==> IsActiveUser(user) && CurrentTenant(attr).Some? && HasMembership(memberships, user.account.id, CurrentTenant(attr).value.id))
  {
    var tenant := CurrentTenant(attr);
    if IsActiveUser(user) && IsAuthenticated(user) && tenant.Some? then
      if user.account.isSuperuser then true
      else HasMembership(memberships, user.account.id, tenant.value.id)
    else false
  }

  /** More memberships never take the panel away from anyone. */
  lemma PermissionMonotone(user: Visitor, attr: TenantAttr, memberships: seq<TenantUser>, m: TenantUser)
    requires HasPermission(user, attr, memberships)
    ensures HasPermission(user, attr, memberships + [m])
  {
    if !IsSuperuser(user) {
      var t := CurrentTenant(attr).value;
      var w :| w in memberships && w.user == user.account.id && w.tenant == t.id;
      assert w in memberships + [m];
    }
  }

  /** The condition under which `login` queues the refusal message. */
  predicate ShowsDenial(user: Visitor, attr: TenantAttr, memberships: seq<TenantUser>)
  {
    IsAuthenticated(user) && CurrentTenant(attr).Some? && !HasPermission(user, attr, memberships)
  }

  /**
   * The refusal is shown exactly to a signed-in user on a tenant's host who is inactive,
   * or who is neither a superuser nor a member of the tenant.
   */
  lemma ShowsDenialExactly(user: Visitor, attr: TenantAttr, memberships: seq<TenantUser>)
    ensures ShowsDenial(user, attr, memberships) <==>
      user.SignedIn? && CurrentTenant(attr).Some? &&
      (!user.account.isActive || (!user.account.isSuperuser && !HasMembership(memberships, user.account.id, CurrentTenant(attr).value.id)))
  {
  }

  /** `login`: queue the refusal message when it applies, then show the framework's login page. */
  method Login(store: Store, request: Request)
    modifies request
    ensures request.tenant == old(request.tenant)
    ensures request.messages == old(request.messages) +
      (if ShowsDenial(request.user, request.tenant, store.db.memberships) then [PanelDenied] else [])
  {
    var tenant := CurrentTenant(request.tenant);
    if IsAuthenticated(request.user) && tenant.Some? && !HasPermission(request.user, request.tenant, store.db.memberships) {
      request.messages := request.messages + [PanelDenied];
    }
  }
}
