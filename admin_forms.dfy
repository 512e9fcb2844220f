/**
 * `TenantAdminAuthenticationForm.confirm_login_allowed`: after the credentials check,
 * superusers pass; anyone else needs a membership in the tenant named by the first host
 * label. The tenant lookup does not filter on `is_active`.
 */
module AdminForms {
  import opened Wrappers
  import opened TenantModels
  import opened Hosts

  /** Returning normally, or raising `ValidationError(message, code=code)`. */
  datatype LoginCheck = Allowed | Denied(message: string, code: string)

  const TenantMissing: string := "Tenant no encontrado."
  const NoAccess: string := "No tienes acceso a este tenant."
  const InvalidLogin: string := "invalid_login"

  function ConfirmLoginAllowed(host: string, user: User, tenants: seq<Tenant>, memberships: seq<TenantUser>): (r: LoginCheck)
    ensures user.isSuperuser ==> r == Allowed
    ensures r.Denied? ==> r.code == InvalidLogin && (r.message == TenantMissing || r.message == NoAccess)
    ensures r == Denied(TenantMissing, InvalidLogin) <==> !user.isSuperuser && forall t :: t in tenants ==> t.subdomain != FirstLabel(host)
  {
    if user.isSuperuser then Allowed
    else
      var tenant := FindTenantBySubdomain(tenants, FirstLabel(host));
      if tenant.None? then Denied(TenantMissing, InvalidLogin)
      else if !HasMembership(memberships, user.id, tenant.value.id) then Denied(NoAccess, InvalidLogin)
      else Allowed
  }

  /**
   * For a non-superuser, under the unique subdomain column: allowed exactly when a tenant
   * with the subdomain exists and the user is its member; the membership error otherwise.
   */
  lemma ConfirmLoginAllowedExactly(host: string, user: User, tenants: seq<Tenant>, memberships: seq<TenantUser>, t: Tenant)
    requires UniqueSubdomains(tenants) && !user.isSuperuser
    requires t in tenants && t.subdomain == FirstLabel(host)
    ensures ConfirmLoginAllowed(host, user, tenants, memberships) ==
      if HasMembership(memberships, user.id, t.id) then Allowed else Denied(NoAccess, InvalidLogin)
  {
  }

  /** A superuser passes even on a subdomain no tenant has. */
  lemma SuperuserAllowedAnywhere(host: string, user: User, tenants: seq<Tenant>, memberships: seq<TenantUser>)
    requires user.isSuperuser
    requires forall t :: t in tenants ==> t.subdomain != FirstLabel(host)
    ensures ConfirmLoginAllowed(host, user, tenants, memberships) == Allowed
  {
  }
}
