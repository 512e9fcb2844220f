/**
 * `TenantBackend.authenticate`: a login succeeds only for a user who passes the password
 * check and has a membership in the tenant named by the request's first host label.
 * The tenant lookup does not filter on `is_active` and superusers get no exemption.
 */
module AuthBackend {
  import opened Wrappers
  import opened TenantModels
  import opened Hosts

  /**
   * `request` is the request's `Host` header, or `None` when the framework calls the
   * backend without a request; `checkPassword` stands for `User.check_password`.
   */
  function Authenticate(
    request: Option<string>, username: string, password: string,
    tenants: seq<Tenant>, users: seq<User>, memberships: seq<TenantUser>,
    checkPassword: (User, string) -> bool): (r: Option<User>)
    ensures request.None? ==> r.None?
    ensures r.Some? ==> r.value in users && r.value.username == username && checkPassword(r.value, password)
    ensures r.Some? ==> exists t :: t in tenants && t.subdomain == FirstLabel(request.value) && HasMembership(memberships, r.value.id, t.id)
  {
    if request.None? then None
    else
      var tenant := FindTenantBySubdomain(tenants, FirstLabel(request.value));
      if tenant.None? then None
      else
        var user := FindUserByUsername(users, username);
        if user.None? then None
        else if checkPassword(user.value, password) && HasMembership(memberships, user.value.id, tenant.value.id) then user
        else None
  }

  /**
   * Under the unique subdomain and username columns, the backend accepts exactly the user
   * with this username, when the password checks and a membership in the tenant exists.
   */
  lemma AuthenticateExactly(
    host: string, username: string, password: string,
    tenants: seq<Tenant>, users: seq<User>, memberships: seq<TenantUser>,
    checkPassword: (User, string) -> bool, t: Tenant, u: User)
    requires UniqueSubdomains(tenants) && UniqueUsernames(users)
    requires t in tenants && t.subdomain == FirstLabel(host)
    requires u in users && u.username == username
    ensures Authenticate(Some(host), username, password, tenants, users, memberships, checkPassword) ==
      if checkPassword(u, password) && HasMembership(memberships, u.id, t.id) then Some(u) else None
  {
  }

  /** No tenant with that subdomain, or no user with that username: no login. */
  lemma UnknownTenantOrUserRejected(
    host: string, username: string, password: string,
    tenants: seq<Tenant>, users: seq<User>, memberships: seq<TenantUser>,
    checkPassword: (User, string) -> bool)
    requires (forall t :: t in tenants ==> t.subdomain != FirstLabel(host)) || (forall u :: u in users ==> u.username != username)
    ensures Authenticate(Some(host), username, password, tenants, users, memberships, checkPassword).None?
  {
  }

  /** A superuser without a membership in the tenant is refused like anyone else. */
  lemma SuperuserNeedsMembership(
    host: string, password: string,
    tenants: seq<Tenant>, users: seq<User>, memberships: seq<TenantUser>,
    checkPassword: (User, string) -> bool, u: User)
    requires UniqueUsernames(users) && u in users && u.isSuperuser
    requires forall t :: t in tenants && t.subdomain == FirstLabel(host) ==> !HasMembership(memberships, u.id, t.id)
    ensures Authenticate(Some(host), u.username, password, tenants, users, memberships, checkPassword).None?
  {
  }

  /** A member of an inactive tenant is still authenticated. */
  lemma InactiveTenantMemberAccepted(
    host: string, password: string,
    tenants: seq<Tenant>, users: seq<User>, memberships: seq<TenantUser>,
    checkPassword: (User, string) -> bool, t: Tenant, u: User)
    requires UniqueSubdomains(tenants) && UniqueUsernames(users)
    requires t in tenants && !t.isActive && t.subdomain == FirstLabel(host)
    requires u in users && checkPassword(u, password) && HasMembership(memberships, u.id, t.id)
    ensures Authenticate(Some(host), u.username, password, tenants, users, memberships, checkPassword) == Some(u)
  {
    AuthenticateExactly(host, u.username, password, tenants, users, memberships, checkPassword, t, u);
  }
}
