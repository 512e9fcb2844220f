/**
 * The three checks a tenant's admin login passes through, set side by side: the
 * authentication backend, the login form and the site's permission test. The first two
 * parse the host themselves and look the tenant up without `is_active`; the third uses
 * the tenant the middleware attached.
 */
module Gates {
  import opened Wrappers
  import opened Text
  import opened TenantModels
  import opened Hosts
  import opened Requests
  import opened Middleware
  import opened AuthBackend
  import opened AdminForms
  import opened CustomAdmin

  /** On the development hosts the login checks read `localhost` or `127` as the subdomain. */
  lemma DevelopmentHostLabel(host: string, port: string)
    requires host in LocalHosts
    ensures FirstLabel(host + ":" + port) == if host == "localhost" then "localhost" else "127"
  {
    assert ':' !in host;
    HostNameWithPort(host, port);
    if host == "localhost" {
      assert '.' !in host;
      FirstFieldIsPrefix(host, '.');
    } else {
      FirstLabelOfDotted("127", "0.0.1");
      assert "127" + "." + "0.0.1" == host;
      HostNameWithPort(host, "");
      assert host + ":" + "" == host + ":";
      FirstFieldIsPrefix(host, '.');
      FirstFieldIsPrefix("127" + "." + "0.0.1", '.');
    }
  }

  /**
   * On a development host the middleware attaches the first active tenant, yet unless a
   * tenant is literally called `localhost` (or `127`) the backend refuses every login and
   * the form refuses every non-superuser.
   */
  lemma DevelopmentHostDivergence(
    tenants: seq<Tenant>, users: seq<User>, memberships: seq<TenantUser>,
    checkPassword: (User, string) -> bool, host: string, port: string,
    username: string, password: string, u: User, t: Tenant)
    requires TenantTableOk(tenants) && host in LocalHosts && ':' !in port
    requires t in tenants && t.isActive
    requires forall x :: x in tenants ==> x.subdomain != FirstLabel(host + ":" + port)
    requires !u.isSuperuser
    ensures Resolve(tenants, host + ":" + port).result.Attached?
    ensures Resolve(tenants, host + ":" + port).result.tenant.Some?
    ensures Authenticate(Some(host + ":" + port), username, password, tenants, users, memberships, checkPassword).None?
    ensures ConfirmLoginAllowed(host + ":" + port, u, tenants, memberships) == Denied(TenantMissing, InvalidLogin)
  {
    var raw := host + ":" + port;
    assert HostName(raw) in LocalHosts by {
      assert ':' !in host;
      HostNameWithPort(host, port);
    }
    LocalHostUsesFirstActive(tenants, raw);
    assert FindTenantBySubdomain(tenants, FirstLabel(raw)).None?;
  }

  /**
   * On any other host where the middleware found an active tenant, the three checks agree
   * for an active non-superuser whose password is right: each passes exactly when the user
   * is a member of that tenant.
   */
  lemma GatesAgreeOnResolvedTenant(
    tenants: seq<Tenant>, users: seq<User>, memberships: seq<TenantUser>,
    checkPassword: (User, string) -> bool, rawHost: string, password: string, u: User, t: Tenant)
    requires TenantTableOk(tenants) && UniqueUsernames(users) && HostName(rawHost) !in LocalHosts
    requires Resolve(tenants, rawHost).result == Attached(Some(t))
    requires u in users && !u.isSuperuser && u.isActive && checkPassword(u, password)
    ensures Authenticate(Some(rawHost), u.username, password, tenants, users, memberships, checkPassword) == Some(u)
      <==> HasMembership(memberships, u.id, t.id)
    ensures ConfirmLoginAllowed(rawHost, u, tenants, memberships) == Allowed <==> HasMembership(memberships, u.id, t.id)
    ensures HasPermission(SignedIn(u), Resolved(Some(t)), memberships) <==> HasMembership(memberships, u.id, t.id)
  {
    RemoteHostLooksUpFirstLabel(tenants, rawHost);
    RemoteParseMatchesLoginParse(rawHost);
    MiddlewareSubdomainIsFirstLabel(HostName(rawHost));
    assert t in tenants && t.subdomain == FirstLabel(rawHost);
    AuthenticateExactly(rawHost, u.username, password, tenants, users, memberships, checkPassword, t, u);
    ConfirmLoginAllowedExactly(rawHost, u, tenants, memberships, t);
  }

  /**
   * A member of an inactive tenant gets through the backend and the form, but the
   * middleware answers 404 on that tenant's host, so the panel is never reached.
   */
  lemma InactiveTenantDivergence(
    tenants: seq<Tenant>, users: seq<User>, memberships: seq<TenantUser>,
    checkPassword: (User, string) -> bool, rawHost: string, password: string, u: User, t: Tenant)
    requires TenantTableOk(tenants) && UniqueUsernames(users) && HostName(rawHost) !in LocalHosts
    requires t in tenants && !t.isActive && t.subdomain == FirstLabel(rawHost)
    requires u in users && checkPassword(u, password) && HasMembership(memberships, u.id, t.id)
    ensures Authenticate(Some(rawHost), u.username, password, tenants, users, memberships, checkPassword) == Some(u)
    ensures ConfirmLoginAllowed(rawHost, u, tenants, memberships) == Allowed
    ensures Resolve(tenants, rawHost).result == NotFound
  {
    InactiveTenantMemberAccepted(rawHost, password, tenants, users, memberships, checkPassword, t, u);
    RemoteHostLooksUpFirstLabel(tenants, rawHost);
    RemoteParseMatchesLoginParse(rawHost);
    MiddlewareSubdomainIsFirstLabel(HostName(rawHost));
  }

  /**
   * An active superuser with no membership passes the form and the permission test on any
   * resolved tenant, but the backend still refuses the credentials.
   */
  lemma SuperuserGates(
    tenants: seq<Tenant>, users: seq<User>, memberships: seq<TenantUser>,
    checkPassword: (User, string) -> bool, rawHost: string, password: string, u: User, t: Tenant)
    requires UniqueUsernames(users) && u in users && u.isSuperuser && u.isActive
    requires forall m :: m in memberships ==> m.user != u.id
    ensures ConfirmLoginAllowed(rawHost, u, tenants, memberships) == Allowed
    ensures HasPermission(SignedIn(u), Resolved(Some(t)), memberships)
    ensures Authenticate(Some(rawHost), u.username, password, tenants, users, memberships, checkPassword).None?
  {
    SuperuserNeedsMembership(rawHost, password, tenants, users, memberships, checkPassword, u);
  }
}
