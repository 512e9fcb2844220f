/**
 * `TenantMiddleware.process_request`: find the tenant a request is for from its `Host`
 * header and store it on the request. On the development hosts the first active tenant is
 * used, and a demo tenant is created when there is none; elsewhere the first label of the
 * host must be the subdomain of an active tenant, or the request ends in a 404.
 */
module Middleware {
  import opened Wrappers
  import opened Text
  import opened TenantModels
  import opened Database
  import opened Requests
  import opened Hosts

  /** What the middleware does with the request: attach a tenant (possibly `None`), or raise `Http404`. */
  datatype Resolution = Attached(tenant: Option<Tenant>) | NotFound

  /** The result of resolving together with the tenant table afterwards. */
  datatype Step = Step(result: Resolution, tenants: seq<Tenant>)

  const DemoName: string := "Demo Inmobiliaria"
  const DemoSubdomain: string := "demo"
  const DemoEmail: string := "info@demo.com"
  const DemoPhone: string := "+1-555-0123"

  /** The subdomain parse of the middleware as written: a length test over the dot-separated parts. */
  function MiddlewareSubdomain(host: string): string
  {
    var parts := Split(host, '.');
    if |parts| >= 3 then parts[0]
    else if '.' in host then Split(host, '.')[0] else host
  }

  /** Both branches of the length test take the first label. */
  lemma MiddlewareSubdomainIsFirstLabel(host: string)
    ensures MiddlewareSubdomain(host) == FirstField(host, '.')
  {
    FirstFieldIsPrefix(host, '.');
  }

  /** The tenant a request for `rawHost` is attached to, and the tenant table after the lookup. */
  function Resolve(tenants: seq<Tenant>, rawHost: string): (s: Step)
    requires TenantTableOk(tenants)
    ensures TenantTableOk(s.tenants)
    ensures s.tenants == tenants || (HostName(rawHost) in LocalHosts && |s.tenants| == |tenants| + 1 && s.tenants[..|tenants|] == tenants)
    ensures s.result.Attached? && s.result.tenant.Some? ==> s.result.tenant.value in s.tenants && s.result.tenant.value.isActive
    ensures s.result.NotFound? ==> HostName(rawHost) !in LocalHosts
  {
    var host := HostName(rawHost);
    if host in LocalHosts then
      var first := FirstActiveTenant(tenants);
      if first.Some? then Step(Attached(first), tenants)
      else
        var demo := CreateTenant(tenants, DemoName, DemoSubdomain, DemoEmail, DemoPhone);
        if demo.Some? then
          assert (tenants + [demo.value])[..|tenants|] == tenants;
          Step(Attached(demo), tenants + [demo.value])
        else Step(Attached(None), tenants)
    else
      var t := FindActiveTenantBySubdomain(tenants, MiddlewareSubdomain(host));
      if t.Some? then Step(Attached(t), tenants) else Step(NotFound, tenants)
  }

  /** On a development host with an active tenant, the first active tenant is used and nothing is created. */
  lemma LocalHostUsesFirstActive(tenants: seq<Tenant>, rawHost: string)
    requires TenantTableOk(tenants) && HostName(rawHost) in LocalHosts
    requires exists t :: t in tenants && t.isActive
    ensures Resolve(tenants, rawHost) == Step(Attached(FirstActiveTenant(tenants)), tenants)
    ensures FirstActiveTenant(tenants).Some?
  {
  }

  /**
   * On a development host with no active tenant, the demo tenant is appended and attached;
   * when its subdomain is already taken (by an inactive tenant) the insert fails and the
   * request goes on with no tenant.
   */
  lemma LocalHostCreatesDemo(tenants: seq<Tenant>, rawHost: string)
    requires TenantTableOk(tenants) && HostName(rawHost) in LocalHosts
    requires forall t :: t in tenants ==> !t.isActive
    ensures var s := Resolve(tenants, rawHost);
      if exists t :: t in tenants && t.subdomain == DemoSubdomain then
        s == Step(Attached(None), tenants)
      else
        && s.tenants == tenants + [s.result.tenant.value]
        && s.result.Attached? && s.result.tenant.Some?
        && var d := s.result.tenant.value;
           d.name == DemoName && d.subdomain == DemoSubdomain && d.contactEmail == DemoEmail && d.contactPhone == DemoPhone
           && d.isActive && d.domain == None && d.address == "" && d.id !in TenantIds(tenants)
  {
  }

  /** Any other host leaves the table alone and attaches the active tenant of its first label, or fails with 404. */
  lemma RemoteHostLooksUpFirstLabel(tenants: seq<Tenant>, rawHost: string)
    requires TenantTableOk(tenants) && HostName(rawHost) !in LocalHosts
    ensures Resolve(tenants, rawHost).tenants == tenants
    ensures Resolve(tenants, rawHost).result.NotFound? <==>
      forall t :: t in tenants ==> !(t.isActive && t.subdomain == FirstField(HostName(rawHost), '.'))
    ensures Resolve(tenants, rawHost).result.Attached? ==>
      exists t :: t in tenants && t.isActive && t.subdomain == FirstField(HostName(rawHost), '.') &&
        Resolve(tenants, rawHost).result == Attached(Some(t))
  {
    MiddlewareSubdomainIsFirstLabel(HostName(rawHost));
  }

  /** The resolver parses non-development hosts exactly like the login backend and form. */
  lemma RemoteParseMatchesLoginParse(rawHost: string)
    ensures MiddlewareSubdomain(HostName(rawHost)) == FirstLabel(rawHost)
  {
    MiddlewareSubdomainIsFirstLabel(HostName(rawHost));
  }

  /** A host `<subdomain>.<domain>:<port>` reaches the active tenant with that subdomain. */
  lemma DottedHostResolves(tenants: seq<Tenant>, t: Tenant, domain: string, port: string)
    requires TenantTableOk(tenants) && t in tenants && t.isActive
    requires '.' !in t.subdomain && ':' !in t.subdomain && ':' !in domain
    requires t.subdomain + "." + domain !in LocalHosts
    ensures Resolve(tenants, t.subdomain + "." + domain + ":" + port).result == Attached(Some(t))
  {
    var host := t.subdomain + "." + domain;
    assert ':' !in host by {
      forall k | 0 <= k < |host| ensures host[k] != ':' {
        if k < |t.subdomain| { assert host[k] == t.subdomain[k]; }
        else if k > |t.subdomain| { assert host[k] == domain[k - |t.subdomain| - 1]; }
      }
    }
    HostNameWithPort(host, port);
    FirstLabelOfDotted(t.subdomain, domain);
    RemoteParseMatchesLoginParse(host);
    RemoteHostLooksUpFirstLabel(tenants, host + ":" + port);
  }

  /** The seeded hosts: `valle.localhost:8000` reaches the active tenant `valle`. */
  lemma ValleLocalhostResolves(tenants: seq<Tenant>, t: Tenant, domain: string, port: string)
    requires TenantTableOk(tenants) && t in tenants && t.isActive && t.subdomain == "valle"
    requires domain == "localhost" && port == "8000"
    ensures Resolve(tenants, t.subdomain + "." + domain + ":" + port).result == Attached(Some(t))
  {
    var host := t.subdomain + "." + domain;
    assert |host| == 15;
    assert host !in LocalHosts;
    assert ':' !in domain;
    assert '.' !in t.subdomain && ':' !in t.subdomain;
    DottedHostResolves(tenants, t, domain, port);
  }

  /** `process_request`: resolve the tenant, possibly inserting the demo tenant, and set `request.tenant`. */
  method ProcessRequest(store: Store, request: Request) returns (result: Resolution)
    requires store.Valid()
    modifies store, request
    ensures store.Valid()
    ensures result == Resolve(old(store.db.tenants), request.host).result
    ensures store.db == old(store.db).(tenants := Resolve(old(store.db.tenants), request.host).tenants)
    ensures request.tenant == if result.Attached? then Resolved(result.tenant) else old(request.tenant)
    ensures request.messages == old(request.messages)
  {
    var host := HostName(request.host);
    if host in LocalHosts {
      var tenant := FirstActiveTenant(store.db.tenants);
      if tenant.None? {
        tenant := store.CreateTenant(DemoName, DemoSubdomain, DemoEmail, DemoPhone);
      }
      request.tenant := Resolved(tenant);
      result := Attached(tenant);
    } else {
      var subdomain := MiddlewareSubdomain(host);
      var tenant := FindActiveTenantBySubdomain(store.db.tenants, subdomain);
      if tenant.None? {
        return NotFound;
      }
      request.tenant := Resolved(tenant);
      result := Attached(tenant);
    }
  }
}
