/**
 * The tenant directory: `Tenant` and the `TenantUser` membership join, together with the
 * framework's `User` account they refer to, the lookups the gates perform on these tables,
 * and the table invariants the schema declares (unique subdomain, unique (user, tenant)).
 * Each table is a sequence in creation (primary-key) order.
 */
module TenantModels {
  import opened Wrappers
  import opened Seqs
  import opened Text

  /** The framework's user account, reduced to the fields the core reads. */
  datatype User = User(id: nat, username: string, isSuperuser: bool, isActive: bool)

  /** `request.user`: an anonymous visitor or a signed-in account. */
  datatype Visitor = Anonymous | SignedIn(account: User)

  predicate IsAuthenticated(v: Visitor) { v.SignedIn? }
  predicate IsActiveUser(v: Visitor) { v.SignedIn? && v.account.isActive }
  predicate IsSuperuser(v: Visitor) { v.SignedIn? && v.account.isSuperuser }

  datatype Tenant = Tenant(
    id: nat,
    name: string,
    subdomain: string,
    domain: Option<string>,
    isActive: bool,
    contactEmail: string,
    contactPhone: string,
    address: string)

  /** A membership row linking a user to a tenant. */
  datatype TenantUser = TenantUser(id: nat, user: nat, tenant: nat, isOwner: bool)

  /** `Tenant.objects.create(...)` with only the required fields given: every default applied. */
  function NewTenant(id: nat, name: string, subdomain: string, contactEmail: string, contactPhone: string): (t: Tenant)
    ensures t.isActive && t.domain == None && t.address == ""
    ensures t.id == id && t.name == name && t.subdomain == subdomain
    ensures t.contactEmail == contactEmail && t.contactPhone == contactPhone
  {
    Tenant(id, name, subdomain, None, true, contactEmail, contactPhone, "")
  }

  /** A membership created without an explicit flag is not an owner. */
  function NewMembership(id: nat, user: nat, tenant: nat): (m: TenantUser)
    ensures !m.isOwner && m.id == id && m.user == user && m.tenant == tenant
  {
    TenantUser(id, user, tenant, false)
  }

  /** `Tenant.__str__`. */
  function TenantLabel(t: Tenant): (r: string)
    ensures IsPrefix(t.name, r)
    ensures |r| == |t.name| + |t.subdomain| + 3
    ensures r[|t.name|..|t.name| + 2] == " ("
    ensures r[|t.name| + 2..] == t.subdomain + ")"
  {
    t.name + " (" + t.subdomain + ")"
  }

  function Role(isOwner: bool): string
  {
    if isOwner then "Dueño" else "Usuario"
  }

  /** `TenantUser.__str__`: user name, tenant name and role. */
  function MembershipLabel(m: TenantUser, u: User, t: Tenant): (r: string)
    requires m.user == u.id && m.tenant == t.id
    ensures |r| > |u.username| + 3 + |t.name|
    ensures r[..|u.username|] == u.username
    ensures r[|u.username|..|u.username| + 3 + |t.name|] == " - " + t.name
    ensures r[|r| - 1] == ')'
  {
    u.username + " - " + t.name + " (" + Role(m.isOwner) + ")"
  }

  /** The label names the owner role exactly when the membership is an owner's. */
  lemma MembershipLabelShowsOwner(m: TenantUser, u: User, t: Tenant)
    requires m.user == u.id && m.tenant == t.id
    ensures EndsWith(MembershipLabel(m, u, t), "(Dueño)") <==> m.isOwner
    ensures EndsWith(MembershipLabel(m, u, t), "(Usuario)") <==> !m.isOwner
  {
    var prefix := u.username + " - " + t.name + " (";
    var s := MembershipLabel(m, u, t);
    assert s == prefix + Role(m.isOwner) + ")";
    if m.isOwner {
      assert s[|s| - 7..] == "(Dueño)";
      assert s[|s| - 9..][1] == prefix[|prefix| - 2] == ' ';
    } else {
      assert s[|s| - 9..] == "(Usuario)";
      assert s[|s| - 7..] == "suario)";
    }
  }

  // ---- identities, table order and uniqueness ----

  function TenantKey(t: Tenant): nat { t.id }
  function UserKey(u: User): nat { u.id }
  function MembershipKey(m: TenantUser): nat { m.id }

  function TenantIds(ts: seq<Tenant>): set<nat> { set t | t in ts :: t.id }
  function UserIds(us: seq<User>): set<nat> { set u | u in us :: u.id }

  /** The subdomain column is `unique=True`. */
  ghost predicate UniqueSubdomains(ts: seq<Tenant>)
  {
    forall a, b :: a in ts && b in ts && a.subdomain == b.subdomain ==> a == b
  }

  /** The `auth_user.username` column is unique. */
  ghost predicate UniqueUsernames(us: seq<User>)
  {
    forall a, b :: a in us && b in us && a.username == b.username ==> a == b
  }

  /** `unique_together = ('user', 'tenant')`. */
  ghost predicate UniqueMemberships(ms: seq<TenantUser>)
  {
    forall a, b :: a in ms && b in ms && a.user == b.user && a.tenant == b.tenant ==> a == b
  }

  /** Primary keys grow along a table, so sequence order is primary-key order. */
  ghost predicate TenantTableOk(ts: seq<Tenant>)
  {
    StrictlyAscending(ts, TenantKey) && UniqueSubdomains(ts)
  }

  // ---- lookups ----

  /** `Tenant.objects.get(subdomain=sd)` (no `is_active` filter); `None` is `DoesNotExist`. */
  function FindTenantBySubdomain(ts: seq<Tenant>, sd: string): (r: Option<Tenant>)
    ensures r.Some? ==> r.value in ts && r.value.subdomain == sd
    ensures r.None? <==> forall t :: t in ts ==> t.subdomain != sd
  {
    if ts == [] then None
    else if ts[0].subdomain == sd then Some(ts[0])
    else FindTenantBySubdomain(ts[1..], sd)
  }

  /** `Tenant.objects.get(subdomain=sd, is_active=True)`. */
  function FindActiveTenantBySubdomain(ts: seq<Tenant>, sd: string): (r: Option<Tenant>)
    ensures r.Some? ==> r.value in ts && r.value.subdomain == sd && r.value.isActive
    ensures r.None? <==> forall t :: t in ts ==> !(t.subdomain == sd && t.isActive)
  {
    if ts == [] then None
    else if ts[0].subdomain == sd && ts[0].isActive then Some(ts[0])
    else FindActiveTenantBySubdomain(ts[1..], sd)
  }

  /** `Tenant.objects.filter(is_active=True).first()`: the active tenant with the smallest id. */
  function FirstActiveTenant(ts: seq<Tenant>): (r: Option<Tenant>)
    ensures r.None? <==> forall t :: t in ts ==> !t.isActive
    ensures r.Some? ==> r.value in ts && r.value.isActive
    ensures r.Some? ==> exists k :: 0 <= k < |ts| && ts[k] == r.value && forall j :: 0 <= j < k ==> !ts[j].isActive
  {
    if ts == [] then None
    else if ts[0].isActive then Some(ts[0])
    else
      var r := FirstActiveTenant(ts[1..]);
      if r.Some? then
        var k :| 0 <= k < |ts[1..]| && ts[1..][k] == r.value && forall j :: 0 <= j < k ==> !ts[1..][j].isActive;
        assert ts[k + 1] == r.value;
        assert forall j :: 0 <= j < k + 1 ==> !ts[j].isActive by {
          forall j | 0 <= j < k + 1 ensures !ts[j].isActive {
            if j > 0 { assert ts[j] == ts[1..][j - 1]; }
          }
        }
        r
      else r
  }

  /** `User.objects.get(username=name)`. */
  function FindUserByUsername(us: seq<User>, name: string): (r: Option<User>)
    ensures r.Some? ==> r.value in us && r.value.username == name
    ensures r.None? <==> forall u :: u in us ==> u.username != name
  {
    if us == [] then None
    else if us[0].username == name then Some(us[0])
    else FindUserByUsername(us[1..], name)
  }

  /** `TenantUser.objects.filter(user=u, tenant=t).exists()`. */
  predicate HasMembership(ms: seq<TenantUser>, user: nat, tenant: nat)
  {
    exists m :: m in ms && m.user == user && m.tenant == tenant
  }

  /** Under the unique constraint, the subdomain lookup finds the one tenant carrying it. */
  lemma FindTenantBySubdomainUnique(ts: seq<Tenant>, t: Tenant)
    requires UniqueSubdomains(ts) && t in ts
    ensures FindTenantBySubdomain(ts, t.subdomain) == Some(t)
  {
  }

  /** `Tenant.objects.create(...)`: `None` when the subdomain is already taken (the unique constraint fails). */
  function CreateTenant(ts: seq<Tenant>, name: string, subdomain: string, contactEmail: string, contactPhone: string): (r: Option<Tenant>)
    requires TenantTableOk(ts)
    ensures r.None? <==> exists t :: t in ts && t.subdomain == subdomain
    ensures r.Some? ==> TenantTableOk(ts + [r.value]) && r.value.isActive && r.value.subdomain == subdomain
    ensures r.Some? ==> r.value.id !in TenantIds(ts)
    ensures r.Some? ==> r.value.name == name && r.value.contactEmail == contactEmail && r.value.contactPhone == contactPhone
    ensures r.Some? ==> r.value.domain == None && r.value.address == ""
  {
    if FindTenantBySubdomain(ts, subdomain).Some? then None
    else
      var t := NewTenant(NextKey(ts, TenantKey), name, subdomain, contactEmail, contactPhone);
      assert forall y :: y in ts ==> TenantKey(y) < TenantKey(t);
      AppendKeepsAscending(ts, t, TenantKey);
      Some(t)
  }
}
