/** `TenantUserAdmin`: the memberships list of the panel. */
module TenantsAdmin {
  import opened Wrappers
  import opened Seqs
  import opened TenantModels
  import opened Requests
  import opened AdminScope
  import CustomAdmin

  function MembershipOwner(m: TenantUser): Option<nat> { Some(m.tenant) }

  /** `TenantUserAdmin.get_queryset`. */
  function MembershipQueryset(memberships: seq<TenantUser>, user: Visitor, attr: TenantAttr): (r: seq<TenantUser>)
    ensures Subseq(r, memberships)
    ensures IsSuperuser(user) || attr.Unset? ==> r == memberships
    ensures !IsSuperuser(user) && attr.Resolved? ==>
      forall m :: m in r <==> m in memberships && attr.tenant.Some? && m.tenant == attr.tenant.value.id
  {
    Scoped(memberships, ScopeOf(user, attr), MembershipOwner)
  }

  /** Whoever is let into the panel finds a membership of their own in the list. */
  lemma PanelUserSeesOwnMembership(memberships: seq<TenantUser>, user: Visitor, attr: TenantAttr)
    requires CustomAdmin.HasPermission(user, attr, memberships)
    ensures IsSuperuser(user) ==> MembershipQueryset(memberships, user, attr) == memberships
    ensures !IsSuperuser(user) ==>
      exists m :: m in MembershipQueryset(memberships, user, attr) && m.user == user.account.id
  {
    if !IsSuperuser(user) {
      var t := CurrentTenant(attr).value;
      var m :| m in memberships && m.user == user.account.id && m.tenant == t.id;
      assert m in MembershipQueryset(memberships, user, attr);
    }
  }

  /** A tenant admin's list is exactly the members of that tenant: the list answers `HasMembership`. */
  lemma ListedMembersAreMembers(memberships: seq<TenantUser>, user: Visitor, t: Tenant, who: nat)
    requires !IsSuperuser(user)
    ensures (exists m :: m in MembershipQueryset(memberships, user, Resolved(Some(t))) && m.user == who)
      <==> HasMembership(memberships, who, t.id)
  {
    var r := MembershipQueryset(memberships, user, Resolved(Some(t)));
    if HasMembership(memberships, who, t.id) {
      var m :| m in memberships && m.user == who && m.tenant == t.id;
      assert m in r;
    }
  }
}
