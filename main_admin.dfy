/**
 * The admin classes of the listing and content models. Properties, pages and contact
 * submissions carry their tenant; sections reach it through their page and images through their
 * property. `save_model` changes the unsaved object before the framework writes it; here it
 * returns the object as it is written, or `None` when the write must fail.
 */
module MainAdmin {
  import opened Wrappers
  import opened Seqs
  import opened TenantModels
  import opened MainModels
  import opened Database
  import opened Requests
  import opened AdminScope

  function PropertyOwner(p: Property): Option<nat> { Some(p.tenant) }
  function PageOwner(p: Page): Option<nat> { Some(p.tenant) }
  function SubmissionOwner(c: ContactSubmission): Option<nat> { Some(c.tenant) }

  /** `filter(page__tenant=...)`: a section belongs to the tenant of its page. */
  function SectionOwner(pages: seq<Page>): Section -> Option<nat>
  {
    (s: Section) => PageTenant(pages, s.page)
  }

  /** `filter(property__tenant=...)`: an image belongs to the tenant of its property. */
  function ImageOwner(props: seq<Property>): PropertyImage -> Option<nat>
  {
    (i: PropertyImage) => PropertyTenant(props, i.property)
  }

  // ---- get_queryset ----

  /** `PropertyAdmin.get_queryset`, newest first under the model's `-created_at` ordering. */
  function PropertyQueryset(db: Db, user: Visitor, attr: TenantAttr): (r: seq<Property>)
    ensures Subseq(r, Reverse(db.properties))
    ensures IsSuperuser(user) || attr.Unset? ==> r == Reverse(db.properties)
    ensures !IsSuperuser(user) && attr.Resolved? ==>
      forall p :: p in r <==> p in db.properties && attr.tenant.Some? && p.tenant == attr.tenant.value.id
  {
    ReverseMembership(db.properties);
    Scoped(Reverse(db.properties), ScopeOf(user, attr), PropertyOwner)
  }

  /** `PageAdmin.get_queryset`. */
  function PageQueryset(db: Db, user: Visitor, attr: TenantAttr): (r: seq<Page>)
    ensures Subseq(r, db.pages)
    ensures IsSuperuser(user) || attr.Unset? ==> r == db.pages
    ensures !IsSuperuser(user) && attr.Resolved? ==>
      forall p :: p in r <==> p in db.pages && attr.tenant.Some? && p.tenant == attr.tenant.value.id
  {
    Scoped(db.pages, ScopeOf(user, attr), PageOwner)
  }

  /** `ContactSubmissionAdmin.get_queryset`, newest first under the model's `-created_at` ordering. */
  function SubmissionQueryset(db: Db, user: Visitor, attr: TenantAttr): (r: seq<ContactSubmission>)
    ensures Subseq(r, Reverse(db.submissions))
    ensures IsSuperuser(user) || attr.Unset? ==> r == Reverse(db.submissions)
    ensures !IsSuperuser(user) && attr.Resolved? ==>
      forall c :: c in r <==> c in db.submissions && attr.tenant.Some? && c.tenant == attr.tenant.value.id
  {
    ReverseMembership(db.submissions);
    Scoped(Reverse(db.submissions), ScopeOf(user, attr), SubmissionOwner)
  }

  /** `SectionAdmin.get_queryset`. */
  function SectionQueryset(db: Db, user: Visitor, attr: TenantAttr): (r: seq<Section>)
    ensures Subseq(r, db.sections)
    ensures IsSuperuser(user) || attr.Unset? ==> r == db.sections
    ensures !IsSuperuser(user) && attr.Resolved? ==>
      forall s :: s in r <==> s in db.sections && attr.tenant.Some? && PageTenant(db.pages, s.page) == Some(attr.tenant.value.id)
  {
    Scoped(db.sections, ScopeOf(user, attr), SectionOwner(db.pages))
  }

  /** `PropertyImageAdmin.get_queryset`. */
  function ImageQueryset(db: Db, user: Visitor, attr: TenantAttr): (r: seq<PropertyImage>)
    ensures Subseq(r, db.images)
    ensures IsSuperuser(user) || attr.Unset? ==> r == db.images
    ensures !IsSuperuser(user) && attr.Resolved? ==>
      forall i :: i in r <==> i in db.images && attr.tenant.Some? && PropertyTenant(db.properties, i.property) == Some(attr.tenant.value.id)
  {
    Scoped(db.images, ScopeOf(user, attr), ImageOwner(db.properties))
  }

  /** With unique page ids, the join finds the tenant of the one page carrying the id. */
  lemma PageTenantOf(pages: seq<Page>, p: Page)
    requires StrictlyAscending(pages, PageKey) && p in pages
    ensures PageTenant(pages, p.id) == Some(p.tenant)
  {
    var r := PageTenant(pages, p.id);
    var q :| q in pages && q.id == p.id && q.tenant == r.value;
    AscendingKeysUnique(pages, PageKey, p, q);
  }

  lemma PropertyTenantOf(props: seq<Property>, p: Property)
    requires StrictlyAscending(props, PropertyKey) && p in props
    ensures PropertyTenant(props, p.id) == Some(p.tenant)
  {
    var r := PropertyTenant(props, p.id);
    var q :| q in props && q.id == p.id && q.tenant == r.value;
    AscendingKeysUnique(props, PropertyKey, p, q);
  }

  /** An admin lists a section exactly when it lists the section's page. */
  lemma SectionScopeFollowsPages(db: Db, user: Visitor, attr: TenantAttr)
    requires StrictlyAscending(db.pages, PageKey)
    requires forall s :: s in db.sections ==> s.page in PageIds(db.pages)
    ensures forall s :: s in SectionQueryset(db, user, attr) <==>
      s in db.sections && exists p :: p in PageQueryset(db, user, attr) && p.id == s.page
  {
    var pages := PageQueryset(db, user, attr);
    forall s | s in db.sections
      ensures s in SectionQueryset(db, user, attr) <==> exists p :: p in pages && p.id == s.page
    {
      assert s.page in PageIds(db.pages);
      var p :| p in db.pages && p.id == s.page;
      PageTenantOf(db.pages, p);
      if s in SectionQueryset(db, user, attr) {
        assert p in pages;
      }
      if q :| q in pages && q.id == s.page {
        AscendingKeysUnique(db.pages, PageKey, p, q);
      }
    }
  }

  /** An admin lists an image exactly when it lists the image's property. */
  lemma ImageScopeFollowsProperties(db: Db, user: Visitor, attr: TenantAttr)
    requires StrictlyAscending(db.properties, PropertyKey)
    requires forall i :: i in db.images ==> i.property in PropertyIds(db.properties)
    ensures forall i :: i in ImageQueryset(db, user, attr) <==>
      i in db.images && exists p :: p in PropertyQueryset(db, user, attr) && p.id == i.property
  {
    var scope := ScopeOf(user, attr);
    var props := PropertyQueryset(db, user, attr);
    var images := ImageQueryset(db, user, attr);
    assert forall q :: q in props <==> q in db.properties && InScope(scope, Some(q.tenant)) by {
      ReverseMembership(db.properties);
    }
    assert forall i :: i in images <==> i in db.images && InScope(scope, PropertyTenant(db.properties, i.property));
    forall i | i in db.images
      ensures i in images <==> exists p :: p in props && p.id == i.property
    {
      assert i.property in PropertyIds(db.properties);
      var p :| p in db.properties && p.id == i.property;
      PropertyTenantOf(db.properties, p);
      if q :| q in props && q.id == i.property {
        AscendingKeysUnique(db.properties, PropertyKey, p, q);
      }
    }
  }

  // ---- save_model ----

  /** `PropertyAdmin.save_model`: on create the request's tenant replaces the form's; nothing else changes. */
  function SaveProperty(obj: Property, change: bool, attr: TenantAttr): (r: Option<Property>)
    ensures r.None? <==> !change && attr == Resolved(None)
    ensures r.Some? ==> r.value == obj.(tenant := r.value.tenant)
    ensures r.Some? ==> Some(r.value.tenant) == SavedTenant(obj.tenant, change, attr)
  {
    var t := SavedTenant(obj.tenant, change, attr);
    if t.Some? then Some(obj.(tenant := t.value)) else None
  }

  /** `PageAdmin.save_model`. */
  function SavePage(obj: Page, change: bool, attr: TenantAttr): (r: Option<Page>)
    ensures r.None? <==> !change && attr == Resolved(None)
    ensures r.Some? ==> r.value == obj.(tenant := r.value.tenant)
    ensures r.Some? ==> Some(r.value.tenant) == SavedTenant(obj.tenant, change, attr)
  {
    var t := SavedTenant(obj.tenant, change, attr);
    if t.Some? then Some(obj.(tenant := t.value)) else None
  }

  /** `ContactSubmissionAdmin.save_model`. */
  function SaveSubmission(obj: ContactSubmission, change: bool, attr: TenantAttr): (r: Option<ContactSubmission>)
    ensures r.None? <==> !change && attr == Resolved(None)
    ensures r.Some? ==> r.value == obj.(tenant := r.value.tenant)
    ensures r.Some? ==> Some(r.value.tenant) == SavedTenant(obj.tenant, change, attr)
  {
    var t := SavedTenant(obj.tenant, change, attr);
    if t.Some? then Some(obj.(tenant := t.value)) else None
  }

  /**
   * A property created in the panel heads its creator's newest-first list, superuser or not,
   * whatever tenant the form named; the rest of the list is unchanged.
   */
  lemma CreatedPropertyIsListed(db: Db, user: Visitor, attr: TenantAttr, obj: Property)
    requires SaveProperty(obj, false, attr).Some?
    ensures var saved := SaveProperty(obj, false, attr).value;
      PropertyQueryset(db.(properties := db.properties + [saved]), user, attr) == [saved] + PropertyQueryset(db, user, attr)
  {
    var saved := SaveProperty(obj, false, attr).value;
    ReverseAppend(db.properties, saved);
    ScopedPrepend(saved, Reverse(db.properties), ScopeOf(user, attr), PropertyOwner);
    CreatedObjectInScope(user, attr, obj.tenant);
  }

  /** A page created in the panel is appended to its creator's list (the model lists the unordered page query in table order). */
  lemma CreatedPageIsListed(db: Db, user: Visitor, attr: TenantAttr, obj: Page)
    requires SavePage(obj, false, attr).Some?
    ensures var saved := SavePage(obj, false, attr).value;
      PageQueryset(db.(pages := db.pages + [saved]), user, attr) == PageQueryset(db, user, attr) + [saved]
  {
    var saved := SavePage(obj, false, attr).value;
    ScopedAppend(db.pages, saved, ScopeOf(user, attr), PageOwner);
    CreatedObjectInScope(user, attr, obj.tenant);
  }

  /** A superuser creating a property on a tenant's host gives it to that tenant, not to the form's choice. */
  lemma SuperuserCreatesForHostTenant(user: Visitor, t: Tenant, obj: Property)
    requires IsSuperuser(user)
    ensures SaveProperty(obj, false, Resolved(Some(t))) == Some(obj.(tenant := t.id))
  {
  }

  /**
   * On change the form's tenant is kept, so a tenant admin who picks another tenant moves the
   * property out of the own list.
   */
  lemma ChangeCanMovePropertyAway(db: Db, user: Visitor, t: Tenant, obj: Property, other: nat)
    requires !IsSuperuser(user) && other != t.id
    ensures var saved := SaveProperty(obj.(tenant := other), true, Resolved(Some(t))).value;
      saved.tenant == other &&
      saved !in PropertyQueryset(db.(properties := db.properties + [saved]), user, Resolved(Some(t)))
  {
  }
}
