/**
 * The relational store behind the ORM: one sequence per table, the constraints the schema
 * declares (primary keys, unique columns, foreign keys), and the rows a delete removes or
 * nulls (`on_delete=CASCADE` and `on_delete=SET_NULL`).
 */
module Database {
  import opened Wrappers
  import opened Seqs
  import opened TenantModels
  import opened MainModels
  import opened MediaModels

  datatype Db = Db(
    tenants: seq<Tenant>,
    users: seq<User>,
    memberships: seq<TenantUser>,
    properties: seq<Property>,
    images: seq<PropertyImage>,
    pages: seq<Page>,
    sections: seq<Section>,
    submissions: seq<ContactSubmission>,
    mediaFiles: seq<MediaFile>)

  const EmptyDb: Db := Db([], [], [], [], [], [], [], [], [])

  /** Primary keys grow along every table. */
  ghost predicate KeysAscend(db: Db)
  {
    && StrictlyAscending(db.tenants, TenantKey)
    && StrictlyAscending(db.users, UserKey)
    && StrictlyAscending(db.memberships, MembershipKey)
    && StrictlyAscending(db.properties, PropertyKey)
    && StrictlyAscending(db.images, ImageKey)
    && StrictlyAscending(db.pages, PageKey)
    && StrictlyAscending(db.sections, SectionKey)
    && StrictlyAscending(db.submissions, SubmissionKey)
    && StrictlyAscending(db.mediaFiles, MediaKey)
  }

  /** `unique=True` on the subdomain and the username, `unique_together` on memberships and pages. */
  ghost predicate UniqueColumns(db: Db)
  {
    UniqueSubdomains(db.tenants) && UniqueUsernames(db.users) && UniqueMemberships(db.memberships) && UniqueSlugs(db.pages)
  }

  /** A nullable foreign key: null, or the id of an existing row. */
  predicate RefOk(r: Option<nat>, ids: set<nat>)
  {
    r.Some? ==> r.value in ids
  }

  /** Every foreign key names an existing row. */
  ghost predicate ForeignKeysResolve(db: Db)
  {
    && (forall m :: m in db.memberships ==> m.user in UserIds(db.users) && m.tenant in TenantIds(db.tenants))
    && (forall p :: p in db.properties ==> p.tenant in TenantIds(db.tenants))
    && (forall i :: i in db.images ==> i.property in PropertyIds(db.properties))
    && (forall p :: p in db.pages ==> p.tenant in TenantIds(db.tenants))
    && (forall s :: s in db.sections ==> s.page in PageIds(db.pages))
    && (forall c :: c in db.submissions ==>
          c.tenant in TenantIds(db.tenants) && RefOk(c.page, PageIds(db.pages)) && RefOk(c.propertyInterest, PropertyIds(db.properties)))
    && (forall f :: f in db.mediaFiles ==> f.tenant in TenantIds(db.tenants))
  }

  ghost predicate Integrity(db: Db)
  {
    KeysAscend(db) && UniqueColumns(db) && ForeignKeysResolve(db)
  }

  lemma EmptyDbIntegrity()
    ensures Integrity(EmptyDb)
  {
  }

  // ---- id sets after a row is removed ----

  lemma TenantIdsWithout(a: seq<Tenant>, b: seq<Tenant>, gone: nat)
    requires forall x :: x in a <==> x in b && x.id != gone
    ensures TenantIds(a) == TenantIds(b) - {gone}
  {
    forall id | id in TenantIds(b) - {gone} ensures id in TenantIds(a) {
      var x :| x in b && x.id == id;
      assert x in a;
    }
  }

  lemma UserIdsWithout(a: seq<User>, b: seq<User>, gone: nat)
    requires forall x :: x in a <==> x in b && x.id != gone
    ensures UserIds(a) == UserIds(b) - {gone}
  {
    forall id | id in UserIds(b) - {gone} ensures id in UserIds(a) {
      var x :| x in b && x.id == id;
      assert x in a;
    }
  }

  lemma PageIdsWithout(a: seq<Page>, b: seq<Page>, gone: nat)
    requires forall x :: x in a <==> x in b && x.id != gone
    ensures PageIds(a) == PageIds(b) - {gone}
  {
    forall id | id in PageIds(b) - {gone} ensures id in PageIds(a) {
      var x :| x in b && x.id == id;
      assert x in a;
    }
  }

  lemma PropertyIdsWithout(a: seq<Property>, b: seq<Property>, gone: nat)
    requires forall x :: x in a <==> x in b && x.id != gone
    ensures PropertyIds(a) == PropertyIds(b) - {gone}
  {
    forall id | id in PropertyIds(b) - {gone} ensures id in PropertyIds(a) {
      var x :| x in b && x.id == id;
      assert x in a;
    }
  }

  // ---- SET_NULL ----

  /** `on_delete=SET_NULL`: a reference to a row that is gone becomes null; any other value is kept. */
  function Keep(r: Option<nat>, kept: set<nat>): (d: Option<nat>)
    ensures RefOk(d, kept)
    ensures RefOk(r, kept) ==> d == r
    ensures !RefOk(r, kept) ==> d == None
  {
    if r.Some? && r.value !in kept then None else r
  }

  /** Submissions with their page and property references nulled where the row is gone. */
  function DetachSubmissions(subs: seq<ContactSubmission>, pages: set<nat>, props: set<nat>): (r: seq<ContactSubmission>)
    ensures |r| == |subs|
    ensures forall k :: 0 <= k < |subs| ==>
      r[k] == subs[k].(page := Keep(subs[k].page, pages), propertyInterest := Keep(subs[k].propertyInterest, props))
  {
    seq(|subs|, k requires 0 <= k < |subs| =>
      subs[k].(page := Keep(subs[k].page, pages), propertyInterest := Keep(subs[k].propertyInterest, props)))
  }

  /** Nulling references keeps every submission, its id and its position. */
  lemma DetachKeepsRows(subs: seq<ContactSubmission>, pages: set<nat>, props: set<nat>)
    requires StrictlyAscending(subs, SubmissionKey)
    ensures StrictlyAscending(DetachSubmissions(subs, pages, props), SubmissionKey)
    ensures forall c :: c in DetachSubmissions(subs, pages, props) ==>
      RefOk(c.page, pages) && RefOk(c.propertyInterest, props) &&
      exists o :: o in subs && o.id == c.id && o.tenant == c.tenant
  {
    var r := DetachSubmissions(subs, pages, props);
    forall c | c in r
      ensures RefOk(c.page, pages) && RefOk(c.propertyInterest, props)
      ensures exists o :: o in subs && o.id == c.id && o.tenant == c.tenant
    {
      var k :| 0 <= k < |r| && r[k] == c;
      assert subs[k] in subs;
    }
  }

  // ---- deletes ----

  /**
   * `tenant.delete()`: its memberships, properties, pages, submissions and media files go
   * (`CASCADE`), and so do the images of those properties and the sections of those pages;
   * the surviving submissions lose references to deleted pages and properties (`SET_NULL`).
   */
  function WithoutTenant(db: Db, tenant: nat): (r: Db)
    ensures forall x :: x in r.tenants <==> x in db.tenants && x.id != tenant
    ensures r.users == db.users
    ensures forall m :: m in r.memberships <==> m in db.memberships && m.tenant != tenant
    ensures forall p :: p in r.properties <==> p in db.properties && p.tenant != tenant
    ensures forall i :: i in r.images <==> i in db.images && i.property in PropertyIds(r.properties)
    ensures forall p :: p in r.pages <==> p in db.pages && p.tenant != tenant
    ensures forall s :: s in r.sections <==> s in db.sections && s.page in PageIds(r.pages)
    ensures forall f :: f in r.mediaFiles <==> f in db.mediaFiles && f.tenant != tenant
    ensures r.submissions == DetachSubmissions(
      Filter(db.submissions, (c: ContactSubmission) => c.tenant != tenant), PageIds(r.pages), PropertyIds(r.properties))
  {
    var props := Filter(db.properties, (p: Property) => p.tenant != tenant);
    var pages := Filter(db.pages, (p: Page) => p.tenant != tenant);
    Db(Filter(db.tenants, (t: Tenant) => t.id != tenant),
       db.users,
       Filter(db.memberships, (m: TenantUser) => m.tenant != tenant),
       props,
       Filter(db.images, (i: PropertyImage) => i.property in PropertyIds(props)),
       pages,
       Filter(db.sections, (s: Section) => s.page in PageIds(pages)),
       DetachSubmissions(Filter(db.submissions, (c: ContactSubmission) => c.tenant != tenant), PageIds(pages), PropertyIds(props)),
       Filter(db.mediaFiles, (f: MediaFile) => f.tenant != tenant))
  }

  /** `user.delete()`: the user's memberships go with it. */
  function WithoutUser(db: Db, user: nat): (r: Db)
    ensures forall u :: u in r.users <==> u in db.users && u.id != user
    ensures forall m :: m in r.memberships <==> m in db.memberships && m.user != user
    ensures r == db.(users := r.users, memberships := r.memberships)
  {
    db.(users := Filter(db.users, (u: User) => u.id != user),
        memberships := Filter(db.memberships, (m: TenantUser) => m.user != user))
  }

  /** `page.delete()`: its sections go; submissions sent from it keep existing with a null page. */
  function WithoutPage(db: Db, page: nat): (r: Db)
    ensures forall p :: p in r.pages <==> p in db.pages && p.id != page
    ensures forall s :: s in r.sections <==> s in db.sections && s.page != page
    ensures r.submissions == DetachSubmissions(db.submissions, PageIds(r.pages), PropertyIds(db.properties))
    ensures r == db.(pages := r.pages, sections := r.sections, submissions := r.submissions)
  {
    var pages := Filter(db.pages, (p: Page) => p.id != page);
    db.(pages := pages,
        sections := Filter(db.sections, (s: Section) => s.page != page),
        submissions := DetachSubmissions(db.submissions, PageIds(pages), PropertyIds(db.properties)))
  }

  /** `property.delete()`: its images go; submissions interested in it keep existing with a null reference. */
  function WithoutProperty(db: Db, property: nat): (r: Db)
    ensures forall p :: p in r.properties <==> p in db.properties && p.id != property
    ensures forall i :: i in r.images <==> i in db.images && i.property != property
    ensures r.submissions == DetachSubmissions(db.submissions, PageIds(db.pages), PropertyIds(r.properties))
    ensures r == db.(properties := r.properties, images := r.images, submissions := r.submissions)
  {
    var props := Filter(db.properties, (p: Property) => p.id != property);
    db.(properties := props,
        images := Filter(db.images, (i: PropertyImage) => i.property != property),
        submissions := DetachSubmissions(db.submissions, PageIds(db.pages), PropertyIds(props)))
  }

  /** Deleting a tenant keeps the store consistent, and nothing refers to the tenant afterwards. */
  lemma WithoutTenantKeepsIntegrity(db: Db, tenant: nat)
    requires Integrity(db)
    ensures Integrity(WithoutTenant(db, tenant))
    ensures tenant !in TenantIds(WithoutTenant(db, tenant).tenants)
  {
    var r := WithoutTenant(db, tenant);
    TenantIdsWithout(r.tenants, db.tenants, tenant);
    var subs := Filter(db.submissions, (c: ContactSubmission) => c.tenant != tenant);
    SubseqKeepsAscending(r.tenants, db.tenants, TenantKey);
    SubseqKeepsAscending(r.memberships, db.memberships, MembershipKey);
    SubseqKeepsAscending(r.properties, db.properties, PropertyKey);
    SubseqKeepsAscending(r.images, db.images, ImageKey);
    SubseqKeepsAscending(r.pages, db.pages, PageKey);
    SubseqKeepsAscending(r.sections, db.sections, SectionKey);
    SubseqKeepsAscending(subs, db.submissions, SubmissionKey);
    SubseqKeepsAscending(r.mediaFiles, db.mediaFiles, MediaKey);
    DetachKeepsRows(subs, PageIds(r.pages), PropertyIds(r.properties));
  }

  /** Deleting a user keeps the store consistent and removes every membership of that user. */
  lemma WithoutUserKeepsIntegrity(db: Db, user: nat)
    requires Integrity(db)
    ensures Integrity(WithoutUser(db, user))
    ensures forall m :: m in WithoutUser(db, user).memberships ==> m.user != user
  {
    var r := WithoutUser(db, user);
    UserIdsWithout(r.users, db.users, user);
    SubseqKeepsAscending(r.users, db.users, UserKey);
    SubseqKeepsAscending(r.memberships, db.memberships, MembershipKey);
  }

  /** Deleting a page keeps the store consistent: no section and no submission refers to it afterwards. */
  lemma WithoutPageKeepsIntegrity(db: Db, page: nat)
    requires Integrity(db)
    ensures Integrity(WithoutPage(db, page))
    ensures forall c :: c in WithoutPage(db, page).submissions ==> c.page != Some(page)
  {
    var r := WithoutPage(db, page);
    PageIdsWithout(r.pages, db.pages, page);
    SubseqKeepsAscending(r.pages, db.pages, PageKey);
    SubseqKeepsAscending(r.sections, db.sections, SectionKey);
    DetachKeepsRows(db.submissions, PageIds(r.pages), PropertyIds(db.properties));
  }

  /** Deleting a property keeps the store consistent: no image and no submission refers to it afterwards. */
  lemma WithoutPropertyKeepsIntegrity(db: Db, property: nat)
    requires Integrity(db)
    ensures Integrity(WithoutProperty(db, property))
    ensures forall c :: c in WithoutProperty(db, property).submissions ==> c.propertyInterest != Some(property)
  {
    var r := WithoutProperty(db, property);
    PropertyIdsWithout(r.properties, db.properties, property);
    SubseqKeepsAscending(r.properties, db.properties, PropertyKey);
    SubseqKeepsAscending(r.images, db.images, ImageKey);
    DetachKeepsRows(db.submissions, PageIds(db.pages), PropertyIds(r.properties));
  }

  /** A submission whose property survives keeps its reference; SET_NULL touches only deleted rows. */
  lemma WithoutPropertyKeepsOtherInterest(db: Db, property: nat, k: nat)
    requires Integrity(db) && k < |db.submissions|
    requires db.submissions[k].propertyInterest.Some? && db.submissions[k].propertyInterest != Some(property)
    ensures WithoutProperty(db, property).submissions[k] == db.submissions[k]
  {
    var r := WithoutProperty(db, property);
    PropertyIdsWithout(r.properties, db.properties, property);
  }

  // ---- inserts ----

  lemma TenantIdsAppend(ts: seq<Tenant>, t: Tenant)
    ensures TenantIds(ts + [t]) == TenantIds(ts) + {t.id}
  {
    assert forall x :: x in ts + [t] <==> x in ts || x == t;
  }

  lemma PageIdsAppend(ps: seq<Page>, p: Page)
    ensures PageIds(ps + [p]) == PageIds(ps) + {p.id}
  {
    assert forall x :: x in ps + [p] <==> x in ps || x == p;
  }

  /** Inserting a tenant whose subdomain is free and whose id is new keeps the store consistent. */
  lemma AddTenantKeepsIntegrity(db: Db, t: Tenant)
    requires Integrity(db) && TenantTableOk(db.tenants + [t])
    ensures Integrity(db.(tenants := db.tenants + [t]))
  {
    TenantIdsAppend(db.tenants, t);
    assert forall x :: x in db.tenants ==> x in db.tenants + [t];
  }

  /** Inserting a page of an existing tenant with a free slug and a new id keeps the store consistent. */
  lemma AddPageKeepsIntegrity(db: Db, p: Page)
    requires Integrity(db) && p.tenant in TenantIds(db.tenants)
    requires StrictlyAscending(db.pages + [p], PageKey) && UniqueSlugs(db.pages + [p])
    ensures Integrity(db.(pages := db.pages + [p]))
  {
    PageIdsAppend(db.pages, p);
    assert forall x :: x in db.pages + [p] <==> x in db.pages || x == p;
  }

  /** `contact.property_interest = property_obj; contact.save()`: the one row with this id changes. */
  function SetInterest(subs: seq<ContactSubmission>, submission: nat, property: nat): (r: seq<ContactSubmission>)
    ensures |r| == |subs|
    ensures forall k :: 0 <= k < |subs| ==>
      r[k] == if subs[k].id == submission then subs[k].(propertyInterest := Some(property)) else subs[k]
  {
    seq(|subs|, k requires 0 <= k < |subs| =>
      if subs[k].id == submission then subs[k].(propertyInterest := Some(property)) else subs[k])
  }

  /** The database the ORM calls read and write. */
  class Store {
    var db: Db

    ghost predicate Valid()
      reads this
    {
      Integrity(db)
    }

    constructor ()
      ensures Valid() && db == EmptyDb
    {
      db := EmptyDb;
    }

    /** `Tenant.objects.create(...)`; `None` (and no change) when the subdomain is taken. */
    method CreateTenant(name: string, subdomain: string, contactEmail: string, contactPhone: string)
      returns (t: Option<Tenant>)
      requires Valid()
      modifies this
      ensures Valid()
      ensures t == TenantModels.CreateTenant(old(db.tenants), name, subdomain, contactEmail, contactPhone)
      ensures db == if t.Some? then old(db).(tenants := old(db.tenants) + [t.value]) else old(db)
    {
      t := TenantModels.CreateTenant(db.tenants, name, subdomain, contactEmail, contactPhone);
      if t.Some? {
        AddTenantKeepsIntegrity(db, t.value);
        db := db.(tenants := db.tenants + [t.value]);
      }
    }

    /** `Page.objects.create(...)`; `None` (and no change) when the tenant already uses the slug. */
    method CreatePage(tenant: nat, title: string, slug: string, pageType: string, isHomepage: bool, metaDescription: string)
      returns (p: Option<Page>)
      requires Valid() && tenant in TenantIds(db.tenants)
      modifies this
      ensures Valid()
      ensures p == MainModels.CreatePage(old(db.pages), tenant, title, slug, pageType, isHomepage, metaDescription)
      ensures db == if p.Some? then old(db).(pages := old(db.pages) + [p.value]) else old(db)
    {
      p := MainModels.CreatePage(db.pages, tenant, title, slug, pageType, isHomepage, metaDescription);
      if p.Some? {
        AddPageKeepsIntegrity(db, p.value);
        db := db.(pages := db.pages + [p.value]);
      }
    }

    /** `Section.objects.create(...)` with the given texts and order; the other fields take their defaults. */
    method CreateSection(page: nat, sectionType: string, title: string, subtitle: string,
                         heroButtonText: string, heroButtonLink: string, order: nat)
      returns (s: Section)
      requires Valid() && page in PageIds(db.pages)
      modifies this
      ensures Valid()
      ensures s.id == NextKey(old(db.sections), SectionKey) && s.id !in set x | x in old(db.sections) :: x.id
      ensures s == NewSection(s.id, page, sectionType).(title := title, subtitle := subtitle,
        heroButtonText := heroButtonText, heroButtonLink := heroButtonLink, order := order)
      ensures db == old(db).(sections := old(db.sections) + [s])
    {
      s := NewSection(NextKey(db.sections, SectionKey), page, sectionType).(title := title, subtitle := subtitle,
        heroButtonText := heroButtonText, heroButtonLink := heroButtonLink, order := order);
      assert forall y :: y in db.sections ==> SectionKey(y) < SectionKey(s);
      AppendKeepsAscending(db.sections, s, SectionKey);
      db := db.(sections := db.sections + [s]);
    }

    /** `ContactSubmission.objects.create(...)`. */
    method CreateSubmission(tenant: nat, name: string, email: string, phone: string, subject: string, message: string)
      returns (c: ContactSubmission)
      requires Valid() && tenant in TenantIds(db.tenants)
      modifies this
      ensures Valid()
      ensures c == NewSubmission(c.id, tenant, name, email, phone, subject, message)
      ensures c.id == NextKey(old(db.submissions), SubmissionKey) && c.id !in set x | x in old(db.submissions) :: x.id
      ensures db == old(db).(submissions := old(db.submissions) + [c])
    {
      c := NewSubmission(NextKey(db.submissions, SubmissionKey), tenant, name, email, phone, subject, message);
      assert forall y :: y in db.submissions ==> SubmissionKey(y) < SubmissionKey(c);
      AppendKeepsAscending(db.submissions, c, SubmissionKey);
      db := db.(submissions := db.submissions + [c]);
    }

    /** Saving a submission with a property of interest: an `UPDATE` of that one row. */
    method SetPropertyInterest(submission: nat, property: nat)
      requires Valid() && property in PropertyIds(db.properties)
      modifies this
      ensures Valid()
      ensures db == old(db).(submissions := SetInterest(old(db.submissions), submission, property))
    {
      var subs := SetInterest(db.submissions, submission, property);
      forall c | c in subs
        ensures c.tenant in TenantIds(db.tenants) && RefOk(c.page, PageIds(db.pages)) && RefOk(c.propertyInterest, PropertyIds(db.properties))
      {
        var k :| 0 <= k < |subs| && subs[k] == c;
        assert db.submissions[k] in db.submissions;
      }
      assert StrictlyAscending(subs, SubmissionKey) by {
        forall i, j | 0 <= i < j < |subs| ensures SubmissionKey(subs[i]) < SubmissionKey(subs[j]) {
          assert SubmissionKey(subs[i]) == SubmissionKey(db.submissions[i]);
          assert SubmissionKey(subs[j]) == SubmissionKey(db.submissions[j]);
        }
      }
      db := db.(submissions := subs);
    }

    method DeleteTenant(tenant: nat)
      requires Valid()
      modifies this
      ensures Valid()
      ensures db == WithoutTenant(old(db), tenant)
    {
      WithoutTenantKeepsIntegrity(db, tenant);
      db := WithoutTenant(db, tenant);
    }

    method DeleteUser(user: nat)
      requires Valid()
      modifies this
      ensures Valid()
      ensures db == WithoutUser(old(db), user)
    {
      WithoutUserKeepsIntegrity(db, user);
      db := WithoutUser(db, user);
    }

    method DeletePage(page: nat)
      requires Valid()
      modifies this
      ensures Valid()
      ensures db == WithoutPage(old(db), page)
    {
      WithoutPageKeepsIntegrity(db, page);
      db := WithoutPage(db, page);
    }

    method DeleteProperty(property: nat)
      requires Valid()
      modifies this
      ensures Valid()
      ensures db == WithoutProperty(old(db), property)
    {
      WithoutPropertyKeepsIntegrity(db, property);
      db := WithoutProperty(db, property);
    }
  }
}
