/**
 * The public site's views: what each page shows (sections, featured and similar
 * properties, the filtered catalogue) and what the contact form and the first visit to
 * a tenant's home store. Rendering is left out; each view yields the data it would
 * render, or the error it would answer with.
 */
module Views {
  import opened Wrappers
  import opened Seqs
  import opened Text
  import opened TenantModels
  import opened MainModels
  import opened Database
  import opened Requests

  const FeaturedLimit: nat := 6
  const SimilarLimit: nat := 4

  // ---- selections ----

  /** Keeping at most `n` rows of a filtered newest-first table. */
  lemma TakeOfNewest<T(!new)>(s: seq<T>, p: T -> bool, n: nat)
    ensures Subseq(Take(Filter(Reverse(s), p), n), Reverse(s))
    ensures forall x :: x in Take(Filter(Reverse(s), p), n) ==> x in s && p(x)
    ensures |Take(Filter(Reverse(s), p), n)| < n ==> forall x :: x in s && p(x) ==> x in Take(Filter(Reverse(s), p), n)
  {
    var all := Filter(Reverse(s), p);
    var r := Take(all, n);
    ReverseMembership(s);
    PrefixIsSubseq(all, |r|);
    SubseqTrans(r, all, Reverse(s));
    SubseqMembership(r, all);
    if |r| < n {
      assert r == all;
    }
  }

  predicate IsFeatured(tenant: nat, p: Property)
  {
    p.tenant == tenant && p.isFeatured && p.isAvailable
  }

  /**
   * `Property.objects.filter(tenant=t, is_featured=True, is_available=True)[:6]`, newest first.
   * Ids ascend along the table, so a larger id is a newer row: the six kept are the newest.
   */
  function Featured(props: seq<Property>, tenant: nat): (r: seq<Property>)
    ensures |r| <= FeaturedLimit
    ensures forall p :: p in r ==> p in props && p.tenant == tenant && p.isFeatured && p.isAvailable
    ensures Subseq(r, Reverse(props))
    ensures |r| < FeaturedLimit ==> forall p :: p in props && IsFeatured(tenant, p) ==> p in r
    ensures StrictlyAscending(props, PropertyKey) ==>
      forall p, q :: p in props && IsFeatured(tenant, p) && p !in r && q in r ==> p.id < q.id
  {
    var eligible := (p: Property) => IsFeatured(tenant, p);
    TakeOfNewest(props, eligible, FeaturedLimit);
    TakeNewestKeepsLargestKeys(props, eligible, FeaturedLimit, PropertyKey);
    Take(Filter(Reverse(props), eligible), FeaturedLimit)
  }

  predicate IsSimilar(of: Property, p: Property)
  {
    p.tenant == of.tenant && p.propertyType == of.propertyType && p.isAvailable && p.id != of.id
  }

  /** The other available properties of the same tenant and type, newest first, at most four. */
  function Similar(props: seq<Property>, of: Property): (r: seq<Property>)
    ensures |r| <= SimilarLimit
    ensures forall p :: p in r ==> p in props && p.tenant == of.tenant && p.propertyType == of.propertyType && p.isAvailable
    ensures forall p :: p in r ==> p.id != of.id
    ensures Subseq(r, Reverse(props))
    ensures |r| < SimilarLimit ==> forall p :: p in props && IsSimilar(of, p) ==> p in r
    ensures StrictlyAscending(props, PropertyKey) ==>
      forall p, q :: p in props && IsSimilar(of, p) && p !in r && q in r ==> p.id < q.id
  {
    var eligible := (p: Property) => IsSimilar(of, p);
    TakeOfNewest(props, eligible, SimilarLimit);
    TakeNewestKeepsLargestKeys(props, eligible, SimilarLimit, PropertyKey);
    Take(Filter(Reverse(props), eligible), SimilarLimit)
  }

  /** `page.section_set.filter(is_active=True)`. */
  function ShownOn(page: nat): Section -> bool
  {
    (s: Section) => s.page == page && s.isActive
  }

  /** `page.section_set.filter(is_active=True).order_by('order')`. */
  function DisplayedSections(sections: seq<Section>, page: nat): (r: seq<Section>)
    ensures SortedBy(r, SectionOrder)
    ensures forall s :: s in r <==> s in sections && s.page == page && s.isActive
    ensures multiset(r) == multiset(Filter(sections, ShownOn(page)))
  {
    var shown := Filter(sections, ShownOn(page));
    SortByMembership(shown, SectionOrder);
    SortBy(shown, SectionOrder)
  }

  /** A tenant's available properties, newest first. */
  function Listed(props: seq<Property>, tenant: nat): (r: seq<Property>)
    ensures forall p :: p in r <==> p in props && p.tenant == tenant && p.isAvailable
    ensures Subseq(r, Reverse(props))
  {
    ReverseMembership(props);
    Filter(Reverse(props), (p: Property) => p.tenant == tenant && p.isAvailable)
  }

  // ---- detail pages ----

  /** `page_detail_view`: `Http404`, or the page with its sections and, on a catalogue page, the listings. */
  datatype PageOutcome = PageNotFound | PageShown(page: Page, sections: seq<Section>, properties: Option<seq<Property>>)

  function PageDetail(db: Db, tenant: Option<Tenant>, slug: string): (r: PageOutcome)
    requires UniqueSlugs(db.pages)
    ensures r.PageShown? <==> tenant.Some? && exists p :: p in db.pages && p.tenant == tenant.value.id && p.slug == slug && p.isActive
    ensures r.PageShown? ==> r.page in db.pages && r.page.tenant == tenant.value.id && r.page.slug == slug && r.page.isActive
    ensures r.PageShown? ==> r.sections == DisplayedSections(db.sections, r.page.id)
    ensures r.PageShown? ==> (r.properties.Some? <==> r.page.pageType == "properties")
    ensures r.PageShown? && r.properties.Some? ==> r.properties.value == Listed(db.properties, tenant.value.id)
  {
    if tenant.None? then PageNotFound
    else
      var found := FindPage(db.pages, tenant.value.id, slug);
      if found.None? || !found.value.isActive then PageNotFound
      else
        var page := found.value;
        PageShown(page, DisplayedSections(db.sections, page.id),
                  if page.pageType == "properties" then Some(Listed(db.properties, tenant.value.id)) else None)
  }

  /** `property_detail_view`: `Http404`, or the property with its images in order and up to four similar ones. */
  datatype PropertyOutcome = PropertyNotFound | PropertyShown(property: Property, images: seq<PropertyImage>, similar: seq<Property>)

  function PropertyDetail(db: Db, tenant: Option<Tenant>, id: int): (r: PropertyOutcome)
    requires StrictlyAscending(db.properties, PropertyKey)
    ensures r.PropertyShown? <==> tenant.Some? && exists p :: p in db.properties && p.id == id && p.tenant == tenant.value.id && p.isAvailable
    ensures r.PropertyShown? ==> r.property in db.properties && r.property.id == id && r.property.tenant == tenant.value.id && r.property.isAvailable
    ensures r.PropertyShown? ==> r.images == OrderedImages(db.images, r.property.id)
    ensures r.PropertyShown? ==> r.similar == Similar(db.properties, r.property)
  {
    if tenant.None? then PropertyNotFound
    else
      var found := FindProperty(db.properties, id);
      if found.None? || found.value.tenant != tenant.value.id || !found.value.isAvailable then
        assert forall p :: p in db.properties && p.id == id ==> p == found.value by {
          forall p | p in db.properties && p.id == id ensures p == found.value {
            AscendingKeysUnique(db.properties, PropertyKey, p, found.value);
          }
        }
        PropertyNotFound
      else
        var p := found.value;
        PropertyShown(p, OrderedImages(db.images, p.id), Similar(db.properties, p))
  }

  // ---- the contact form ----

  const RequiredFields: seq<string> := ["name", "email", "message"]
  const NoTenantError: string := "Tenant no encontrado"

  function MissingFieldError(field: string): string
  {
    "El campo " + field + " es obligatorio"
  }

  /** `data.get(field)` is truthy: the key is there with a non-empty value. */
  predicate Present(data: map<string, string>, field: string)
  {
    field in data && data[field] != ""
  }

  /** `data.get(field, '')`. */
  function Get(data: map<string, string>, field: string): string
  {
    if field in data then data[field] else ""
  }

  /** The first of `fields` the data lack. */
  function FirstMissing(data: map<string, string>, fields: seq<string>): (r: Option<string>)
    ensures r.None? <==> forall f :: f in fields ==> Present(data, f)
    ensures r.Some? ==> exists k :: 0 <= k < |fields| && fields[k] == r.value && !Present(data, r.value) &&
                                 forall j :: 0 <= j < k ==> Present(data, fields[j])
  {
    if fields == [] then None
    else if !Present(data, fields[0]) then Some(fields[0])
    else
      var r := FirstMissing(data, fields[1..]);
      if r.Some? then
        var k :| 0 <= k < |fields[1..]| && fields[1..][k] == r.value && !Present(data, r.value) &&
          forall j :: 0 <= j < k ==> Present(data, fields[1..][j]);
        assert fields[k + 1] == r.value;
        assert forall j :: 0 <= j < k + 1 ==> Present(data, fields[j]) by {
          forall j | 0 <= j < k + 1 ensures Present(data, fields[j]) {
            if j > 0 { assert fields[j] == fields[1..][j - 1]; }
          }
        }
        r
      else
        assert forall f :: f in fields ==> f == fields[0] || f in fields[1..];
        r
  }

  /** The validation loop: stop at the first required field that is missing. */
  method CheckRequired(data: map<string, string>) returns (missing: Option<string>)
    ensures missing == FirstMissing(data, RequiredFields)
  {
    for i := 0 to |RequiredFields|
      invariant FirstMissing(data, RequiredFields[i..]) == FirstMissing(data, RequiredFields)
    {
      var field := RequiredFields[i];
      if !Present(data, field) {
        return Some(field);
      }
      assert RequiredFields[i..][1..] == RequiredFields[i + 1..];
    }
    assert RequiredFields[|RequiredFields|..] == [];
    return None;
  }

  /** `contact_form_view`'s answer: the error shown, or the submission stored. */
  datatype ContactOutcome = ContactFailed(error: string) | ContactSent(submission: ContactSubmission)

  /**
   * A truthy `property_id` that names a property of the tenant. The posted value is text, so
   * "0" is truthy there and goes on to a lookup that finds nothing; treating 0 as absent gives
   * the same outcome because ids start at 1.
   */
  predicate InterestApplies(props: seq<Property>, tenant: nat, propertyId: Option<int>)
  {
    propertyId.Some? && propertyId.value != 0 && exists p :: p in props && p.id == propertyId.value && p.tenant == tenant
  }

  /** What the contact form does with `data` and `property_id` for the request's tenant. */
  function ContactResult(db: Db, tenant: Option<Tenant>, data: map<string, string>, propertyId: Option<int>): (o: ContactOutcome)
    requires StrictlyAscending(db.submissions, SubmissionKey) && StrictlyAscending(db.properties, PropertyKey)
    ensures tenant.None? ==> o == ContactFailed(NoTenantError)
    ensures tenant.Some? && FirstMissing(data, RequiredFields).Some? ==>
      o == ContactFailed(MissingFieldError(FirstMissing(data, RequiredFields).value))
    ensures o.ContactSent? <==> tenant.Some? && forall f :: f in RequiredFields ==> Present(data, f)
    ensures o.ContactSent? ==>
      var c := o.submission;
      && c.tenant == tenant.value.id && c.page == None && !c.isRead
      && c.name == Get(data, "name") && c.email == Get(data, "email") && c.message == Get(data, "message")
      && c.phone == Get(data, "phone") && c.subject == Get(data, "subject")
      && c.id !in set x | x in db.submissions :: x.id
    ensures o.ContactSent? ==>
      (o.submission.propertyInterest.Some? <==> InterestApplies(db.properties, tenant.value.id, propertyId))
    ensures o.ContactSent? && o.submission.propertyInterest.Some? ==> o.submission.propertyInterest.value == propertyId.value
  {
    if tenant.None? then ContactFailed(NoTenantError)
    else
      var missing := FirstMissing(data, RequiredFields);
      if missing.Some? then ContactFailed(MissingFieldError(missing.value))
      else
        var c := NewSubmission(NextKey(db.submissions, SubmissionKey), tenant.value.id,
                               Get(data, "name"), Get(data, "email"), Get(data, "phone"), Get(data, "subject"), Get(data, "message"));
        if propertyId.Some? && propertyId.value != 0 then
          var found := FindProperty(db.properties, propertyId.value);
          if found.Some? && found.value.tenant == tenant.value.id then
            ContactSent(c.(propertyInterest := Some(found.value.id)))
          else
            assert forall p :: p in db.properties && p.id == propertyId.value ==> p.tenant != tenant.value.id by {
              forall p | p in db.properties && p.id == propertyId.value ensures p.tenant != tenant.value.id {
                AscendingKeysUnique(db.properties, PropertyKey, p, found.value);
              }
            }
            ContactSent(c)
        else ContactSent(c)
  }

  /** Updating the row just appended changes only that row. */
  lemma SetInterestOnLast(subs: seq<ContactSubmission>, c: ContactSubmission, property: nat)
    requires c.id !in set x | x in subs :: x.id
    ensures SetInterest(subs + [c], c.id, property) == subs + [c.(propertyInterest := Some(property))]
  {
    var r := SetInterest(subs + [c], c.id, property);
    forall k | 0 <= k < |subs| ensures r[k] == subs[k] {
      assert subs[k] in subs;
    }
  }

  /**
   * `contact_form_view`: check the tenant, then the required fields; store the submission;
   * then attach the property of interest when it belongs to the same tenant.
   */
  method ContactForm(store: Store, request: Request, data: map<string, string>, propertyId: Option<int>)
    returns (o: ContactOutcome)
    requires store.Valid()
    requires CurrentTenant(request.tenant).Some? ==> CurrentTenant(request.tenant).value.id in TenantIds(store.db.tenants)
    modifies store
    ensures store.Valid()
    ensures o == ContactResult(old(store.db), CurrentTenant(request.tenant), data, propertyId)
    ensures store.db == if o.ContactSent? then old(store.db).(submissions := old(store.db.submissions) + [o.submission]) else old(store.db)
  {
    var tenant := CurrentTenant(request.tenant);
    if tenant.None? {
      return ContactFailed(NoTenantError);
    }
    var missing := CheckRequired(data);
    if missing.Some? {
      return ContactFailed(MissingFieldError(missing.value));
    }
    var before := store.db.submissions;
    var contact := store.CreateSubmission(tenant.value.id, Get(data, "name"), Get(data, "email"), Get(data, "phone"), Get(data, "subject"), Get(data, "message"));
    if propertyId.Some? && propertyId.value != 0 {
      var found := FindProperty(store.db.properties, propertyId.value);
      if found.Some? && found.value.tenant == tenant.value.id {
        store.SetPropertyInterest(contact.id, found.value.id);
        SetInterestOnLast(before, contact, found.value.id);
        contact := contact.(propertyInterest := Some(found.value.id));
      }
    }
    o := ContactSent(contact);
  }

  // ---- the property catalogue ----

  /**
   * The catalogue's query string. A text filter is "" when absent or empty; a price bound is
   * `None` when absent, empty or not a number, and otherwise an amount in hundredths.
   */
  datatype CatalogueQuery = CatalogueQuery(
    propertyType: string, saleType: string, city: string, minPrice: Option<int>, maxPrice: Option<int>)

  /** A property the catalogue lists for `tenant` under query `q`: every supplied filter holds. */
  predicate Matches(p: Property, tenant: nat, q: CatalogueQuery)
  {
    && p.tenant == tenant && p.isAvailable
    && (q.propertyType != "" ==> p.propertyType == q.propertyType)
    && (q.saleType != "" ==> p.saleType == q.saleType)
    && (q.city != "" ==> ContainsIgnoringCase(p.city, q.city))
    && (q.minPrice.Some? ==> p.price >= q.minPrice.value)
    && (q.maxPrice.Some? ==> p.price <= q.maxPrice.value)
  }

  /**
   * The city choices as written: `values_list('city', flat=True).distinct()` under the
   * default `-created_at` ordering selects `created_at` too, so a city appears once per property.
   */
  function CitiesAsWritten(props: seq<Property>, tenant: nat): (r: seq<string>)
    ensures |r| == |Listed(props, tenant)|
    ensures forall k :: 0 <= k < |r| ==> r[k] == Listed(props, tenant)[k].city
    ensures forall c :: c in r <==> exists p :: p in props && p.tenant == tenant && p.isAvailable && p.city == c
  {
    var listed := Listed(props, tenant);
    var all := Map(listed, (p: Property) => p.city);
    forall c | c in all ensures exists p :: p in props && p.tenant == tenant && p.isAvailable && p.city == c {
      var k :| 0 <= k < |all| && all[k] == c;
      assert listed[k] in listed;
    }
    forall p | p in props && p.tenant == tenant && p.isAvailable ensures p.city in all {
      var k :| 0 <= k < |listed| && listed[k] == p;
      assert all[k] == p.city;
    }
    all
  }

  /** Two listings in one city give that city twice. */
  lemma CitiesAsWrittenRepeats(a: Property, b: Property)
    requires a.tenant == b.tenant && a.isAvailable && b.isAvailable && a.city == b.city
    ensures var r := CitiesAsWritten([a, b], a.tenant); |r| == 2 && r[0] == r[1]
  {
    var l := Listed([a, b], a.tenant);
    assert Reverse([a, b]) == [b, a];
    assert Filter([a], (p: Property) => p.tenant == a.tenant && p.isAvailable) == [a];
    assert l == [b, a];
  }

  /**
   * The city choices as intended: each city of the tenant's available properties once, the
   * same cities the list as written offers, without its repeats.
   */
  function Cities(props: seq<Property>, tenant: nat): (r: seq<string>)
    ensures forall c :: c in r <==> exists p :: p in props && p.tenant == tenant && p.isAvailable && p.city == c
    ensures forall c :: c in r <==> c in CitiesAsWritten(props, tenant)
    ensures forall i, j :: 0 <= i < j < |r| ==> r[i] != r[j]
  {
    Distinct(CitiesAsWritten(props, tenant))
  }

  /** Filter `k` of the chain (1 type, 2 sale type, 3 city, 4 lowest price, 5 highest price) holds or was not supplied. */
  predicate PassesFilter(p: Property, q: CatalogueQuery, k: nat)
  {
    match k
    case 1 => q.propertyType != "" ==> p.propertyType == q.propertyType
    case 2 => q.saleType != "" ==> p.saleType == q.saleType
    case 3 => q.city != "" ==> ContainsIgnoringCase(p.city, q.city)
    case 4 => q.minPrice.Some? ==> p.price >= q.minPrice.value
    case 5 => q.maxPrice.Some? ==> p.price <= q.maxPrice.value
    case _ => true
  }

  /** The tenant's available properties that pass the first `n` filters. */
  predicate MatchesUpTo(p: Property, tenant: nat, q: CatalogueQuery, n: nat)
  {
    if n == 0 then p.tenant == tenant && p.isAvailable
    else MatchesUpTo(p, tenant, q, n - 1) && PassesFilter(p, q, n)
  }

  /** Passing all five filters is matching the query. */
  lemma MatchesAfterChain(p: Property, tenant: nat, q: CatalogueQuery)
    ensures MatchesUpTo(p, tenant, q, 5) == Matches(p, tenant, q)
  {
    assert MatchesUpTo(p, tenant, q, 1) == (MatchesUpTo(p, tenant, q, 0) && PassesFilter(p, q, 1));
    assert MatchesUpTo(p, tenant, q, 2) == (MatchesUpTo(p, tenant, q, 1) && PassesFilter(p, q, 2));
    assert MatchesUpTo(p, tenant, q, 3) == (MatchesUpTo(p, tenant, q, 2) && PassesFilter(p, q, 3));
    assert MatchesUpTo(p, tenant, q, 4) == (MatchesUpTo(p, tenant, q, 3) && PassesFilter(p, q, 4));
    assert MatchesUpTo(p, tenant, q, 5) == (MatchesUpTo(p, tenant, q, 4) && PassesFilter(p, q, 5));
  }

  /** The state of the chain after `n` filters: the right rows, newest first. */
  ghost predicate ChainInvariant(results: seq<Property>, props: seq<Property>, tenant: nat, q: CatalogueQuery, n: nat)
  {
    (forall p :: p in results <==> p in props && MatchesUpTo(p, tenant, q, n)) && Subseq(results, Reverse(props))
  }

  /** One more link of the chain: filter by `keep` when the filter was supplied. */
  lemma ChainStep(before: seq<Property>, after: seq<Property>, props: seq<Property>, tenant: nat, q: CatalogueQuery, n: nat)
    requires 1 <= n && ChainInvariant(before, props, tenant, q, n - 1)
    requires Subseq(after, before)
    requires forall p :: p in after <==> p in before && PassesFilter(p, q, n)
    ensures ChainInvariant(after, props, tenant, q, n)
  {
    SubseqTrans(after, before, Reverse(props));
  }

  /** `properties_view`'s answer: `Http404` without a tenant, or the listings and the city choices. */
  datatype CatalogueOutcome = CatalogueNotFound | CatalogueShown(properties: seq<Property>, cities: seq<string>)

  /**
   * `properties_view`: the tenant's available properties newest first, narrowed by each
   * filter the query supplies, and the city choices as written.
   */
  method Catalogue(props: seq<Property>, current: Option<Tenant>, q: CatalogueQuery) returns (o: CatalogueOutcome)
    ensures o.CatalogueNotFound? <==> current.None?
    ensures o.CatalogueShown? ==> forall p :: p in o.properties <==> p in props && Matches(p, current.value.id, q)
    ensures o.CatalogueShown? ==> Subseq(o.properties, Reverse(props))
    ensures o.CatalogueShown? ==>
      forall c :: c in o.cities <==> exists p :: p in props && p.tenant == current.value.id && p.isAvailable && p.city == c
    ensures o.CatalogueShown? ==> |o.cities| == |Listed(props, current.value.id)|
    ensures o.CatalogueShown? ==> forall k :: 0 <= k < |o.cities| ==> o.cities[k] == Listed(props, current.value.id)[k].city
  {
    if current.None? {
      return CatalogueNotFound;
    }
    var results := FilterListings(props, current.value.id, q);
    o := CatalogueShown(results, CitiesAsWritten(props, current.value.id));
  }

  /** The filter chain of `properties_view`: the tenant's available properties newest first, narrowed by each supplied filter. */
  method FilterListings(props: seq<Property>, tenant: nat, q: CatalogueQuery) returns (results: seq<Property>)
    ensures forall p :: p in results <==> p in props && Matches(p, tenant, q)
    ensures Subseq(results, Reverse(props))
  {
    results := Listed(props, tenant);
    assert ChainInvariant(results, props, tenant, q, 0);
    var before := results;
    if q.propertyType != "" {
      results := Filter(results, (p: Property) => p.propertyType == q.propertyType);
    } else {
      SubseqRefl(results);
    }
    ChainStep(before, results, props, tenant, q, 1);
    before := results;
    if q.saleType != "" {
      results := Filter(results, (p: Property) => p.saleType == q.saleType);
    } else {
      SubseqRefl(results);
    }
    ChainStep(before, results, props, tenant, q, 2);
    before := results;
    if q.city != "" {
      results := Filter(results, (p: Property) => ContainsIgnoringCase(p.city, q.city));
    } else {
      SubseqRefl(results);
    }
    ChainStep(before, results, props, tenant, q, 3);
    before := results;
    if q.minPrice.Some? {
      results := Filter(results, (p: Property) => p.price >= q.minPrice.value);
    } else {
      SubseqRefl(results);
    }
    ChainStep(before, results, props, tenant, q, 4);
    before := results;
    if q.maxPrice.Some? {
      results := Filter(results, (p: Property) => p.price <= q.maxPrice.value);
    } else {
      SubseqRefl(results);
    }
    ChainStep(before, results, props, tenant, q, 5);
    forall p ensures MatchesUpTo(p, tenant, q, 5) == Matches(p, tenant, q) {
      MatchesAfterChain(p, tenant, q);
    }
  }

  // ---- the home page ----

  const HomeSlug: string := "inicio"

  function HomepageTitle(name: string): string
  {
    "Bienvenido a " + name
  }

  function HomepageDescription(name: string): string
  {
    "Encuentra tu hogar ideal con " + name + ". Las mejores propiedades inmobiliarias."
  }

  // The texts of the default sections.
  const HeroTitle: string := "Encuentra tu hogar ideal"
  const HeroSubtitle: string := "Descubre las mejores propiedades en las mejores ubicaciones"
  const HeroButtonText: string := "Ver Propiedades"
  const HeroButtonLink: string := "/propiedades/"
  const GridTitle: string := "Propiedades Destacadas"
  const GridSubtitle: string := "Conoce nuestras mejores opciones"
  const ContactTitle: string := "Contáctanos"
  const ContactSubtitle: string := "Estamos aquí para ayudarte a encontrar tu hogar ideal"

  /** The hero, featured-properties and contact sections of a new homepage, with ids from `first` on. */
  function DefaultSections(page: nat, first: nat): (r: seq<Section>)
    ensures |r| == 3
    ensures forall k :: 0 <= k < 3 ==> r[k].page == page && r[k].order == k + 1 && r[k].isActive && r[k].id == first + k
    ensures r[0].sectionType == "hero" && r[1].sectionType == "properties_grid" && r[2].sectionType == "contact_form"
    ensures SortedBy(r, SectionOrder)
  {
    [ NewSection(first, page, "hero").(title := HeroTitle, subtitle := HeroSubtitle,
        heroButtonText := HeroButtonText, heroButtonLink := HeroButtonLink, order := 1),
      NewSection(first + 1, page, "properties_grid").(title := GridTitle, subtitle := GridSubtitle, order := 2),
      NewSection(first + 2, page, "contact_form").(title := ContactTitle, subtitle := ContactSubtitle, order := 3) ]
  }

  /**
   * `create_default_homepage`: one homepage with slug "inicio", then its three sections.
   * When the tenant already uses the slug the page insert fails and nothing is stored.
   */
  method CreateDefaultHomepage(store: Store, tenant: Tenant) returns (homepage: Option<Page>)
    requires store.Valid() && tenant.id in TenantIds(store.db.tenants)
    modifies store
    ensures store.Valid()
    ensures homepage == CreatePage(old(store.db.pages), tenant.id, HomepageTitle(tenant.name), HomeSlug, "home", true, HomepageDescription(tenant.name))
    ensures homepage.None? ==> store.db == old(store.db)
    ensures homepage.Some? ==> store.db == old(store.db).(
      pages := old(store.db.pages) + [homepage.value],
      sections := old(store.db.sections) + DefaultSections(homepage.value.id, NextKey(old(store.db.sections), SectionKey)))
  {
    homepage := store.CreatePage(tenant.id, HomepageTitle(tenant.name), HomeSlug, "home", true, HomepageDescription(tenant.name));
    if homepage.None? {
      return;
    }
    assert homepage.value.id in PageIds(store.db.pages) by {
      assert homepage.value in store.db.pages;
    }
    AddDefaultSections(store, homepage.value.id);
  }

  lemma DefaultSectionsAssembled(s0: seq<Section>, s1: seq<Section>, s2: seq<Section>, s3: seq<Section>,
                                 hero: Section, grid: Section, contact: Section, page: nat, first: nat)
    requires s1 == s0 + [hero] && s2 == s1 + [grid] && s3 == s2 + [contact]
    requires hero == NewSection(first, page, "hero").(title := HeroTitle, subtitle := HeroSubtitle,
      heroButtonText := HeroButtonText, heroButtonLink := HeroButtonLink, order := 1)
    requires grid == NewSection(first + 1, page, "properties_grid").(title := GridTitle, subtitle := GridSubtitle,
      heroButtonText := "", heroButtonLink := "", order := 2)
    requires contact == NewSection(first + 2, page, "contact_form").(title := ContactTitle, subtitle := ContactSubtitle,
      heroButtonText := "", heroButtonLink := "", order := 3)
    ensures s3 == s0 + DefaultSections(page, first)
  {
    assert [hero, grid, contact] == DefaultSections(page, first);
  }

  /** The three `Section.objects.create(...)` calls of `create_default_homepage`. */
  method AddDefaultSections(store: Store, page: nat)
    requires store.Valid() && page in PageIds(store.db.pages)
    modifies store
    ensures store.Valid()
    ensures store.db == old(store.db).(sections := old(store.db.sections) + DefaultSections(page, NextKey(old(store.db.sections), SectionKey)))
  {
    ghost var s0 := store.db.sections;
    var first := NextKey(store.db.sections, SectionKey);
    var hero := store.CreateSection(page, "hero", HeroTitle, HeroSubtitle, HeroButtonText, HeroButtonLink, 1);
    ghost var s1 := store.db.sections;
    NextKeyAfterAppend(s0, hero, SectionKey);
    var grid := store.CreateSection(page, "properties_grid", GridTitle, GridSubtitle, "", "", 2);
    ghost var s2 := store.db.sections;
    NextKeyAfterAppend(s1, grid, SectionKey);
    var contact := store.CreateSection(page, "contact_form", ContactTitle, ContactSubtitle, "", "", 3);
    DefaultSectionsAssembled(s0, s1, s2, store.db.sections, hero, grid, contact, page, first);
  }

  /** `Page.objects.get(tenant=t, is_homepage=True, is_active=True)` looks among these. */
  function HomepageOf(tenant: nat): Page -> bool
  {
    (p: Page) => p.tenant == tenant && p.isHomepage && p.isActive
  }

  function ActiveHomepages(pages: seq<Page>, tenant: nat): (r: seq<Page>)
    ensures forall p :: p in r <==> p in pages && p.tenant == tenant && p.isHomepage && p.isActive
  {
    Filter(pages, HomepageOf(tenant))
  }

  /**
   * `home_view`'s answer: `Http404` without a tenant, a server error when several active
   * homepages exist (`MultipleObjectsReturned`) or the default one cannot be inserted, or the
   * homepage with its sections and featured properties.
   */
  datatype HomeOutcome = HomeNotFound | HomeFailed | HomeShown(page: Page, sections: seq<Section>, featured: seq<Property>)

  /** `home_view`: show the tenant's active homepage, creating the default one on the first visit. */
  method HomeView(store: Store, request: Request) returns (o: HomeOutcome)
    requires store.Valid()
    requires CurrentTenant(request.tenant).Some? ==> CurrentTenant(request.tenant).value.id in TenantIds(store.db.tenants)
    modifies store
    ensures store.Valid()
    ensures CurrentTenant(request.tenant).None? ==> o == HomeNotFound && store.db == old(store.db)
    ensures CurrentTenant(request.tenant).Some? ==>
      var t := CurrentTenant(request.tenant).value;
      var homes := ActiveHomepages(old(store.db.pages), t.id);
      && (|homes| > 1 ==> o == HomeFailed && store.db == old(store.db))
      && (|homes| == 1 ==>
            (store.db == old(store.db) &&
             o == HomeShown(homes[0], DisplayedSections(old(store.db.sections), homes[0].id), Featured(old(store.db.properties), t.id))))
      && (|homes| == 0 ==>
            var created := CreatePage(old(store.db.pages), t.id, HomepageTitle(t.name), HomeSlug, "home", true, HomepageDescription(t.name));
            && (created.None? ==> o == HomeFailed && store.db == old(store.db))
            && (created.Some? ==>
                  var defaults := DefaultSections(created.value.id, NextKey(old(store.db.sections), SectionKey));
                  && store.db == old(store.db).(pages := old(store.db.pages) + [created.value],
                                                sections := old(store.db.sections) + defaults)
                  && ActiveHomepages(store.db.pages, t.id) == [created.value]
                  && o == HomeShown(created.value, defaults, Featured(old(store.db.properties), t.id))))
  {
    ghost var db0 := store.db;
    var tenant := CurrentTenant(request.tenant);
    if tenant.None? {
      return HomeNotFound;
    }
    var homes := ActiveHomepages(store.db.pages, tenant.value.id);
    var homepage: Page;
    if |homes| > 1 {
      return HomeFailed;
    } else if |homes| == 1 {
      homepage := homes[0];
    } else {
      var created := CreateDefaultHomepage(store, tenant.value);
      if created.None? {
        return HomeFailed;
      }
      DefaultHomepageBootstrapsOnce(db0, tenant.value);
      homepage := created.value;
    }
    var sections := DisplayedSections(store.db.sections, homepage.id);
    var featured := Featured(store.db.properties, tenant.value.id);
    o := HomeShown(homepage, sections, featured);
  }

  /** After the bootstrap inserts `h`, it is the tenant's only active homepage. */
  lemma BootstrappedHomepageIsUnique(pages: seq<Page>, t: Tenant, h: Page)
    requires ActiveHomepages(pages, t.id) == []
    requires h.tenant == t.id && h.isHomepage && h.isActive
    ensures ActiveHomepages(pages + [h], t.id) == [h]
  {
    FilterAppend(pages, [h], HomepageOf(t.id));
    assert Filter([h], HomepageOf(t.id)) == [h];
  }

  /** A new page shows exactly the sections added for it, in their `order`. */
  lemma NewPageShowsItsSections(sections: seq<Section>, page: nat, added: seq<Section>)
    requires forall x :: x in sections ==> x.page != page
    requires forall x :: x in added ==> ShownOn(page)(x)
    requires SortedBy(added, SectionOrder)
    ensures DisplayedSections(sections + added, page) == added
  {
    var shown := ShownOn(page);
    assert forall x :: x in sections ==> !shown(x);
    FilterAppend(sections, added, shown);
    FilterNone(sections, shown);
    FilterAll(added, shown);
    assert Filter(sections + added, shown) == added;
    SortByOfSorted(added, SectionOrder);
  }

  /**
   * The bootstrap runs once: after it, the new page is the tenant's only active homepage and
   * shows exactly its three default sections, in the order hero, properties, contact.
   */
  lemma DefaultHomepageBootstrapsOnce(db: Db, t: Tenant)
    requires StrictlyAscending(db.pages, PageKey) && StrictlyAscending(db.sections, SectionKey)
    requires forall s :: s in db.sections ==> s.page in PageIds(db.pages)
    requires ActiveHomepages(db.pages, t.id) == []
    requires CreatePage(db.pages, t.id, HomepageTitle(t.name), HomeSlug, "home", true, HomepageDescription(t.name)).Some?
    ensures var h := CreatePage(db.pages, t.id, HomepageTitle(t.name), HomeSlug, "home", true, HomepageDescription(t.name)).value;
      var first := NextKey(db.sections, SectionKey);
      && ActiveHomepages(db.pages + [h], t.id) == [h]
      && DisplayedSections(db.sections + DefaultSections(h.id, first), h.id) == DefaultSections(h.id, first)
  {
    var h := CreatePage(db.pages, t.id, HomepageTitle(t.name), HomeSlug, "home", true, HomepageDescription(t.name)).value;
    var ds := DefaultSections(h.id, NextKey(db.sections, SectionKey));
    BootstrappedHomepageIsUnique(db.pages, t, h);
    assert forall x :: x in ds ==> ShownOn(h.id)(x);
    assert forall x :: x in db.sections ==> x.page != h.id;
    NewPageShowsItsSections(db.sections, h.id, ds);
  }
}
