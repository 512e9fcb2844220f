/**
 * The listing and content records of the public site: `Property` and its `PropertyImage`s,
 * `Page` and its `Section`s, and `ContactSubmission`. Foreign keys are ids; `PositiveIntegerField`
 * counts are `nat`; `DecimalField` amounts are integers in hundredths. Each table is a sequence in
 * creation order, so the `-created_at` ordering is the table read backwards.
 */
module MainModels {
  import opened Wrappers
  import opened Seqs

  datatype Property = Property(
    id: nat,
    tenant: nat,
    title: string,
    description: string,
    propertyType: string,
    saleType: string,
    price: int,
    priceCurrency: string,
    address: string,
    city: string,
    state: string,
    country: string,
    zipCode: string,
    bedrooms: nat,
    bathrooms: nat,
    area: Option<int>,
    parkingSpaces: nat,
    isFeatured: bool,
    isAvailable: bool)

  datatype PropertyImage = PropertyImage(id: nat, property: nat, image: string, altText: string, isMain: bool, order: nat)

  datatype Page = Page(
    id: nat,
    tenant: nat,
    title: string,
    slug: string,
    pageType: string,
    isActive: bool,
    isHomepage: bool,
    metaDescription: string)

  datatype Section = Section(
    id: nat,
    page: nat,
    sectionType: string,
    title: string,
    subtitle: string,
    content: string,
    heroButtonText: string,
    heroButtonLink: string,
    backgroundImage: string,
    order: nat,
    isActive: bool)

  datatype ContactSubmission = ContactSubmission(
    id: nat,
    tenant: nat,
    page: Option<nat>,
    name: string,
    email: string,
    phone: string,
    subject: string,
    message: string,
    propertyInterest: Option<nat>,
    isRead: bool)

  const PropertyTypes: seq<string> := ["house", "apartment", "condo", "townhouse", "land", "commercial"]
  const SaleTypes: seq<string> := ["sale", "rent", "both"]
  const PageTypes: seq<string> := ["home", "properties", "about", "contact", "custom"]
  const SectionTypes: seq<string> := ["hero", "properties_grid", "contact_form", "text_content", "image_gallery", "footer"]

  /** A property created with only its required fields: every model default applied. */
  function NewProperty(
    id: nat, tenant: nat, title: string, description: string, propertyType: string, price: int,
    address: string, city: string, state: string, country: string): (p: Property)
    ensures p.saleType == "sale" && p.priceCurrency == "USD"
    ensures p.bedrooms == 0 && p.bathrooms == 0 && p.parkingSpaces == 0
    ensures !p.isFeatured && p.isAvailable && p.area == None && p.zipCode == ""
    ensures p.id == id && p.tenant == tenant && p.propertyType == propertyType && p.price == price && p.city == city
  {
    Property(id, tenant, title, description, propertyType, "sale", price, "USD",
             address, city, state, country, "", 0, 0, None, 0, false, true)
  }

  /** A page created without flags is active and is not the homepage. */
  function NewPage(id: nat, tenant: nat, title: string, slug: string, pageType: string): (p: Page)
    ensures p.isActive && !p.isHomepage && p.metaDescription == ""
    ensures p.id == id && p.tenant == tenant && p.slug == slug && p.pageType == pageType
  {
    Page(id, tenant, title, slug, pageType, true, false, "")
  }

  /** A section created with only a page and a type: blank texts, order 0, active. */
  function NewSection(id: nat, page: nat, sectionType: string): (s: Section)
    ensures s.order == 0 && s.isActive
    ensures s.title == "" && s.subtitle == "" && s.content == "" && s.backgroundImage == ""
    ensures s.id == id && s.page == page && s.sectionType == sectionType
  {
    Section(id, page, sectionType, "", "", "", "", "", "", 0, true)
  }

  /** `ContactSubmission.objects.create(...)`: no page, no property of interest, not read. */
  function NewSubmission(id: nat, tenant: nat, name: string, email: string, phone: string, subject: string, message: string): (c: ContactSubmission)
    ensures c.page == None && c.propertyInterest == None && !c.isRead
    ensures c.id == id && c.tenant == tenant && c.name == name && c.email == email
    ensures c.phone == phone && c.subject == subject && c.message == message
  {
    ContactSubmission(id, tenant, None, name, email, phone, subject, message, None, false)
  }

  function PropertyKey(p: Property): nat { p.id }
  function ImageKey(i: PropertyImage): nat { i.id }
  function PageKey(p: Page): nat { p.id }
  function SectionKey(s: Section): nat { s.id }
  function SubmissionKey(c: ContactSubmission): nat { c.id }

  /** The `order` sort key of images and sections (`ordering = ['order']`). */
  function ImageOrder(i: PropertyImage): int { i.order }
  function SectionOrder(s: Section): int { s.order }

  function PropertyIds(ps: seq<Property>): set<nat> { set p | p in ps :: p.id }
  function PageIds(ps: seq<Page>): set<nat> { set p | p in ps :: p.id }

  /** `unique_together = ('tenant', 'slug')`. */
  ghost predicate UniqueSlugs(ps: seq<Page>)
  {
    forall a, b :: a in ps && b in ps && a.tenant == b.tenant && a.slug == b.slug ==> a == b
  }

  /** `property.propertyimage_set`: the images attached to one property, in table order. */
  function ImagesOf(images: seq<PropertyImage>, property: nat): (r: seq<PropertyImage>)
    ensures forall i :: i in r <==> i in images && i.property == property
  {
    Filter(images, (i: PropertyImage) => i.property == property)
  }

  /** `propertyimage_set.all().order_by('order')`. */
  function OrderedImages(images: seq<PropertyImage>, property: nat): (r: seq<PropertyImage>)
    ensures SortedBy(r, ImageOrder)
    ensures forall i :: i in r <==> i in images && i.property == property
  {
    var mine := ImagesOf(images, property);
    SortByMembership(mine, ImageOrder);
    SortBy(mine, ImageOrder)
  }

  /**
   * `Property.get_main_image`: `propertyimage_set.first()`, which follows the `order` key
   * and never looks at `is_main`. Equal orders fall back to table order.
   */
  function MainImage(images: seq<PropertyImage>, property: nat): (r: Option<PropertyImage>)
    ensures r.None? <==> forall i :: i in images ==> i.property != property
    ensures r.Some? ==> r.value in images && r.value.property == property
    ensures r.Some? ==> forall i :: i in images && i.property == property ==> r.value.order <= i.order
  {
    var mine := ImagesOf(images, property);
    if mine == [] then None
    else
      assert forall i :: i in mine ==> ImageOrder(FirstMin(mine, ImageOrder)) <= ImageOrder(i);
      Some(FirstMin(mine, ImageOrder))
  }

  /** The main image is the first of the images in display order. */
  lemma MainImageIsFirstDisplayed(images: seq<PropertyImage>, property: nat)
    ensures MainImage(images, property).None? <==> OrderedImages(images, property) == []
    ensures MainImage(images, property).Some? ==>
      MainImage(images, property).value == OrderedImages(images, property)[0]
  {
    var mine := ImagesOf(images, property);
    SortByMembership(mine, ImageOrder);
    if mine != [] {
      SortByHead(mine, ImageOrder);
    } else {
      assert SortBy(mine, ImageOrder) == [];
    }
  }

  /** An image flagged as main is not chosen over one with a lower order. */
  lemma MainImageIgnoresFlag()
    ensures MainImage([PropertyImage(1, 7, "a.jpg", "", false, 0), PropertyImage(2, 7, "b.jpg", "", true, 1)], 7)
      == Some(PropertyImage(1, 7, "a.jpg", "", false, 0))
  {
    var images := [PropertyImage(1, 7, "a.jpg", "", false, 0), PropertyImage(2, 7, "b.jpg", "", true, 1)];
    assert ImagesOf(images, 7) == images;
  }

  /** A tenant's page with the given slug; under `UniqueSlugs` it is the only one. */
  function FindPage(pages: seq<Page>, tenant: nat, slug: string): (r: Option<Page>)
    ensures r.Some? ==> r.value in pages && r.value.tenant == tenant && r.value.slug == slug
    ensures r.None? <==> forall p :: p in pages ==> !(p.tenant == tenant && p.slug == slug)
  {
    if pages == [] then None
    else if pages[0].tenant == tenant && pages[0].slug == slug then Some(pages[0])
    else FindPage(pages[1..], tenant, slug)
  }

  /** The tenant a page belongs to: the `page__tenant` join; `None` for an unknown page id. */
  function PageTenant(pages: seq<Page>, page: nat): (r: Option<nat>)
    ensures r.Some? ==> exists p :: p in pages && p.id == page && p.tenant == r.value
    ensures r.None? <==> forall p :: p in pages ==> p.id != page
  {
    if pages == [] then None
    else if pages[0].id == page then Some(pages[0].tenant)
    else PageTenant(pages[1..], page)
  }

  /** `Property.objects.get(id=id)`: under ascending ids the one property with that key. */
  function FindProperty(props: seq<Property>, id: int): (r: Option<Property>)
    ensures r.Some? ==> r.value in props && r.value.id == id
    ensures r.None? <==> forall p :: p in props ==> p.id != id
  {
    if props == [] then None
    else if props[0].id == id then Some(props[0])
    else FindProperty(props[1..], id)
  }

  /** The tenant a property belongs to: the `property__tenant` join. */
  function PropertyTenant(props: seq<Property>, property: nat): (r: Option<nat>)
    ensures r.Some? ==> exists p :: p in props && p.id == property && p.tenant == r.value
    ensures r.None? <==> forall p :: p in props ==> p.id != property
  {
    if props == [] then None
    else if props[0].id == property then Some(props[0].tenant)
    else PropertyTenant(props[1..], property)
  }

  /**
   * `Page.objects.create(...)`: `None` when the tenant already has a page with this slug
   * (the `unique_together` constraint fails); otherwise a page with a fresh id.
   */
  function CreatePage(
    pages: seq<Page>, tenant: nat, title: string, slug: string, pageType: string,
    isHomepage: bool, metaDescription: string): (r: Option<Page>)
    requires StrictlyAscending(pages, PageKey)
    ensures r.None? <==> exists p :: p in pages && p.tenant == tenant && p.slug == slug
    ensures r.Some? ==> StrictlyAscending(pages + [r.value], PageKey) && r.value.id !in PageIds(pages)
    ensures r.Some? ==> UniqueSlugs(pages) ==> UniqueSlugs(pages + [r.value])
    ensures r.Some? ==> r.value.tenant == tenant && r.value.title == title && r.value.slug == slug
    ensures r.Some? ==> r.value.pageType == pageType && r.value.isActive && r.value.isHomepage == isHomepage
    ensures r.Some? ==> r.value.metaDescription == metaDescription
  {
    if FindPage(pages, tenant, slug).Some? then None
    else
      var p := NewPage(NextKey(pages, PageKey), tenant, title, slug, pageType).(isHomepage := isHomepage, metaDescription := metaDescription);
      assert forall y :: y in pages ==> PageKey(y) < PageKey(p);
      AppendKeepsAscending(pages, p, PageKey);
      Some(p)
  }
}
