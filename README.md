# Multi-tenant real-estate CMS: tenant resolution, admin gates and public views

This project is a Dafny model of the core of a Django content-management system. The system serves many
real-estate agencies ("tenants") from one deployment. The model covers:

- **Tenant resolution** (`TenantMiddleware`, module `Middleware`). The `Host` header picks the tenant of a request.
  - On the development hosts `localhost` and `127.0.0.1`, the first active tenant is used. A demo tenant is created when there is none.
  - On any other host, the first dot-separated label must be the subdomain of an active tenant, or the request ends in a 404.
- **Three login gates.**
  - The authentication backend `TenantBackend.authenticate` (`AuthBackend`).
  - The admin login form's `confirm_login_allowed` (`AdminForms`).
  - The admin site's `has_permission`, and the refusal message its `login` queues (`CustomAdmin`).
  - Module `Gates` proves where the three gates agree and where they differ. Of the three, only `has_permission` sees the tenant the middleware resolved.
- **The data model** (`TenantModels`, `MainModels`, `MediaModels`): tenants, memberships, properties and their images, pages and their sections, contact submissions and media files.
  - Their defaults, their unique constraints and, in `Database`, their `CASCADE`/`SET_NULL` deletes.
  - The database is a value `Db` of tables, held by the class `Database.Store`, whose methods are the ORM writes the core performs.
  - `Integrity(db)` collects ascending primary keys, the unique columns and resolving foreign keys. Every write keeps it.
- **The public views** (`Views`).
  - Home page with first-visit bootstrap of a default homepage and its three sections.
  - Page detail, property catalogue with its filters and city choices, property detail with images and similar listings.
  - The contact form.
- **Admin scoping** (`AdminScope`, `MainAdmin`, `TenantsAdmin`, `MediaAdmin`). Every `get_queryset` shows a non-superuser only the rows of the request's tenant. Every `save_model` stamps a new object with the request's tenant.
- **Media file classification** by extension (`MediaFile.get_file_type`, in `MediaModels`).

Tables are sequences in primary-key order, so "newest first" (`-created_at`) is the table read backwards. A new row's id is one more than the largest id present.

The request is the class `Requests.Request`. Its `tenant` attribute is `Unset` until the middleware runs, then `Resolved(Some(t))` or `Resolved(None)`.

Password checking, the clock and rendering are not modelled:
- `check_password` is a function parameter of `Authenticate`.
- Views return the data they would render, or the error they would answer with.

Where the code and its description disagree, the model follows the code:
- The admin login form looks tenants up without an `is_active` filter, so a member of an inactive tenant passes it. The middleware then answers 404 on that tenant's host (`Gates.InactiveTenantDivergence`).
- `home_view` with several active homepages raises `MultipleObjectsReturned`. The model answers `HomeFailed` rather than assuming this cannot happen.
- The catalogue's city choices repeat a city once per listing: `Views.Catalogue` returns them as written, and `Views.Cities` is the corrected list (see Findings).

## Model

| member | source | states |
|---|---|---|
| Hosts.HostName | cms_multitenant/cms_project/tenants/middleware.py:14 | the host without its port: the prefix of the header before the first ':', the whole header when there is none |
| Hosts.FirstLabel | cms_multitenant/cms_project/tenants/auth_backend.py:10-11 | the subdomain the login gates parse: a prefix of the host name holding neither '.' nor ':' |
| Hosts.FirstLabelOfDotted | cms_multitenant/cms_project/tenants/admin_forms.py:8-9 | for `head.rest` without ':' the parsed subdomain is exactly `head` |
| Hosts.HostNameWithPort | cms_multitenant/cms_project/tenants/middleware.py:14 | stripping `:port` from `h:port` gives `h` back |
| TenantModels.NewTenant | cms_multitenant/cms_project/tenants/models.py:16-30 | a tenant created with only name, subdomain, email and phone is active, has no custom domain and a blank address |
| TenantModels.NewMembership | cms_multitenant/cms_project/tenants/models.py:46 | a membership created without the flag is not an owner |
| TenantModels.TenantLabel | cms_multitenant/cms_project/tenants/models.py:37-38 | the label is the name, then " (", the subdomain and ")" |
| TenantModels.MembershipLabel | cms_multitenant/cms_project/tenants/models.py:55-57 | the label starts with the user name, then " - " and the tenant name, and closes with the role in parentheses |
| TenantModels.MembershipLabelShowsOwner | cms_multitenant/cms_project/tenants/models.py:55-57 | the membership label ends in "(Dueño)" exactly for owners and in "(Usuario)" exactly for the others |
| TenantModels.FindTenantBySubdomain | cms_multitenant/cms_project/tenants/admin_forms.py:13 | finds a tenant with the subdomain, active or not; `None` exactly when no tenant carries it |
| TenantModels.FindActiveTenantBySubdomain | cms_multitenant/cms_project/tenants/middleware.py:40 | finds an active tenant with the subdomain; `None` exactly when there is no such tenant |
| TenantModels.FirstActiveTenant | cms_multitenant/cms_project/tenants/middleware.py:19 | the active tenant earliest in the table, every tenant before it inactive; `None` exactly when none is active |
| TenantModels.FindUserByUsername | cms_multitenant/cms_project/tenants/auth_backend.py:17 | the user with the username; `None` exactly when there is none |
| TenantModels.FindTenantBySubdomainUnique | cms_multitenant/cms_project/tenants/models.py:10-15 | under the unique subdomain column the lookup returns the one tenant that carries the subdomain |
| TenantModels.CreateTenant | cms_multitenant/cms_project/tenants/middleware.py:22-27 | fails exactly when the subdomain is taken; otherwise an active tenant with a fresh id storing the given name, subdomain, contact email and phone, with no domain and an empty address, whose insert keeps ids ascending and subdomains unique |
| MainModels.NewProperty | cms_multitenant/cms_project/main/models.py:26-50 | the model defaults: sale, USD, no rooms or parking, no area, not featured, available |
| MainModels.NewPage | cms_multitenant/cms_project/main/models.py:99-105 | a new page is active, not the homepage, with a blank meta description |
| MainModels.NewSection | cms_multitenant/cms_project/main/models.py:131-143 | a new section has blank texts, order 0 and is active |
| MainModels.NewSubmission | cms_multitenant/cms_project/main/models.py:158-177 | a new submission has no page, no property of interest and is unread |
| MainModels.ImagesOf | cms_multitenant/cms_project/main/models.py:71 | exactly the images whose property is the given one |
| MainModels.OrderedImages | cms_multitenant/cms_project/main/views.py:148 | the property's images, exactly, sorted by `order` |
| MainModels.MainImage | cms_multitenant/cms_project/main/models.py:62-64 | `None` exactly when the property has no image; otherwise one of its images with the lowest `order` |
| MainModels.MainImageIsFirstDisplayed | cms_multitenant/cms_project/main/models.py:81 | the main image is the head of the images in display order, and is missing exactly when that list is empty |
| MainModels.MainImageIgnoresFlag | cms_multitenant/cms_project/main/models.py:74 | an image flagged `is_main` loses to an unflagged one with lower `order` |
| MainModels.FindPage | cms_multitenant/cms_project/main/views.py:52 | a page of the tenant with the slug; `None` exactly when the tenant has none |
| MainModels.PageTenant | cms_multitenant/cms_project/main/admin.py:113 | the tenant of the page with the given id; `None` exactly when no page has the id |
| MainModels.FindProperty | cms_multitenant/cms_project/main/views.py:208-211 | a property with the id; `None` exactly when none has it |
| MainModels.PropertyTenant | cms_multitenant/cms_project/main/admin.py:157 | the tenant of the property with the given id; `None` exactly when no property has it |
| MainModels.CreatePage | cms_multitenant/cms_project/main/models.py:112 | fails exactly when the tenant already has the slug; otherwise an active page with the given fields and a fresh id, keeping ids ascending and (tenant, slug) unique |
| MediaModels.FileType | cms_multitenant/cms_project/media_files/models.py:36-46 | "image", "document" or "video" exactly when a file is set and its lower-cased last extension is in that list; "other" otherwise |
| MediaModels.ExtensionIsLastDotField | cms_multitenant/cms_project/media_files/models.py:39 | the extension holds no dot and is the lower-cased text after a dot of the name, or the whole name when it has no dot |
| MediaModels.SplitAtOnlyDot | cms_multitenant/cms_project/media_files/models.py:39 | for `stem.ext` the extension is `ext` lower-cased |
| MediaModels.UpperCaseImage | cms_multitenant/cms_project/media_files/models.py:40-41 | "FOTO.JPG" is an image |
| MediaModels.MixedCaseDocument | cms_multitenant/cms_project/media_files/models.py:42-43 | "plan.Docx" is a document |
| MediaModels.MixedCaseVideo | cms_multitenant/cms_project/media_files/models.py:44-45 | "tour.WebM" is a video |
| MediaModels.DoubleExtensionIsOther | cms_multitenant/cms_project/media_files/models.py:39 | "x.tar.gz" is "other": only the last extension counts |
| MediaModels.NoFileIsOther | cms_multitenant/cms_project/media_files/models.py:38-46 | a field without a file is "other" |
| Database.EmptyDbIntegrity | cms_multitenant/cms_project/main/models.py:26 | the empty database satisfies every key, uniqueness and foreign-key invariant |
| Database.Keep | cms_multitenant/cms_project/main/models.py:159 | `SET_NULL`: a reference to a deleted row becomes null, every other reference is kept |
| Database.DetachSubmissions | cms_multitenant/cms_project/main/models.py:168-174 | every submission is kept in place, with page and property references nulled where the row is gone |
| Database.DetachKeepsRows | cms_multitenant/cms_project/main/models.py:159-174 | after nulling, ids still ascend, every reference resolves, and each row keeps its id and tenant |
| Database.WithoutTenant | cms_multitenant/cms_project/main/models.py:26 | deleting a tenant removes exactly its memberships, properties, pages, media files and submissions, the images of its properties and the sections of its pages |
| Database.WithoutUser | cms_multitenant/cms_project/tenants/models.py:44 | deleting a user removes exactly the user and the user's memberships, nothing else |
| Database.WithoutPage | cms_multitenant/cms_project/main/models.py:131 | deleting a page removes exactly it and its sections and nulls submissions' page references; nothing else changes |
| Database.WithoutProperty | cms_multitenant/cms_project/main/models.py:71 | deleting a property removes exactly it and its images and nulls interest references; nothing else changes |
| Database.WithoutTenantKeepsIntegrity | cms_multitenant/cms_project/tenants/models.py:45 | a tenant delete keeps every invariant and the tenant id is gone |
| Database.WithoutUserKeepsIntegrity | cms_multitenant/cms_project/tenants/models.py:44 | a user delete keeps every invariant and leaves no membership of the user |
| Database.WithoutPageKeepsIntegrity | cms_multitenant/cms_project/main/models.py:159 | a page delete keeps every invariant and no submission still names the page |
| Database.WithoutPropertyKeepsIntegrity | cms_multitenant/cms_project/main/models.py:168-174 | a property delete keeps every invariant and no submission still names the property |
| Database.WithoutPropertyKeepsOtherInterest | cms_multitenant/cms_project/main/models.py:170 | a submission interested in a different, surviving property is left exactly as it was |
| Database.AddTenantKeepsIntegrity | cms_multitenant/cms_project/tenants/models.py:10-15 | inserting a tenant with a fresh id and a free subdomain keeps every invariant |
| Database.AddPageKeepsIntegrity | cms_multitenant/cms_project/main/models.py:112 | inserting a page of an existing tenant with a fresh id and a free slug keeps every invariant |
| Database.SetInterest | cms_multitenant/cms_project/main/views.py:212-213 | only the row with the submission's id gets the property of interest; every other row and the order are unchanged |
| Database.Store.CreateTenant | cms_multitenant/cms_project/tenants/middleware.py:22-27 | the insert is `TenantModels.CreateTenant`: the row is appended when the subdomain is free, nothing changes otherwise; invariants kept |
| Database.Store.CreatePage | cms_multitenant/cms_project/main/views.py:235-242 | the insert is `MainModels.CreatePage`: appended when the slug is free, nothing changes otherwise; invariants kept |
| Database.Store.CreateSection | cms_multitenant/cms_project/main/views.py:245-253 | appends one section with the given texts and order, a fresh id, and the other fields defaulted; nothing else changes |
| Database.Store.CreateSubmission | cms_multitenant/cms_project/main/views.py:195-202 | appends a submission with the given fields, a fresh id, no page and no interest; nothing else changes |
| Database.Store.SetPropertyInterest | cms_multitenant/cms_project/main/views.py:212-213 | the database changes by `SetInterest` only, and stays consistent |
| Database.Store.DeleteTenant | cms_multitenant/cms_project/tenants/models.py:45 | the database becomes `WithoutTenant` of the old one and stays consistent |
| Database.Store.DeleteUser | cms_multitenant/cms_project/tenants/models.py:44 | the database becomes `WithoutUser` of the old one and stays consistent |
| Database.Store.DeletePage | cms_multitenant/cms_project/main/models.py:131 | the database becomes `WithoutPage` of the old one and stays consistent |
| Database.Store.DeleteProperty | cms_multitenant/cms_project/main/models.py:71 | the database becomes `WithoutProperty` of the old one and stays consistent |
| Requests.CurrentTenant | cms_multitenant/cms_project/main/views.py:15 | `hasattr(request, 'tenant') and request.tenant`: a tenant exactly when the attribute is set and not `None` |
| Middleware.MiddlewareSubdomainIsFirstLabel | cms_multitenant/cms_project/tenants/middleware.py:33-37 | both branches of the part-count test take the first label |
| Middleware.Resolve | cms_multitenant/cms_project/tenants/middleware.py:12-45 | an attached tenant is in the table and active; a 404 only on non-development hosts; the table is unchanged or gains one row, on a development host; invariants kept |
| Middleware.LocalHostUsesFirstActive | cms_multitenant/cms_project/tenants/middleware.py:17-19 | on a development host with an active tenant, the first active tenant is attached and nothing is inserted |
| Middleware.LocalHostCreatesDemo | cms_multitenant/cms_project/tenants/middleware.py:20-30 | with no active tenant the demo tenant with its four constants (no domain, empty address) is inserted and attached; if "demo" is taken the insert fails and `None` is attached |
| Middleware.RemoteHostLooksUpFirstLabel | cms_multitenant/cms_project/tenants/middleware.py:32-42 | elsewhere the table is unchanged; 404 exactly when no active tenant has the first label; otherwise that tenant is attached |
| Middleware.RemoteParseMatchesLoginParse | cms_multitenant/cms_project/tenants/middleware.py:33-37 | the middleware's subdomain parse equals the login gates' `split('.')[0]` |
| Middleware.DottedHostResolves | cms_multitenant/cms_project/tenants/middleware.py:32-40 | `sub.domain:port` reaches the active tenant with subdomain `sub` |
| Middleware.ValleLocalhostResolves | cms_multitenant/cms_project/tenants/middleware.py:32-40 | `valle.localhost:8000` reaches the active tenant "valle" |
| Middleware.ProcessRequest | cms_multitenant/cms_project/tenants/middleware.py:12-47 | the result and the new tenant table are those of `Resolve`; `request.tenant` is set exactly when a tenant is attached; messages untouched |
| AuthBackend.Authenticate | cms_multitenant/cms_project/tenants/auth_backend.py:6-23 | no request gives `None`; a returned user has the username, passes the password check, and is a member of a tenant with the host's first label |
| AuthBackend.AuthenticateExactly | cms_multitenant/cms_project/tenants/auth_backend.py:20-23 | for the tenant and user found, the result is the user exactly when the password checks and the membership exists |
| AuthBackend.UnknownTenantOrUserRejected | cms_multitenant/cms_project/tenants/auth_backend.py:12-19 | an unknown subdomain or username gives `None` |
| AuthBackend.SuperuserNeedsMembership | cms_multitenant/cms_project/tenants/auth_backend.py:20-23 | the backend grants superusers no exception: without a membership they get `None` |
| AuthBackend.InactiveTenantMemberAccepted | cms_multitenant/cms_project/tenants/auth_backend.py:13 | the lookup ignores `is_active`: a member of an inactive tenant is authenticated |
| AdminForms.ConfirmLoginAllowed | cms_multitenant/cms_project/tenants/admin_forms.py:6-23 | superusers are allowed; every refusal has code `invalid_login`; "Tenant no encontrado." exactly for a non-superuser on an unknown subdomain |
| AdminForms.ConfirmLoginAllowedExactly | cms_multitenant/cms_project/tenants/admin_forms.py:13-18 | on a known subdomain a non-superuser is allowed exactly with a membership, and otherwise refused with "No tienes acceso a este tenant." |
| AdminForms.SuperuserAllowedAnywhere | cms_multitenant/cms_project/tenants/admin_forms.py:10-11 | a superuser passes even on a subdomain no tenant has |
| CustomAdmin.HasPermission | cms_multitenant/cms_project/tenants/custom_admin.py:17-27 | permission needs an active user and a resolved tenant; an active superuser with a tenant always has it; anyone else exactly with a membership |
| CustomAdmin.PermissionMonotone | cms_multitenant/cms_project/tenants/custom_admin.py:26 | adding a membership never takes permission away |
| CustomAdmin.ShowsDenialExactly | cms_multitenant/cms_project/tenants/custom_admin.py:35 | the refusal shows exactly to a signed-in user on a tenant's host who is inactive, or neither superuser nor member |
| CustomAdmin.Login | cms_multitenant/cms_project/tenants/custom_admin.py:29-37 | appends the refusal message exactly when `ShowsDenial` holds; the tenant attribute is unchanged |
| Gates.DevelopmentHostLabel | cms_multitenant/cms_project/tenants/auth_backend.py:10-11 | on `localhost` or `127.0.0.1` the login gates look up the subdomain "localhost" or "127" |
| Gates.DevelopmentHostDivergence | cms_multitenant/cms_project/tenants/middleware.py:17-19 | on a development host the middleware attaches a tenant while both login gates reject the non-superuser for want of a tenant with that label |
| Gates.GatesAgreeOnResolvedTenant | cms_multitenant/cms_project/tenants/custom_admin.py:17-27 | on a tenant's own host, for an active non-superuser, the backend, the form and the panel all accept exactly the members |
| Gates.InactiveTenantDivergence | cms_multitenant/cms_project/tenants/middleware.py:40 | a member of an inactive tenant passes backend and form, but that tenant's host answers 404 |
| Gates.SuperuserGates | cms_multitenant/cms_project/tenants/admin_forms.py:10-11 | a superuser without memberships passes the form and the panel but not `TenantBackend` |
| Views.Featured | cms_multitenant/cms_project/main/views.py:29-33 | at most six of the tenant's featured available properties, newest first; all of them when fewer than six; on a table with ascending ids, every eligible property left out is older than every one shown |
| Views.Similar | cms_multitenant/cms_project/main/views.py:151-155 | at most four other available properties of the same tenant and type, newest first; all of them when fewer than four; on a table with ascending ids, every eligible property left out is older than every one shown |
| Views.DisplayedSections | cms_multitenant/cms_project/main/views.py:26 | exactly the page's active sections, sorted by `order`, as a permutation of the filtered table |
| Views.Listed | cms_multitenant/cms_project/main/views.py:64-67 | exactly the tenant's available properties, newest first |
| Views.PageDetail | cms_multitenant/cms_project/main/views.py:45-70 | shown exactly when the tenant has an active page with the slug; with its displayed sections, and with the listings exactly on a "properties" page |
| Views.PropertyDetail | cms_multitenant/cms_project/main/views.py:133-167 | shown exactly when the tenant has an available property with the id; with its ordered images and its similar properties |
| Views.FirstMissing | cms_multitenant/cms_project/main/views.py:186-192 | `None` exactly when every field is present; otherwise the earliest missing field, all before it present |
| Views.CheckRequired | cms_multitenant/cms_project/main/views.py:187-192 | the validation loop returns the first missing required field, or none |
| Views.ContactResult | cms_multitenant/cms_project/main/views.py:172-215 | no tenant, then a missing field, are the errors in that order; otherwise a fresh unread submission with the posted fields, interested in the property exactly when a truthy id names one of the tenant's |
| Views.SetInterestOnLast | cms_multitenant/cms_project/main/views.py:212-213 | updating the submission just inserted changes only that last row |
| Views.ContactForm | cms_multitenant/cms_project/main/views.py:172-215 | the answer is `ContactResult` of the old database, and the table gains exactly that submission on success, nothing otherwise |
| Views.CitiesAsWritten | cms_multitenant/cms_project/main/views.py:110-113 | as written: one city per listed property, in listing order; a city is offered exactly when some available property of the tenant is in it |
| Views.CitiesAsWrittenRepeats | cms_multitenant/cms_project/main/views.py:110-113 | two available listings in one city give that city twice |
| Views.Cities | cms_multitenant/cms_project/main/views.py:110-113 | the corrected city choices: each city of the tenant's available properties exactly once, the same set of cities as the list as written |
| Views.MatchesAfterChain | cms_multitenant/cms_project/main/views.py:92-107 | passing the five filters in turn is matching the whole query |
| Views.Catalogue | cms_multitenant/cms_project/main/views.py:73-130 | `Http404` exactly when the request has no tenant; otherwise exactly the tenant's available properties matching every supplied filter, newest first; the city choices as written: one entry per available listing, newest first, each the city of that listing, so every city of the tenant's available properties appears |
| Views.FilterListings | cms_multitenant/cms_project/main/views.py:80-107 | exactly the tenant's available properties that pass every supplied filter (type, sale type, city ignoring case, lowest and highest price), newest first |
| Views.DefaultSections | cms_multitenant/cms_project/main/views.py:244-271 | hero, properties grid and contact form, on the page, active, with orders 1 to 3 and consecutive ids |
| Views.CreateDefaultHomepage | cms_multitenant/cms_project/main/views.py:228-273 | the page insert is `CreatePage` with slug "inicio"; when it succeeds the page and its three default sections are appended, otherwise nothing changes |
| Views.AddDefaultSections | cms_multitenant/cms_project/main/views.py:244-271 | the three inserts append exactly `DefaultSections`, the first id being the table's next key |
| Views.ActiveHomepages | cms_multitenant/cms_project/main/views.py:20 | exactly the tenant's active homepages |
| Views.HomeView | cms_multitenant/cms_project/main/views.py:11-42 | 404 without a tenant; failure with several homepages; the one homepage shown unchanged; with none, the default page and its three sections are appended, the page becomes the only active homepage and is shown with exactly hero, properties grid and contact form; or the insert failure is reported and nothing changes |
| Views.BootstrappedHomepageIsUnique | cms_multitenant/cms_project/main/views.py:19-23 | after the bootstrap the new page is the tenant's only active homepage |
| Views.NewPageShowsItsSections | cms_multitenant/cms_project/main/views.py:26 | a page no earlier section refers to shows exactly the sorted sections added for it |
| Views.DefaultHomepageBootstrapsOnce | cms_multitenant/cms_project/main/views.py:228-273 | after the bootstrap, the next visit finds one homepage showing exactly hero, properties, contact |
| AdminScope.ScopeOf | cms_multitenant/cms_project/main/admin.py:44-46 | unrestricted exactly for superusers and for requests without a tenant attribute; otherwise restricted to the request's tenant id |
| AdminScope.Scoped | cms_multitenant/cms_project/main/admin.py:41-47 | an order-preserving subset of the table; all of it when unrestricted; otherwise exactly the rows whose owner is the scope's tenant |
| AdminScope.ScopedAppend | cms_multitenant/cms_project/main/admin.py:41-47 | a row appended to the table is appended to each list that may see it, and to no other |
| AdminScope.TenantScopesDisjoint | cms_multitenant/cms_project/main/admin.py:45-46 | the admins of two different tenants never see the same row |
| AdminScope.SavedTenant | cms_multitenant/cms_project/main/admin.py:49-53 | on create with a tenant attribute the request's tenant, failing when it is `None`; on change or without the attribute the object's own |
| AdminScope.CreatedObjectInScope | cms_multitenant/cms_project/main/admin.py:51-52 | whatever an admin creates and saves is in that admin's own scope |
| MainAdmin.PropertyQueryset | cms_multitenant/cms_project/main/admin.py:41-47 | newest first (`-created_at`): a superuser sees every property; a non-superuser with a tenant attribute exactly the request tenant's; always a subsequence of the table read backwards |
| MainAdmin.PageQueryset | cms_multitenant/cms_project/main/admin.py:78-83 | the same scoping for pages |
| MainAdmin.SubmissionQueryset | cms_multitenant/cms_project/main/admin.py:135-140 | the same scoping for contact submissions, also newest first |
| MainAdmin.SectionQueryset | cms_multitenant/cms_project/main/admin.py:109-114 | sections scoped by their page's tenant |
| MainAdmin.ImageQueryset | cms_multitenant/cms_project/main/admin.py:153-158 | images scoped by their property's tenant |
| MainAdmin.SectionScopeFollowsPages | cms_multitenant/cms_project/main/admin.py:109-114 | an admin lists a section exactly when it lists the section's page |
| MainAdmin.ImageScopeFollowsProperties | cms_multitenant/cms_project/main/admin.py:153-158 | an admin lists an image exactly when it lists the image's property |
| MainAdmin.SaveProperty | cms_multitenant/cms_project/main/admin.py:49-53 | only the tenant changes, to `SavedTenant`; the save fails exactly on create with a `None` tenant |
| MainAdmin.SavePage | cms_multitenant/cms_project/main/admin.py:85-88 | the same for pages |
| MainAdmin.SaveSubmission | cms_multitenant/cms_project/main/admin.py:142-145 | the same for contact submissions |
| MainAdmin.CreatedPropertyIsListed | cms_multitenant/cms_project/main/admin.py:49-53 | a property created in the panel heads its creator's newest-first list, the rest of the list unchanged |
| MainAdmin.CreatedPageIsListed | cms_multitenant/cms_project/main/admin.py:85-88 | a page created in the panel is appended to its creator's list, with the unordered page query listed in table order |
| MainAdmin.SuperuserCreatesForHostTenant | cms_multitenant/cms_project/main/admin.py:51-52 | a superuser's new property goes to the host's tenant, whatever the form chose |
| MainAdmin.ChangeCanMovePropertyAway | cms_multitenant/cms_project/main/admin.py:51 | on change the form's tenant is kept, so a tenant admin can move a property out of their own list |
| TenantsAdmin.MembershipQueryset | cms_multitenant/cms_project/tenants/admin.py:31-38 | a superuser, or a request without a tenant attribute, sees every membership; otherwise exactly the request tenant's; always a subsequence |
| TenantsAdmin.PanelUserSeesOwnMembership | cms_multitenant/cms_project/tenants/admin.py:36-37 | whoever has panel permission finds a membership of their own in the list (a superuser sees the whole table) |
| TenantsAdmin.ListedMembersAreMembers | cms_multitenant/cms_project/tenants/admin.py:36-37 | a tenant admin's list names a user exactly when the user is a member of that tenant |
| MediaAdmin.MediaScopeMatchesOtherAdmins | cms_multitenant/cms_project/media_files/admin.py:34 | the single combined test scopes exactly like the nested tests of the other admin classes |
| MediaAdmin.MediaQueryset | cms_multitenant/cms_project/media_files/admin.py:32-36 | newest first (`-created_at`): a superuser sees every file; a non-superuser with a tenant attribute exactly the request tenant's; always a subsequence of the table read backwards |
| MediaAdmin.SaveMediaFile | cms_multitenant/cms_project/media_files/admin.py:25-30 | with a file `file_size` becomes its size, without one it is kept; the tenant follows `SavedTenant`; nothing else changes |
| MediaAdmin.SaveMediaFileIdempotent | cms_multitenant/cms_project/media_files/admin.py:26-29 | saving the saved file again, as a change, gives the same record |
| MediaAdmin.UploadedFileIsListed | cms_multitenant/cms_project/media_files/admin.py:28-29 | a file uploaded in the panel heads its uploader's newest-first list, the rest of the list unchanged |

## Left out

- Rendering, templates, the `JsonResponse`/redirect bodies, flash messages of the contact form and `print` calls: the views return the data they would render or the error they answer with.
- JSON decoding of the contact body and its fallback to the form data: `data` is given as a string map, whatever its encoding.
- Views.ContactResult: a `property_id` that is not a number makes `Property.objects.get` raise `ValueError` (a server error); the model takes `property_id` as an optional integer and does not capture that error.
- Views.Catalogue: the price bounds are parsed with `float()`; the model takes them as amounts in hundredths, with an unparseable bound as no bound, and does not model float rounding, `nan` or `inf`.
- Text.Lower: ASCII-only case folding; `str.lower()` on non-ASCII letters and the database's `LIKE` folding beyond ASCII are not modelled.
- Database.Store: new ids are one more than the largest id present; an auto-increment column never reuses the id of a deleted last row, which the model does not capture.
- Timestamps (`created_at`, `updated_at`): table order stands for creation order.
- `check_password` and password hashing: a function parameter.
- The fallback `ModelBackend` of the project settings, which would authenticate a superuser that `TenantBackend` rejects: it is framework code, not part of this model.
- `get_urls`, `toggle_sidebar` and `search` of the admin site, the registrations, `list_display`, `fieldsets` and inlines: framework wiring and display.
- The framework's `save()` that `save_model` calls at the end: the admin `Save*` functions return the record as it would be written (or `None` when the insert must fail); the in-place update of the unsaved instance is modelled as that returned value.
- `SectionAdmin` and `PropertyImageAdmin` have no `save_model`; their rows carry no tenant of their own, so there is nothing to model beyond their scoped lists.
- MainAdmin.PageQueryset and TenantsAdmin.MembershipQueryset: pages and memberships declare no ordering, so the query leaves the order to the database; the model lists them in table order, and the change list's fallback ordering by descending primary key (which shows a new page first) is not modelled (which rows are listed is exact).
- MainAdmin.SectionQueryset and MainAdmin.ImageQueryset: the lists are in table order; the `ordering = ['order']` of sections and images is not applied to the admin lists (which rows are listed is exact).
- The `__str__` labels of properties, images, pages, sections, submissions and media files: display only (the tenant and membership labels are modelled).
- The seeding script (`populate_data.py`): random data and console output.
- Database errors other than the unique constraints the model names (the middleware's bare `except` is modelled only for the failed demo insert).

## Findings

| source | as written | input that shows it | evidently intended | confidence | as-written member | corrected member |
|---|---|---|---|---|---|---|
| cms_multitenant/cms_project/main/views.py:110-113 | `values_list('city', flat=True).distinct()` on a model ordered by `-created_at` makes the `SELECT DISTINCT` include `created_at`, so the city list has one entry per listing | two available properties of one tenant, both in "Lima": the city choices are ["Lima", "Lima"] | each city offered once | medium, not executed | Views.CitiesAsWrittenRepeats | Views.Cities |
