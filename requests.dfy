/** The parts of an HTTP request the core reads and writes. */
module Requests {
  import opened Wrappers
  import opened TenantModels

  /** The `tenant` attribute: absent until the middleware sets it, then a tenant or `None`. */
  datatype TenantAttr = Unset | Resolved(tenant: Option<Tenant>)

  /** `hasattr(request, 'tenant') and request.tenant`: the tenant a public view serves. */
  function CurrentTenant(attr: TenantAttr): (t: Option<Tenant>)
    ensures t.Some? <==> attr.Resolved? && attr.tenant.Some?
    ensures t.Some? ==> t == attr.tenant
  {
    if attr.Resolved? then attr.tenant else None
  }

  class Request {
    /** `request.get_host()`, port included. */
    const host: string
    /** `request.user`. */
    const user: Visitor
    var tenant: TenantAttr
    /** The flash messages queued on the request. */
    var messages: seq<string>

    constructor (host: string, user: Visitor)
      ensures this.host == host && this.user == user
      ensures tenant == Unset && messages == []
    {
      this.host := host;
      this.user := user;
      tenant := Unset;
      messages := [];
    }
  }
}
