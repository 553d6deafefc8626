/** Resolution of the caller's tenant from a request (`getTenant` in
    common/tenant-context.ts). The guard attaches the resolved tenant to the
    request; `getTenant` prefers that, then the loose fields older code attached,
    then the raw headers. */
module TenantContext {
  import opened Common
  import opened HttpHeaders

  /** The caller's identity inside one company. */
  datatype Tenant = Tenant(companyId: Id, userId: Id, role: Option<string>)

  /** The Express request: its headers and the fields the tenant guard writes. */
  class TenantRequest {
    const headers: Headers
    var tenant: Option<Tenant>
    var companyId: Option<string>
    var userId: Option<string>
    var role: Option<string>

    /** A request as it arrives, before any guard has run. */
    constructor (headers: Headers)
      ensures this.headers == headers
      ensures tenant == None && companyId == None && userId == None && role == None
    {
      this.headers := headers;
      tenant, companyId, userId, role := None, None, None, None;
    }
  }

  /** `getTenant(req)`: the attached tenant, unchanged, if there is one; otherwise
      the loose `companyId`/`userId`/`role` fields when both ids are non-empty;
      otherwise the two headers, the empty string standing for a missing one, with
      no role. */
  function GetTenant(req: TenantRequest): (t: Tenant)
    reads req
    ensures req.tenant.Some? ==> t == req.tenant.value
    ensures req.tenant.None? && Truthy(req.companyId) && Truthy(req.userId) ==>
              t == Tenant(req.companyId.value, req.userId.value, req.role)
    ensures req.tenant.None? && !(Truthy(req.companyId) && Truthy(req.userId)) ==>
              t == Tenant(HeaderOrEmpty(req.headers, "x-company-id"),
                          HeaderOrEmpty(req.headers, "x-user-id"), None)
  {
    if req.tenant.Some? then req.tenant.value
    else if Truthy(req.companyId) && Truthy(req.userId) then
      Tenant(req.companyId.value, req.userId.value, req.role)
    else
      Tenant(HeaderOrEmpty(req.headers, "x-company-id"), HeaderOrEmpty(req.headers, "x-user-id"), None)
  }

  /** A resolved tenant carries a role only when some guard supplied one: the
      header fallback never does. */
  lemma RoleOnlyFromGuard(req: TenantRequest)
    ensures GetTenant(req).role.Some? ==>
              (req.tenant.Some? && req.tenant.value.role.Some?) || (Truthy(req.companyId) && Truthy(req.userId) && req.role.Some?)
  {
  }

  /** Without a guard, the headers decide: a request whose `x-company-id` header is
      missing resolves to the empty company id, which no row carries. */
  lemma UnguardedUsesHeaders(req: TenantRequest)
    requires req.tenant.None? && req.companyId.None?
    ensures GetTenant(req).companyId == HeaderOrEmpty(req.headers, "x-company-id")
    ensures "x-company-id" !in req.headers ==> GetTenant(req).companyId == ""
  {
  }
}
