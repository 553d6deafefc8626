/** The older two-level `getTenant` of common/tenant.ts: the attached tenant, or
    else the raw headers. It never reads the loose fields of the request. */
module TenantHeaders {
  import opened Common
  import opened TenantContext
  import opened HttpHeaders

  /** `getTenant(req)` of common/tenant.ts. */
  function GetTenant(req: TenantRequest): (t: Tenant)
    reads req
    ensures req.tenant.Some? ==> t == req.tenant.value
    ensures req.tenant.None? ==> t.companyId == HeaderOrEmpty(req.headers, "x-company-id")
    ensures req.tenant.None? ==> t.userId == HeaderOrEmpty(req.headers, "x-user-id")
    ensures req.tenant.None? ==> t.role == None
  {
    if req.tenant.Some? then req.tenant.value
    else Tenant(HeaderOrEmpty(req.headers, "x-company-id"), HeaderOrEmpty(req.headers, "x-user-id"), None)
  }

  /** The two resolvers differ only on a request that carries loose tenant fields
      but no attached tenant; everywhere else they return the same tenant. */
  lemma AgreesWithTenantContext(req: TenantRequest)
    ensures req.tenant.Some? || !(Truthy(req.companyId) && Truthy(req.userId)) ==>
              GetTenant(req) == TenantContext.GetTenant(req)
    ensures GetTenant(req) != TenantContext.GetTenant(req) ==>
              req.tenant.None? && Truthy(req.companyId) && Truthy(req.userId)
  {
  }
}
