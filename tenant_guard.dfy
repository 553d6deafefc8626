/** `TenantGuard.canActivate` (common/tenant.guard.ts): the membership check that
    every guarded route passes through. It reads the two tenant headers, looks the
    pair up in the membership table and, on success, attaches the tenant to the
    request. */
module TenantGuard {
  import opened Common
  import opened Store
  import opened TenantContext
  import opened HttpHeaders
  import TenantHeaders

  /** The caller named by the headers is a member of the company they name. */
  predicate IsMember(memberships: map<(Id, Id), Membership>, companyId: Id, userId: Id) {
    (companyId, userId) in memberships
  }

  method CanActivate(db: Db, req: TenantRequest) returns (r: Result<bool>)
    modifies req
    ensures var u, c := Header(req.headers, "x-user-id"), Header(req.headers, "x-company-id");
      // a missing or empty header is refused before any lookup
      && (!Truthy(u) || !Truthy(c) ==> r == Failure(Forbidden))
      // a caller without a membership row is refused
      && (Truthy(u) && Truthy(c) && !IsMember(db.memberships, c.value, u.value) ==> r == Failure(Forbidden))
      // otherwise the guard lets the request through
      && (r.Success? <==> Truthy(u) && Truthy(c) && IsMember(db.memberships, c.value, u.value))
    ensures r.Failure? ==> unchanged(req)
    ensures r.Success? ==> r.value
    ensures r.Success? ==>
      var u, c := req.headers["x-user-id"], req.headers["x-company-id"];
      var role := db.memberships[(c, u)].role;
      // the tenant, with the role of the membership row, is attached ...
      && req.tenant == Some(Tenant(c, u, Some(role)))
      // ... and mirrored in the loose fields older code reads
      && req.userId == Some(u) && req.companyId == Some(c) && req.role == Some(role)
      // so both resolvers now return exactly the checked identity
      && TenantContext.GetTenant(req) == Tenant(c, u, Some(role))
      && TenantHeaders.GetTenant(req) == Tenant(c, u, Some(role))
  {
    var userId := Header(req.headers, "x-user-id");
    var companyId := Header(req.headers, "x-company-id");
    if !Truthy(userId) || !Truthy(companyId) {
      return Failure(Forbidden);
    }
    if (companyId.value, userId.value) !in db.memberships {
      return Failure(Forbidden);
    }
    var role := db.memberships[(companyId.value, userId.value)].role;
    req.tenant := Some(Tenant(companyId.value, userId.value, Some(role)));
    req.userId := Some(userId.value);
    req.companyId := Some(companyId.value);
    req.role := Some(role);
    return Success(true);
  }
}
