/** The header handling of the work-order controller
    (work-orders/work-orders.controller.ts): `requireHeader` and which tenant
    headers each route demands and passes on. The routes call the service
    directly; no membership guard runs on them. */
module WorkOrderRoutes {
  import opened Common
  import opened HttpHeaders

  /** `requireHeader(name, v)`: the value (the first element of an array), or a
      plain `Error` (a 500) when it is missing or empty. */
  function RequireHeader(name: string, v: Option<HeaderValue>): (r: Result<string>)
    ensures r.Success? <==> Truthy(FirstValue(v))
    ensures r.Success? ==> r.value == FirstValue(v).value && r.value != ""
    ensures r.Failure? ==> r.error == Internal
    ensures v.Some? && v.value.Single? && v.value.s != "" ==> r == Success(v.value.s)
  {
    var value := FirstValue(v);
    if !Truthy(value) then Failure(Internal) else Success(value.value)
  }

  datatype Route = ListRoute | GetRoute | CreateRoute | UpdateRoute | SetStatusRoute

  /** What a route hands to the service: the company id, and the user id only
      where the service takes one. */
  datatype RouteTenant = RouteTenant(companyId: Id, userId: Option<Id>)

  /** Every route requires `x-company-id` and then `x-user-id`; only `create`
      passes the user id on (as the work order's creator). */
  function RouteHeaders(route: Route, companyRaw: Option<HeaderValue>, userRaw: Option<HeaderValue>): (r: Result<RouteTenant>)
    ensures r.Success? <==> Truthy(FirstValue(companyRaw)) && Truthy(FirstValue(userRaw))
    ensures r.Success? ==> r.value.companyId == FirstValue(companyRaw).value
    ensures r.Success? ==> (r.value.userId.Some? <==> route == CreateRoute)
    ensures r.Success? && route == CreateRoute ==> r.value.userId == FirstValue(userRaw)
    ensures r.Failure? ==> r.error == Internal
  {
    var companyId := RequireHeader("x-company-id", companyRaw);
    if companyId.Failure? then Failure(companyId.error)
    else
      var userId := RequireHeader("x-user-id", userRaw);
      if userId.Failure? then Failure(userId.error)
      else Success(RouteTenant(companyId.value, if route == CreateRoute then Some(userId.value) else None))
  }

  /** Header arrays: the first element decides, whatever follows it. */
  lemma ArrayFirstElementDecides(name: string, vs: seq<string>, extra: seq<string>)
    requires |vs| > 0
    ensures RequireHeader(name, Some(Multi(vs + extra))) == RequireHeader(name, Some(Single(vs[0])))
  {
    assert (vs + extra)[0] == vs[0];
  }
}
