/** `SitesService` (sites/sites.service.ts): the sites of a company's customers. */
module Sites {
  import opened Common
  import opened Store
  import opened Listing

  datatype CreateSiteInput = CreateSiteInput(
    customerId: Id, name: string, address: Option<string>, notes: Option<string>)

  /** The customer exists and belongs to the caller's company. */
  predicate CustomerOwned(customers: map<Id, Customer>, companyId: Id, customerId: Id) {
    customerId in customers && customers[customerId].companyId == companyId
  }

  /** `create`: `NotFound` and no change when the customer is not the caller's;
      otherwise a site of the caller's company under that customer is inserted. */
  method Create(db: Db, companyId: Id, input: CreateSiteInput, now: Time) returns (r: Result<Row<Site>>)
    modifies db`sites
    ensures !CustomerOwned(db.customers, companyId, input.customerId) ==>
              r == Failure(NotFound) && db.sites == old(db.sites)
    ensures CustomerOwned(db.customers, companyId, input.customerId) ==>
              r.Success? && r.value.id !in old(db.sites)
              && r.value.rec == Site(companyId, input.customerId, input.name, input.address, input.notes, now)
              && db.sites == old(db.sites)[r.value.id := r.value.rec]
  {
    if !CustomerOwned(db.customers, companyId, input.customerId) {
      return Failure(NotFound);
    }
    var id := FreshId(db.sites.Keys);
    var site := Site(companyId, input.customerId, input.name, input.address, input.notes, now);
    db.sites := db.sites[id := site];
    r := Success(Row(id, site));
  }

  /** Every site belongs to the company of its customer. */
  predicate SitesConsistent(sites: map<Id, Site>, customers: map<Id, Customer>) {
    forall id :: id in sites ==> CustomerOwned(customers, sites[id].companyId, sites[id].customerId)
  }

  /** A site inserted by `create` keeps every site under a customer of its own company. */
  lemma CreateKeepsSitesConsistent(sites: map<Id, Site>, customers: map<Id, Customer>, companyId: Id,
                                   input: CreateSiteInput, id: Id, now: Time)
    requires SitesConsistent(sites, customers) && CustomerOwned(customers, companyId, input.customerId)
    ensures SitesConsistent(sites[id := Site(companyId, input.customerId, input.name, input.address, input.notes, now)], customers)
  {
  }

  /** The `findAll` filter: the company's sites, of one customer when one is named. */
  predicate SiteListed(s: Site, companyId: Id, customerId: Option<Id>) {
    s.companyId == companyId && (Truthy(customerId) ==> s.customerId == customerId.value)
  }

  /** `findAll`: exactly the listed sites, each once, newest first. */
  ghost function FindAll(sites: map<Id, Site>, companyId: Id, customerId: Option<Id>): (r: seq<Row<Site>>)
    ensures forall x :: x in r <==> x.id in sites && x.rec == sites[x.id] && SiteListed(x.rec, companyId, customerId)
    ensures forall i, j :: 0 <= i < j < |r| ==> r[i].rec.createdAt >= r[j].rec.createdAt
    ensures forall i, j :: 0 <= i < j < |r| ==> r[i].id != r[j].id
  {
    Select(sites, (s: Site) => SiteListed(s, companyId, customerId), (s: Site) => (-s.createdAt, 0))
  }
}
