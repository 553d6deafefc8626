/** `AssetsService` (assets/assets.service.ts): the equipment installed at a company's sites. */
module Assets {
  import opened Common
  import opened Store
  import opened Listing

  datatype CreateAssetInput = CreateAssetInput(
    siteId: Id, name: string, location: Option<string>, brand: Option<string>,
    model: Option<string>, serial: Option<string>, notes: Option<string>,
    criticality: Option<int>, installedAt: Option<string>, lastServiceAt: Option<string>)

  /** The site exists and belongs to the caller's company. */
  predicate SiteOwned(sites: map<Id, Site>, companyId: Id, siteId: Id) {
    siteId in sites && sites[siteId].companyId == companyId
  }

  /** The asset `create` inserts: the caller's company, the given site, the
      request's fields, and the two dates parsed when given non-empty and null
      otherwise. */
  function NewAsset(companyId: Id, input: CreateAssetInput, now: Time, parse: string -> Time): (a: Asset)
    ensures a.companyId == companyId && a.siteId == input.siteId && a.name == input.name
    ensures a.installedAt.None? <==> !Truthy(input.installedAt)
    ensures a.lastServiceAt.None? <==> !Truthy(input.lastServiceAt)
    ensures a.installedAt.Some? ==> a.installedAt.value == parse(input.installedAt.value)
    ensures a.lastServiceAt.Some? ==> a.lastServiceAt.value == parse(input.lastServiceAt.value)
    ensures a.location == input.location && a.brand == input.brand && a.model == input.model
    ensures a.serial == input.serial && a.notes == input.notes
    ensures a.criticality == input.criticality && a.createdAt == now
  {
    Asset(companyId, input.siteId, input.name, input.location, input.brand, input.model,
          input.serial, input.notes, input.criticality,
          ToDateOrNull(input.installedAt, parse), ToDateOrNull(input.lastServiceAt, parse), now)
  }

  /** `create`: `NotFound` and no change when the site is not the caller's;
      otherwise the new asset is inserted. */
  method Create(db: Db, companyId: Id, input: CreateAssetInput, now: Time, parse: string -> Time) returns (r: Result<Row<Asset>>)
    modifies db`assets
    ensures !SiteOwned(db.sites, companyId, input.siteId) ==>
              r == Failure(NotFound) && db.assets == old(db.assets)
    ensures SiteOwned(db.sites, companyId, input.siteId) ==>
              r.Success? && r.value.id !in old(db.assets)
              && r.value.rec == NewAsset(companyId, input, now, parse)
              && db.assets == old(db.assets)[r.value.id := r.value.rec]
  {
    if !SiteOwned(db.sites, companyId, input.siteId) {
      return Failure(NotFound);
    }
    var id := FreshId(db.assets.Keys);
    var asset := NewAsset(companyId, input, now, parse);
    db.assets := db.assets[id := asset];
    r := Success(Row(id, asset));
  }

  /** Every asset stands at a site of its own company. */
  predicate AssetsConsistent(assets: map<Id, Asset>, sites: map<Id, Site>) {
    forall id :: id in assets ==> SiteOwned(sites, assets[id].companyId, assets[id].siteId)
  }

  /** An asset inserted by `create` keeps every asset at a site of its own company. */
  lemma CreateKeepsAssetsConsistent(assets: map<Id, Asset>, sites: map<Id, Site>, companyId: Id,
                                    input: CreateAssetInput, id: Id, now: Time, parse: string -> Time)
    requires AssetsConsistent(assets, sites) && SiteOwned(sites, companyId, input.siteId)
    ensures AssetsConsistent(assets[id := NewAsset(companyId, input, now, parse)], sites)
  {
  }

  /** The `findAll` filter: the company's assets, of one site when one is named. */
  predicate AssetListed(a: Asset, companyId: Id, siteId: Option<Id>) {
    a.companyId == companyId && (Truthy(siteId) ==> a.siteId == siteId.value)
  }

  /** `findAll`: exactly the listed assets, each once, newest first. */
  ghost function FindAll(assets: map<Id, Asset>, companyId: Id, siteId: Option<Id>): (r: seq<Row<Asset>>)
    ensures forall x :: x in r <==> x.id in assets && x.rec == assets[x.id] && AssetListed(x.rec, companyId, siteId)
    ensures forall i, j :: 0 <= i < j < |r| ==> r[i].rec.createdAt >= r[j].rec.createdAt
    ensures forall i, j :: 0 <= i < j < |r| ==> r[i].id != r[j].id
  {
    Select(assets, (a: Asset) => AssetListed(a, companyId, siteId), (a: Asset) => (-a.createdAt, 0))
  }
}
