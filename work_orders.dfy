/** `WorkOrdersService` (work-orders/work-orders.service.ts): work orders numbered
    per company from a counter row, listed with clamped paging, filters and a
    text search, patched field by field, and moved between statuses freely. */
module WorkOrders {
  import opened Common
  import opened Store
  import opened Listing
  import opened WorkOrderQueryDto
  import opened Sites
  import opened Assets

  datatype CreateWorkOrderInput = CreateWorkOrderInput(
    customerId: Id, title: string, description: Option<string>, priority: Option<int>,
    scheduledAt: Option<string>, dueAt: Option<string>,
    siteId: Option<Id>, assetId: Option<Id>, assignedToUserId: Option<Id>)

  /** The patch body; an absent field is `undefined`. */
  datatype UpdateWorkOrderInput = UpdateWorkOrderInput(
    title: Option<string>, description: Option<string>, customerId: Option<Id>,
    siteId: Option<Id>, assetId: Option<Id>, assignedToUserId: Option<Id>,
    priority: Option<int>, scheduledAt: Option<string>, dueAt: Option<string>)

  /** The number the counter upsert hands out: 1 for a company without a
      counter row, the stored value plus one otherwise. */
  function NextNumber(counters: map<Id, int>, companyId: Id): (n: int)
    ensures companyId !in counters ==> n == 1
    ensures companyId in counters ==> n == counters[companyId] + 1
  {
    if companyId in counters then counters[companyId] + 1 else 1
  }

  /** The numbers `k` successive creations in one company receive. */
  function Numbers(counters: map<Id, int>, companyId: Id, k: nat): (r: seq<int>)
    ensures |r| == k
    decreases k
  {
    if k == 0 then []
    else
      var n := NextNumber(counters, companyId);
      [n] + Numbers(counters[companyId := n], companyId, k - 1)
  }

  /** Successive creations are numbered consecutively from the next number on,
      so no number repeats: a fresh company gets 1, 2, 3, ... */
  lemma {:induction false} NumbersConsecutive(counters: map<Id, int>, companyId: Id, k: nat)
    ensures forall i :: 0 <= i < k ==> Numbers(counters, companyId, k)[i] == NextNumber(counters, companyId) + i
    decreases k
  {
    if k > 0 {
      var n := NextNumber(counters, companyId);
      NumbersConsecutive(counters[companyId := n], companyId, k - 1);
      assert NextNumber(counters[companyId := n], companyId) == n + 1;
    }
  }

  /** Every work order's number is at most its company's counter (so a company
      without a counter has no work orders). */
  predicate CountersAhead(workOrders: map<Id, WorkOrder>, counters: map<Id, int>) {
    forall id :: id in workOrders ==>
      workOrders[id].companyId in counters && workOrders[id].number <= counters[workOrders[id].companyId]
  }

  /** Some work order of the company already has that number. */
  predicate NumberTaken(workOrders: map<Id, WorkOrder>, companyId: Id, n: int) {
    exists id :: id in workOrders && workOrders[id].companyId == companyId && workOrders[id].number == n
  }

  /** While the counters are ahead, the next number is free, and handing it out
      keeps them ahead: the (companyId, number) constraint is never violated
      by sequential creations. */
  lemma NextNumberFree(workOrders: map<Id, WorkOrder>, counters: map<Id, int>, companyId: Id, id: Id, wo: WorkOrder)
    requires CountersAhead(workOrders, counters)
    requires wo.companyId == companyId && wo.number == NextNumber(counters, companyId)
    ensures !NumberTaken(workOrders, companyId, NextNumber(counters, companyId))
    ensures CountersAhead(workOrders[id := wo], counters[companyId := NextNumber(counters, companyId)])
  {
  }

  /** The work order `create` inserts: OPEN, priority 3 unless given, the
      counter's number, and a site, asset or assignee only when its id is
      non-empty. */
  function NewWorkOrder(companyId: Id, userId: Id, input: CreateWorkOrderInput, n: int, now: Time, parse: string -> Time): (wo: WorkOrder)
    ensures wo.status == OPEN && wo.number == n
    ensures wo.priority == input.priority.GetOr(3)
    ensures wo.companyId == companyId && wo.createdByUserId == userId && wo.customerId == input.customerId
    ensures wo.title == input.title && wo.description == input.description
    ensures wo.scheduledAt == ToDateOrNull(input.scheduledAt, parse) && wo.dueAt == ToDateOrNull(input.dueAt, parse)
    ensures wo.siteId.Some? <==> Truthy(input.siteId)
    ensures wo.assetId.Some? <==> Truthy(input.assetId)
    ensures wo.assignedToUserId.Some? <==> Truthy(input.assignedToUserId)
    ensures wo.siteId.Some? ==> wo.siteId == input.siteId
    ensures wo.assetId.Some? ==> wo.assetId == input.assetId
    ensures wo.assignedToUserId.Some? ==> wo.assignedToUserId == input.assignedToUserId
    ensures wo.createdAt == now && wo.updatedAt == now
  {
    WorkOrder(companyId, n, OPEN, input.priority.GetOr(3), input.title, input.description,
              ToDateOrNull(input.scheduledAt, parse), ToDateOrNull(input.dueAt, parse),
              input.customerId,
              if Truthy(input.siteId) then input.siteId else None,
              if Truthy(input.assetId) then input.assetId else None,
              if Truthy(input.assignedToUserId) then input.assignedToUserId else None,
              userId, now, now)
  }

  /** What the insert needs to succeed: every `connect` finds its row and the
      number is free in the company. */
  predicate Insertable(db: Db, companyId: Id, userId: Id, input: CreateWorkOrderInput, n: int)
    reads db
  {
    companyId in db.companies && userId in db.users && input.customerId in db.customers
    && (Truthy(input.siteId) ==> input.siteId.value in db.sites)
    && (Truthy(input.assetId) ==> input.assetId.value in db.assets)
    && (Truthy(input.assignedToUserId) ==> input.assignedToUserId.value in db.users)
    && !NumberTaken(db.workOrders, companyId, n)
  }

  /** `create`: in one transaction, the counter is upserted and the work order
      inserted with its value. When the insert cannot succeed the transaction
      fails and neither table changes. */
  method Create(db: Db, companyId: Id, userId: Id, input: CreateWorkOrderInput, now: Time, parse: string -> Time)
    returns (r: Result<Row<WorkOrder>>)
    modifies db`counters, db`workOrders
    ensures var n := NextNumber(old(db.counters), companyId);
      if old(Insertable(db, companyId, userId, input, n)) then
        r.Success? && r.value.id !in old(db.workOrders)
        && r.value.rec == NewWorkOrder(companyId, userId, input, n, now, parse)
        && db.workOrders == old(db.workOrders)[r.value.id := r.value.rec]
        && db.counters == old(db.counters)[companyId := n]
      else
        r == Failure(Internal) && db.workOrders == old(db.workOrders) && db.counters == old(db.counters)
    ensures old(CountersAhead(db.workOrders, db.counters)) ==> CountersAhead(db.workOrders, db.counters)
  {
    var n := NextNumber(db.counters, companyId);
    if !Insertable(db, companyId, userId, input, n) {
      return Failure(Internal);
    }
    var wo := NewWorkOrder(companyId, userId, input, n, now, parse);
    var id := FreshId(db.workOrders.Keys);
    if CountersAhead(db.workOrders, db.counters) {
      NextNumberFree(db.workOrders, db.counters, companyId, id, wo);
    }
    db.counters := db.counters[companyId := n];
    db.workOrders := db.workOrders[id := wo];
    r := Success(Row(id, wo));
  }

  /** The asset exists and belongs to the company. */
  predicate AssetOwned(assets: map<Id, Asset>, companyId: Id, assetId: Id) {
    assetId in assets && assets[assetId].companyId == companyId
  }

  /** Every row a work order links (its customer, and its site and asset when
      set) belongs to the work order's company. */
  predicate LinksOwned(workOrders: map<Id, WorkOrder>, customers: map<Id, Customer>,
                       sites: map<Id, Site>, assets: map<Id, Asset>) {
    forall id :: id in workOrders ==>
      CustomerOwned(customers, workOrders[id].companyId, workOrders[id].customerId)
      && (workOrders[id].siteId.Some? ==> SiteOwned(sites, workOrders[id].companyId, workOrders[id].siteId.value))
      && (workOrders[id].assetId.Some? ==> AssetOwned(assets, workOrders[id].companyId, workOrders[id].assetId.value))
  }

  /** The rows a creation request links belong to the caller's company. */
  predicate RequestOwned(customers: map<Id, Customer>, sites: map<Id, Site>, assets: map<Id, Asset>,
                         companyId: Id, input: CreateWorkOrderInput) {
    CustomerOwned(customers, companyId, input.customerId)
    && (Truthy(input.siteId) ==> SiteOwned(sites, companyId, input.siteId.value))
    && (Truthy(input.assetId) ==> AssetOwned(assets, companyId, input.assetId.value))
  }

  /** `create` as written links any existing customer, whatever its company:
      on a database holding one company's customer, another company's
      `create` naming that customer succeeds, and the work order of the
      second company carries the first company's customer. */
  method ForeignCustomerLinked() returns (db: Db, r: Result<Row<WorkOrder>>)
    ensures r.Success? && r.value.rec.companyId == "company-a"
    ensures r.value.rec.customerId in db.customers && db.customers[r.value.rec.customerId].companyId == "company-b"
    ensures !LinksOwned(db.workOrders, db.customers, db.sites, db.assets)
  {
    db := new Db();
    db.companies := map["company-a" := Company("A", 0), "company-b" := Company("B", 0)];
    db.users := map["user-a" := User("a@a.io", None, "secret")];
    db.customers := map["customer-b" := Customer("company-b", "Customer of B", 0)];
    var input := CreateWorkOrderInput("customer-b", "Fix pump", None, None, None, None, None, None, None);
    assert !NumberTaken(db.workOrders, "company-a", 1);
    r := Create(db, "company-a", "user-a", input, 1, (s: string) => 0);
    assert db.workOrders[r.value.id] == r.value.rec;
  }

  /** `create` with the ownership checks the other services make before they
      link a parent row: a customer, site or asset outside the caller's
      company is `NotFound` and nothing changes; otherwise `create` as above.
      Every work order then links only rows of its own company. */
  method CreateChecked(db: Db, companyId: Id, userId: Id, input: CreateWorkOrderInput, now: Time, parse: string -> Time)
    returns (r: Result<Row<WorkOrder>>)
    modifies db`counters, db`workOrders
    ensures !RequestOwned(db.customers, db.sites, db.assets, companyId, input) ==>
              r == Failure(NotFound) && db.workOrders == old(db.workOrders) && db.counters == old(db.counters)
    ensures RequestOwned(db.customers, db.sites, db.assets, companyId, input) ==>
      var n := NextNumber(old(db.counters), companyId);
      if old(Insertable(db, companyId, userId, input, n)) then
        r.Success? && r.value.id !in old(db.workOrders)
        && r.value.rec == NewWorkOrder(companyId, userId, input, n, now, parse)
        && db.workOrders == old(db.workOrders)[r.value.id := r.value.rec]
        && db.counters == old(db.counters)[companyId := n]
      else
        r == Failure(Internal) && db.workOrders == old(db.workOrders) && db.counters == old(db.counters)
    ensures old(LinksOwned(db.workOrders, db.customers, db.sites, db.assets)) ==>
              LinksOwned(db.workOrders, db.customers, db.sites, db.assets)
    ensures old(CountersAhead(db.workOrders, db.counters)) ==> CountersAhead(db.workOrders, db.counters)
  {
    if !RequestOwned(db.customers, db.sites, db.assets, companyId, input) {
      return Failure(NotFound);
    }
    r := Create(db, companyId, userId, input, now, parse);
  }

  /** `page`: at least 1, 1 by default. */
  function ClampPage(page: Option<int>): (p: int)
    ensures p >= 1
    ensures page.None? ==> p == 1
    ensures page.Some? ==> p == Max(1, page.value)
  {
    Max(1, page.GetOr(1))
  }

  /** `pageSize`: within 1..100, 20 by default. */
  function ClampPageSize(pageSize: Option<int>): (s: int)
    ensures 1 <= s <= 100
    ensures pageSize.None? ==> s == 20
    ensures pageSize.Some? && 1 <= pageSize.value <= 100 ==> s == pageSize.value
    ensures pageSize.Some? && pageSize.value > 100 ==> s == 100
    ensures pageSize.Some? && pageSize.value < 1 ==> s == 1
  {
    Min(100, Max(1, pageSize.GetOr(20)))
  }

  /** The rows skipped before a page: never negative, and a whole number of pages. */
  function Offset(page: int, pageSize: int): (skip: nat)
    requires page >= 1 && pageSize >= 1
    ensures skip == (page - 1) * pageSize
    ensures page == 1 <==> skip == 0
  {
    (page - 1) * pageSize
  }

  /** A query that satisfies the bounds of the query DTO is not changed by the clamping. */
  lemma ValidQueryUnclamped(q: WorkOrderQuery)
    requires ValidQuery(q)
    ensures ClampPage(q.page) == q.page.GetOr(1)
    ensures ClampPageSize(q.pageSize) == q.pageSize.GetOr(20)
  {
  }

  /** The search term: the trimmed query, when it is not blank. */
  function SearchTerm(q: Option<string>): (t: Option<string>)
    ensures t.Some? <==> q.Some? && !AllSpace(q.value)
    ensures t.Some? ==> t.value == Trim(q.value) && t.value != ""
  {
    if q.Some? then TrimEmptyIffAllSpace(q.value); if Trim(q.value) != "" then Some(Trim(q.value)) else None
    else None
  }

  /** The text condition: the term occurs, ignoring case, in the title or in
      a description that is set. */
  predicate TextMatches(wo: WorkOrder, q: Option<string>) {
    var term := SearchTerm(q);
    term.None? || ContainsInsensitive(wo.title, term.value)
    || (wo.description.Some? && ContainsInsensitive(wo.description.value, term.value))
  }

  /** The `where` of `list`: the company, every filter that is given non-empty,
      and the text condition. */
  predicate WorkOrderMatches(wo: WorkOrder, companyId: Id, q: WorkOrderQuery) {
    wo.companyId == companyId
    && (q.status.Some? ==> wo.status == q.status.value)
    && (Truthy(q.customerId) ==> wo.customerId == q.customerId.value)
    && (Truthy(q.siteId) ==> wo.siteId == q.siteId)
    && (Truthy(q.assetId) ==> wo.assetId == q.assetId)
    && (Truthy(q.assignedToUserId) ==> wo.assignedToUserId == q.assignedToUserId)
    && TextMatches(wo, q.q)
  }

  /** A blank search (empty or whitespace only) adds no condition. */
  lemma BlankSearchIgnored(wo: WorkOrder, companyId: Id, q: WorkOrderQuery)
    requires q.q.Some? && AllSpace(q.q.value)
    ensures WorkOrderMatches(wo, companyId, q) == WorkOrderMatches(wo, companyId, q.(q := None))
  {
  }

  /** Trimming the query first yields the same search term. */
  lemma SearchTermTrimmed(s: string)
    ensures SearchTerm(Some(Trim(s))) == SearchTerm(Some(s))
  {
    TrimIdempotent(s);
    TrimEmptyIffAllSpace(s);
    TrimEmptyIffAllSpace(Trim(s));
  }

  /** Surrounding whitespace in the search does not matter. */
  lemma SearchTrimmed(wo: WorkOrder, companyId: Id, q: WorkOrderQuery)
    requires q.q.Some?
    ensures WorkOrderMatches(wo, companyId, q) == WorkOrderMatches(wo, companyId, q.(q := Some(Trim(q.q.value))))
  {
    SearchTermTrimmed(q.q.value);
    assert TextMatches(wo, q.q) == TextMatches(wo, Some(Trim(q.q.value)));
  }

  /** The conditions of a query without its paging. */
  function Filter(q: WorkOrderQuery): (f: WorkOrderQuery)
    ensures f.page.None? && f.pageSize.None?
  {
    q.(page := None, pageSize := None)
  }

  /** Every work order the query matches, each once, most recently updated
      first: the listing that the page cuts its window from. */
  ghost function Ordered(workOrders: map<Id, WorkOrder>, companyId: Id, q: WorkOrderQuery): (r: seq<Row<WorkOrder>>)
    ensures |r| == |Matching(workOrders, (wo: WorkOrder) => WorkOrderMatches(wo, companyId, Filter(q)))|
    ensures forall x :: x in r <==> x.id in workOrders && x.rec == workOrders[x.id] && WorkOrderMatches(x.rec, companyId, q)
    ensures forall i, j :: 0 <= i < j < |r| ==> r[i].rec.updatedAt >= r[j].rec.updatedAt
    ensures forall i, j :: 0 <= i < j < |r| ==> r[i].id != r[j].id
  {
    Select(workOrders, (wo: WorkOrder) => WorkOrderMatches(wo, companyId, Filter(q)), (wo: WorkOrder) => (-wo.updatedAt, 0))
  }

  datatype WorkOrderPage = WorkOrderPage(items: seq<Row<WorkOrder>>, total: nat, page: int, pageSize: int)

  /** `list`: one page of the matching work orders, most recently updated
      first, the count of all matches under the same condition, and the
      clamped page and page size. */
  ghost function List(workOrders: map<Id, WorkOrder>, companyId: Id, q: WorkOrderQuery): (r: WorkOrderPage)
    ensures r.page == ClampPage(q.page) && r.pageSize == ClampPageSize(q.pageSize)
    ensures r.items == Page(Ordered(workOrders, companyId, q), Offset(r.page, r.pageSize), r.pageSize)
    ensures r.total == |Ordered(workOrders, companyId, q)|
    ensures |r.items| <= r.pageSize && |r.items| <= r.total
    ensures forall x :: x in r.items ==> x.id in workOrders && x.rec == workOrders[x.id] && WorkOrderMatches(x.rec, companyId, q)
    ensures forall i, j :: 0 <= i < j < |r.items| ==> r.items[i].rec.updatedAt >= r.items[j].rec.updatedAt
    ensures forall i, j :: 0 <= i < j < |r.items| ==> r.items[i].id != r.items[j].id
  {
    var page := ClampPage(q.page);
    var pageSize := ClampPageSize(q.pageSize);
    var keep := (wo: WorkOrder) => WorkOrderMatches(wo, companyId, Filter(q));
    var key := (wo: WorkOrder) => (-wo.updatedAt, 0);
    var items := SelectPage(workOrders, keep, key, Offset(page, pageSize), pageSize);
    WorkOrderPage(items, |Matching(workOrders, keep)|, page, pageSize)
  }

  /** Page `p + 1` starts one page size after page `p`. */
  lemma NextOffset(p: int, size: int)
    requires p >= 1 && size >= 1
    ensures Offset(p + 1, size) == Offset(p, size) + size
  {
    assert p * size == (p - 1) * size + size;
  }

  /** Page `p` of a listing, followed by page `p + 1`, is the double-size
      window at page `p`'s offset. */
  lemma TwoPages<T>(s: seq<T>, p: int, size: int)
    requires p >= 1 && size >= 1
    ensures Page(s, Offset(p, size), size) + Page(s, Offset(p + 1, size), size) == Page(s, Offset(p, size), 2 * size)
  {
    NextOffset(p, size);
    PagesAdjacent(s, Offset(p, size), size, size);
  }

  /** The page number does not change the ordered listing. */
  lemma OrderedIgnoresPaging(workOrders: map<Id, WorkOrder>, companyId: Id, q: WorkOrderQuery, page: Option<int>)
    ensures Ordered(workOrders, companyId, q.(page := page)) == Ordered(workOrders, companyId, q)
  {
    assert Filter(q.(page := page)) == Filter(q);
  }

  /** The items of page `p` are the window of the ordered listing at its offset. */
  lemma PageItems(workOrders: map<Id, WorkOrder>, companyId: Id, q: WorkOrderQuery, p: int)
    requires p >= 1
    ensures var size := ClampPageSize(q.pageSize);
      List(workOrders, companyId, q.(page := Some(p))).items == Page(Ordered(workOrders, companyId, q), Offset(p, size), size)
  {
    OrderedIgnoresPaging(workOrders, companyId, q, Some(p));
  }

  /** The items of pages `p` and `p + 1`, one after the other, are their two
      windows of the ordered listing. */
  lemma TwoPageItems(workOrders: map<Id, WorkOrder>, companyId: Id, q: WorkOrderQuery, p: int)
    requires p >= 1
    ensures var size := ClampPageSize(q.pageSize);
      List(workOrders, companyId, q.(page := Some(p))).items + List(workOrders, companyId, q.(page := Some(p + 1))).items
      == Page(Ordered(workOrders, companyId, q), Offset(p, size), size) + Page(Ordered(workOrders, companyId, q), Offset(p + 1, size), size)
  {
    PageItems(workOrders, companyId, q, p);
    PageItems(workOrders, companyId, q, p + 1);
  }

  /** Paging loses and repeats nothing: the items of page `p` followed by
      those of page `p + 1` are the `2 * pageSize` matches that start at page
      `p`'s offset, also on the last pages. */
  lemma {:induction false} NextPageFollows(workOrders: map<Id, WorkOrder>, companyId: Id, q: WorkOrderQuery, p: int)
    requires p >= 1
    ensures var size := ClampPageSize(q.pageSize);
      List(workOrders, companyId, q.(page := Some(p))).items + List(workOrders, companyId, q.(page := Some(p + 1))).items
      == Page(Ordered(workOrders, companyId, q), Offset(p, size), 2 * size)
  {
    TwoPageItems(workOrders, companyId, q, p);
    TwoPages(Ordered(workOrders, companyId, q), p, ClampPageSize(q.pageSize));
  }

  /** `get`: the work order with that id in the caller's company; `NotFound` otherwise. */
  function Get(workOrders: map<Id, WorkOrder>, companyId: Id, id: Id): (r: Result<Row<WorkOrder>>)
    ensures r.Success? <==> id in workOrders && workOrders[id].companyId == companyId
    ensures r.Success? ==> r.value == Row(id, workOrders[id])
    ensures r.Failure? ==> r.error == NotFound
  {
    if id in workOrders && workOrders[id].companyId == companyId then Success(Row(id, workOrders[id]))
    else Failure(NotFound)
  }

  /** The work order after `update`: exactly the fields present in the patch
      change (dates through `toDateOrNull`), and the update time moves to now. */
  function Patched(wo: WorkOrder, input: UpdateWorkOrderInput, now: Time, parse: string -> Time): (r: WorkOrder)
    ensures r.title == input.title.GetOr(wo.title)
    ensures r.description == (if input.description.Some? then input.description else wo.description)
    ensures r.priority == input.priority.GetOr(wo.priority)
    ensures r.scheduledAt == (if input.scheduledAt.Some? then ToDateOrNull(input.scheduledAt, parse) else wo.scheduledAt)
    ensures r.dueAt == (if input.dueAt.Some? then ToDateOrNull(input.dueAt, parse) else wo.dueAt)
    ensures r.customerId == input.customerId.GetOr(wo.customerId)
    ensures r.siteId == (if input.siteId.Some? then input.siteId else wo.siteId)
    ensures r.assetId == (if input.assetId.Some? then input.assetId else wo.assetId)
    ensures r.assignedToUserId == (if input.assignedToUserId.Some? then input.assignedToUserId else wo.assignedToUserId)
    ensures r.companyId == wo.companyId && r.number == wo.number && r.status == wo.status
    ensures r.createdByUserId == wo.createdByUserId && r.createdAt == wo.createdAt && r.updatedAt == now
  {
    wo.(title := input.title.GetOr(wo.title),
        description := if input.description.Some? then input.description else wo.description,
        priority := input.priority.GetOr(wo.priority),
        scheduledAt := if input.scheduledAt.Some? then ToDateOrNull(input.scheduledAt, parse) else wo.scheduledAt,
        dueAt := if input.dueAt.Some? then ToDateOrNull(input.dueAt, parse) else wo.dueAt,
        customerId := input.customerId.GetOr(wo.customerId),
        siteId := if input.siteId.Some? then input.siteId else wo.siteId,
        assetId := if input.assetId.Some? then input.assetId else wo.assetId,
        assignedToUserId := if input.assignedToUserId.Some? then input.assignedToUserId else wo.assignedToUserId,
        updatedAt := now)
  }

  /** The empty patch only refreshes the update time. */
  lemma EmptyPatchOnlyTouches(wo: WorkOrder, now: Time, parse: string -> Time)
    ensures Patched(wo, UpdateWorkOrderInput(None, None, None, None, None, None, None, None, None), now, parse)
            == wo.(updatedAt := now)
  {
  }

  /** What the update needs to succeed: every relation it reconnects exists. */
  predicate Reconnectable(db: Db, input: UpdateWorkOrderInput)
    reads db
  {
    (input.customerId.Some? ==> input.customerId.value in db.customers)
    && (input.siteId.Some? ==> input.siteId.value in db.sites)
    && (input.assetId.Some? ==> input.assetId.value in db.assets)
    && (input.assignedToUserId.Some? ==> input.assignedToUserId.value in db.users)
  }

  /** `update`: `NotFound` for a work order that is not the caller's; a failed
      reconnect fails the update; otherwise the patch is stored. Nothing
      changes on failure. */
  method Update(db: Db, companyId: Id, id: Id, input: UpdateWorkOrderInput, now: Time, parse: string -> Time)
    returns (r: Result<Row<WorkOrder>>)
    modifies db`workOrders
    ensures Get(old(db.workOrders), companyId, id).Failure? ==>
              r == Failure(NotFound) && db.workOrders == old(db.workOrders)
    ensures Get(old(db.workOrders), companyId, id).Success? && !old(Reconnectable(db, input)) ==>
              r == Failure(Internal) && db.workOrders == old(db.workOrders)
    ensures Get(old(db.workOrders), companyId, id).Success? && old(Reconnectable(db, input)) ==>
              r == Success(Row(id, Patched(old(db.workOrders)[id], input, now, parse)))
              && db.workOrders == old(db.workOrders)[id := r.value.rec]
  {
    var found := Get(db.workOrders, companyId, id);
    if found.Failure? {
      return Failure(NotFound);
    }
    if !Reconnectable(db, input) {
      return Failure(Internal);
    }
    var wo := Patched(found.value.rec, input, now, parse);
    db.workOrders := db.workOrders[id := wo];
    r := Success(Row(id, wo));
  }

  /** The rows a patch reconnects belong to the company. */
  predicate PatchOwned(customers: map<Id, Customer>, sites: map<Id, Site>, assets: map<Id, Asset>,
                       companyId: Id, input: UpdateWorkOrderInput) {
    (input.customerId.Some? ==> CustomerOwned(customers, companyId, input.customerId.value))
    && (input.siteId.Some? ==> SiteOwned(sites, companyId, input.siteId.value))
    && (input.assetId.Some? ==> AssetOwned(assets, companyId, input.assetId.value))
  }

  /** A patch whose reconnected rows belong to the work order's company keeps
      every work order's links inside its company. */
  lemma PatchKeepsLinksOwned(workOrders: map<Id, WorkOrder>, customers: map<Id, Customer>, sites: map<Id, Site>,
                             assets: map<Id, Asset>, id: Id, input: UpdateWorkOrderInput, now: Time, parse: string -> Time)
    requires LinksOwned(workOrders, customers, sites, assets) && id in workOrders
    requires PatchOwned(customers, sites, assets, workOrders[id].companyId, input)
    ensures LinksOwned(workOrders[id := Patched(workOrders[id], input, now, parse)], customers, sites, assets)
  {
  }

  /** `update` as written reconnects any existing customer, whatever its
      company: on a database whose work order links only its own company's
      rows, patching `customerId` to another company's customer succeeds and
      leaves the work order linked across companies. */
  method ForeignCustomerRelinked() returns (db: Db, ownedBefore: bool, r: Result<Row<WorkOrder>>)
    ensures ownedBefore && r.Success? && r.value.rec.companyId == "company-a"
    ensures r.value.rec.customerId in db.customers && db.customers[r.value.rec.customerId].companyId == "company-b"
    ensures !LinksOwned(db.workOrders, db.customers, db.sites, db.assets)
  {
    db := new Db();
    db.companies := map["company-a" := Company("A", 0), "company-b" := Company("B", 0)];
    db.customers := map["customer-a" := Customer("company-a", "Customer of A", 0),
                        "customer-b" := Customer("company-b", "Customer of B", 0)];
    db.workOrders := map["wo-1" := WorkOrder("company-a", 1, OPEN, 3, "Fix pump", None, None, None,
                                             "customer-a", None, None, None, "user-a", 0, 0)];
    ownedBefore := LinksOwned(db.workOrders, db.customers, db.sites, db.assets);
    var input := UpdateWorkOrderInput(None, None, Some("customer-b"), None, None, None, None, None, None);
    r := Update(db, "company-a", "wo-1", input, 1, (s: string) => 0);
    assert db.workOrders["wo-1"] == r.value.rec;
  }

  /** `update` with the ownership check `create` lacks as well: after the
      lookup, a customer, site or asset of the patch outside the caller's
      company is `NotFound` and nothing changes; otherwise `update` as above.
      Every work order then keeps links only to rows of its own company. */
  method UpdateChecked(db: Db, companyId: Id, id: Id, input: UpdateWorkOrderInput, now: Time, parse: string -> Time)
    returns (r: Result<Row<WorkOrder>>)
    modifies db`workOrders
    ensures Get(old(db.workOrders), companyId, id).Failure? ==>
              r == Failure(NotFound) && db.workOrders == old(db.workOrders)
    ensures Get(old(db.workOrders), companyId, id).Success? && !PatchOwned(db.customers, db.sites, db.assets, companyId, input) ==>
              r == Failure(NotFound) && db.workOrders == old(db.workOrders)
    ensures Get(old(db.workOrders), companyId, id).Success? && PatchOwned(db.customers, db.sites, db.assets, companyId, input)
            && !old(Reconnectable(db, input)) ==>
              r == Failure(Internal) && db.workOrders == old(db.workOrders)
    ensures Get(old(db.workOrders), companyId, id).Success? && PatchOwned(db.customers, db.sites, db.assets, companyId, input)
            && old(Reconnectable(db, input)) ==>
              r == Success(Row(id, Patched(old(db.workOrders)[id], input, now, parse)))
              && db.workOrders == old(db.workOrders)[id := r.value.rec]
    ensures old(LinksOwned(db.workOrders, db.customers, db.sites, db.assets)) ==>
              LinksOwned(db.workOrders, db.customers, db.sites, db.assets)
  {
    var found := Get(db.workOrders, companyId, id);
    if found.Failure? {
      return Failure(NotFound);
    }
    if !PatchOwned(db.customers, db.sites, db.assets, companyId, input) {
      return Failure(NotFound);
    }
    if LinksOwned(db.workOrders, db.customers, db.sites, db.assets) {
      PatchKeepsLinksOwned(db.workOrders, db.customers, db.sites, db.assets, id, input, now, parse);
    }
    r := Update(db, companyId, id, input, now, parse);
  }

  /** `setStatus`: `NotFound` for a work order that is not the caller's;
      otherwise any status is accepted from any status. */
  method SetStatus(db: Db, companyId: Id, id: Id, status: WorkOrderStatus, now: Time)
    returns (r: Result<Row<WorkOrder>>)
    modifies db`workOrders
    ensures Get(old(db.workOrders), companyId, id).Failure? ==>
              r == Failure(NotFound) && db.workOrders == old(db.workOrders)
    ensures Get(old(db.workOrders), companyId, id).Success? ==>
              r == Success(Row(id, old(db.workOrders)[id].(status := status, updatedAt := now)))
              && db.workOrders == old(db.workOrders)[id := r.value.rec]
  {
    var found := Get(db.workOrders, companyId, id);
    if found.Failure? {
      return Failure(NotFound);
    }
    var wo := found.value.rec.(status := status, updatedAt := now);
    db.workOrders := db.workOrders[id := wo];
    r := Success(Row(id, wo));
  }

  /** Creating, patching or re-statusing work orders keeps the counters ahead
      of every number. */
  lemma PatchKeepsCountersAhead(workOrders: map<Id, WorkOrder>, counters: map<Id, int>, id: Id,
                                input: UpdateWorkOrderInput, status: WorkOrderStatus, now: Time, parse: string -> Time)
    requires CountersAhead(workOrders, counters) && id in workOrders
    ensures CountersAhead(workOrders[id := Patched(workOrders[id], input, now, parse)], counters)
    ensures CountersAhead(workOrders[id := workOrders[id].(status := status, updatedAt := now)], counters)
  {
  }
}
