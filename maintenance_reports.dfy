/** `MaintenanceReportsService`
    (maintenance-reports/maintenance-reports.service.ts): a report is a snapshot
    of a template, filled in while it is DRAFT and frozen once FINAL. Each
    operation's effect on a report is a function here; the methods check, then
    commit that effect to the reports table. */
module MaintenanceReports {
  import opened Common
  import opened Store
  import opened Listing
  import opened TenantContext
  import opened MaintenanceTemplates
  import opened UpdateTemplateDto
  import opened ReportListQueryDto

  datatype CreateReportInput = CreateReportInput(
    templateId: Id, customerId: Option<Id>, siteId: Option<Id>, assetId: Option<Id>,
    performedAt: Option<string>, notes: Option<string>)

  datatype HeaderInput = HeaderInput(performedAt: Option<string>, summary: Option<string>, notes: Option<string>)

  /** One element of the `items` array of a patch: the item's id and the fields
      to set. The id is optional because nothing enforces the DTO's `@IsUUID()`. */
  datatype ItemPatch = ItemPatch(
    id: Option<Id>, status: Option<ItemStatus>, resultNotes: Option<string>, resultValue: Option<string>)

  /** `orderBy: { sortOrder: 'asc' }` on report items. */
  function ReportItemKey(it: ReportItem): Key {
    (it.sortOrder, 0)
  }

  /** The template a report may be created from: that id, the caller's company,
      not archived; `NotFound` otherwise. */
  function TemplateForReport(templates: map<Id, Template>, companyId: Id, id: Id): (r: Result<Template>)
    ensures r.Success? <==> id in templates && templates[id].companyId == companyId && templates[id].archivedAt.None?
    ensures r.Success? ==> r.value == templates[id]
    ensures r.Failure? ==> r.error == NotFound
  {
    if id in templates && templates[id].companyId == companyId && templates[id].archivedAt.None? then
      Success(templates[id])
    else Failure(NotFound)
  }

  /** The report items copied from the template items: one per template item,
      PENDING, no results, with the item's sort order, its label as title and
      its hint as description. Items taken in sort order stay in sort order. */
  function SnapshotItems(companyId: Id, items: seq<TemplateItem>, ids: seq<Id>): (r: seq<ReportItem>)
    requires |ids| == |items|
    ensures |r| == |items|
    ensures forall i :: 0 <= i < |r| ==>
      r[i].status == PENDING && r[i].resultNotes.None? && r[i].resultValue.None?
    ensures forall i :: 0 <= i < |r| ==>
      r[i].id == ids[i] && r[i].companyId == companyId && r[i].templateItemId == items[i].id
      && r[i].sortOrder == items[i].sortOrder && r[i].title == items[i].itemLabel
      && r[i].description == items[i].hint
    ensures Sorted(items, ItemKey) ==> Sorted(r, ReportItemKey)
  {
    seq(|items|, i requires 0 <= i < |items| =>
      ReportItem(ids[i], companyId, items[i].id, items[i].sortOrder, items[i].itemLabel,
                 items[i].hint, PENDING, None, None))
  }

  /** The report `createFromTemplate` inserts: DRAFT, performed now whatever the
      request says, with the template's name and description frozen in it. */
  function NewReport(tenant: Tenant, templateId: Id, t: Template, input: CreateReportInput, now: Time, ids: seq<Id>): (r: Report)
    requires |ids| == |t.items|
    ensures r.state == DRAFT && r.finalizedAt.None? && r.summary.None?
    ensures r.performedAt == now
    ensures r.companyId == tenant.companyId && r.createdByUserId == tenant.userId && r.templateId == templateId
    ensures r.templateName == t.name && r.templateDesc == t.description
    ensures r.customerId == input.customerId && r.siteId == input.siteId && r.assetId == input.assetId
    ensures r.notes == input.notes
    ensures r.items == SnapshotItems(tenant.companyId, t.items, ids)
  {
    Report(tenant.companyId, templateId, t.name, t.description, tenant.userId,
           input.customerId, input.siteId, input.assetId, now, DRAFT, None, input.notes, None,
           SnapshotItems(tenant.companyId, t.items, ids))
  }

  /** Some item still waits for a result. */
  predicate HasPending(items: seq<ReportItem>) {
    exists i :: 0 <= i < |items| && items[i].status == PENDING
  }

  /** The lifecycle invariant: a FINAL report has items, none PENDING, and a
      finalisation time; a DRAFT report has none. */
  predicate Consistent(r: Report) {
    if r.state == FINAL then |r.items| > 0 && !HasPending(r.items) && r.finalizedAt.Some?
    else r.finalizedAt.None?
  }

  predicate AllConsistent(reports: map<Id, Report>) {
    forall id :: id in reports ==> Consistent(reports[id])
  }

  /** A new report is consistent, and it cannot be finalized before an item
      has been answered. */
  lemma NewReportConsistent(tenant: Tenant, templateId: Id, t: Template, input: CreateReportInput, now: Time, ids: seq<Id>)
    requires |ids| == |t.items| && |t.items| > 0
    ensures Consistent(NewReport(tenant, templateId, t, input, now, ids))
    ensures FinalizeOutcome(NewReport(tenant, templateId, t, input, now, ids), now) == Failure(BadRequest)
  {
    var r := NewReport(tenant, templateId, t, input, now, ids);
    assert r.items[0].status == PENDING;
  }

  /** A template whose items were replaced by an empty list can no longer be the
      source of a report: it is still found, and it has no items. */
  lemma EmptiedTemplateHasNoItems(templates: map<Id, Template>, companyId: Id, id: Id, input: UpdateTemplateInput)
    requires TemplateForReport(templates, companyId, id).Success?
    requires input.items == Some([])
    ensures var after := templates[id := Patched(templates[id], input, [])];
      TemplateForReport(after, companyId, id).Success? && TemplateForReport(after, companyId, id).value.items == []
  {
  }

  /** `createFromTemplate`: `NotFound` without a usable template, `BadRequest`
      for a template without items (nothing is created in either case),
      otherwise the snapshot report is inserted under a fresh id. */
  method CreateFromTemplate(db: Db, tenant: Tenant, input: CreateReportInput, now: Time) returns (r: Result<Row<Report>>)
    modifies db`reports
    ensures TemplateForReport(db.templates, tenant.companyId, input.templateId).Failure? ==>
              r == Failure(NotFound) && db.reports == old(db.reports)
    ensures TemplateForReport(db.templates, tenant.companyId, input.templateId).Success?
            && |db.templates[input.templateId].items| == 0 ==>
              r == Failure(BadRequest) && db.reports == old(db.reports)
    ensures TemplateForReport(db.templates, tenant.companyId, input.templateId).Success?
            && |db.templates[input.templateId].items| > 0 ==>
              r.Success? && r.value.id !in old(db.reports)
              && db.reports == old(db.reports)[r.value.id := r.value.rec]
              && exists ids :: NewIds(ids, |db.templates[input.templateId].items|, old(ReportItemIds(db.reports)))
                               && r.value.rec == NewReport(tenant, input.templateId, db.templates[input.templateId], input, now, ids)
    ensures old(AllConsistent(db.reports)) ==> AllConsistent(db.reports)
    ensures TemplatesSorted(db.templates) && r.Success? ==> Sorted(r.value.rec.items, ReportItemKey)
  {
    var template := TemplateForReport(db.templates, tenant.companyId, input.templateId);
    if template.Failure? {
      return Failure(NotFound);
    }
    var t := template.value;
    if |t.items| == 0 {
      return Failure(BadRequest);
    }
    var id := FreshId(db.reports.Keys);
    var ids := FreshIds(ReportItemIds(db.reports), |t.items|);
    var rep := NewReport(tenant, input.templateId, t, input, now, ids);
    NewReportConsistent(tenant, input.templateId, t, input, now, ids);
    db.reports := db.reports[id := rep];
    r := Success(Row(id, rep));
  }

  /** The `list` filter: the company's reports, narrowed by every id filter that
      is given non-empty and by the state when given. */
  predicate ReportMatches(r: Report, companyId: Id, q: ReportQuery) {
    r.companyId == companyId
    && (Truthy(q.assetId) ==> r.assetId == q.assetId)
    && (Truthy(q.siteId) ==> r.siteId == q.siteId)
    && (Truthy(q.customerId) ==> r.customerId == Some(q.customerId.value))
    && (Truthy(q.templateId) ==> r.templateId == q.templateId.value)
    && (q.state.Some? ==> r.state == q.state.value)
  }

  /** The conditions of a query without its paging. */
  function Filter(q: ReportQuery): (f: ReportQuery)
    ensures f.skip.None? && f.take.None?
  {
    q.(skip := None, take := None)
  }

  /** Every report the query matches, each once, latest `performedAt` first:
      the listing that `skip` and `take` cut a page from. */
  ghost function Ordered(reports: map<Id, Report>, tenant: Tenant, q: ReportQuery): (r: seq<Row<Report>>)
    ensures forall x :: x in r <==> x.id in reports && x.rec == reports[x.id] && ReportMatches(x.rec, tenant.companyId, q)
    ensures forall i, j :: 0 <= i < j < |r| ==> r[i].rec.performedAt >= r[j].rec.performedAt
    ensures forall i, j :: 0 <= i < j < |r| ==> r[i].id != r[j].id
  {
    Select(reports, (x: Report) => ReportMatches(x, tenant.companyId, Filter(q)), (x: Report) => (-x.performedAt, 0))
  }

  /** `list`: the matching reports, each once, latest `performedAt` first, from
      position `skip` (0 by default) and at most `take` of them (50 by default). */
  ghost function List(reports: map<Id, Report>, tenant: Tenant, q: ReportQuery): (r: seq<Row<Report>>)
    ensures r == Page(Ordered(reports, tenant, q), q.skip.GetOr(0), q.take.GetOr(50))
    ensures |r| <= q.take.GetOr(50)
    ensures forall x :: x in r ==> x.id in reports && x.rec == reports[x.id] && ReportMatches(x.rec, tenant.companyId, q)
    ensures forall i, j :: 0 <= i < j < |r| ==> r[i].rec.performedAt >= r[j].rec.performedAt
    ensures forall i, j :: 0 <= i < j < |r| ==> r[i].id != r[j].id
  {
    SelectPage(reports, (x: Report) => ReportMatches(x, tenant.companyId, Filter(q)), (x: Report) => (-x.performedAt, 0),
               q.skip.GetOr(0), q.take.GetOr(50))
  }

  /** The query with an explicit `skip` and `take`. */
  function AtWindow(q: ReportQuery, skip: nat, take: nat): (r: ReportQuery)
    ensures r.skip == Some(skip) && r.take == Some(take)
  {
    q.(skip := Some(skip), take := Some(take))
  }

  /** The page for an explicit `skip` and `take` is that window of the
      listing of the query's conditions. */
  lemma WindowItems(reports: map<Id, Report>, tenant: Tenant, q: ReportQuery, skip: nat, take: nat)
    ensures List(reports, tenant, AtWindow(q, skip, take)) == Page(Ordered(reports, tenant, q), skip, take)
  {
    assert Filter(AtWindow(q, skip, take)) == Filter(q);
  }

  /** The join of two consecutive windows, the second one starting at `mid`. */
  lemma WindowsJoinAt(reports: map<Id, Report>, tenant: Tenant, q: ReportQuery,
                      skip: nat, take: nat, mid: nat, take2: nat)
    requires mid == skip + take
    ensures List(reports, tenant, AtWindow(q, skip, take))
            + List(reports, tenant, AtWindow(q, mid, take2))
            == Page(Ordered(reports, tenant, q), skip, take + take2)
  {
    WindowItems(reports, tenant, q, skip, take);
    WindowItems(reports, tenant, q, mid, take2);
    JoinWindows(List(reports, tenant, AtWindow(q, skip, take)), List(reports, tenant, AtWindow(q, mid, take2)),
                Ordered(reports, tenant, q), skip, take, mid, take2);
  }

  /** Paging through the listing loses and repeats nothing: the page of `take`
      reports from `skip`, followed by the page that starts where it ends, is
      the window of both sizes together from `skip`, also at the end of the
      listing. */
  lemma {:induction false} ConsecutivePagesJoin(reports: map<Id, Report>, tenant: Tenant, q: ReportQuery,
                                                skip: nat, take: nat, take2: nat)
    ensures List(reports, tenant, AtWindow(q, skip, take))
            + List(reports, tenant, AtWindow(q, skip + take, take2))
            == Page(Ordered(reports, tenant, q), skip, take + take2)
  {
    var mid := skip + take;
    assert AtWindow(q, mid, take2) == AtWindow(q, skip + take, take2);
    WindowsJoinAt(reports, tenant, q, skip, take, mid, take2);
  }


  /** With neither `skip` nor `take`, the listing holds every match when there
      are at most 50 of them. */
  lemma DefaultWindowComplete(reports: map<Id, Report>, tenant: Tenant, q: ReportQuery, id: Id)
    requires q.skip.None? && q.take.None?
    requires |Ordered(reports, tenant, q)| <= 50
    requires id in reports && ReportMatches(reports[id], tenant.companyId, q)
    ensures Row(id, reports[id]) in List(reports, tenant, q)
  {
    var all := Ordered(reports, tenant, q);
    assert Row(id, reports[id]) in all;
    assert Page(all, 0, 50) == all;
  }

  /** A query within the bounds of the query DTO (`take` at least 1) never
      yields an empty page while some match lies at or after `skip`. */
  lemma {:induction false} ValidQueryNonEmptyPage(reports: map<Id, Report>, tenant: Tenant, q: ReportQuery)
    requires ValidQuery(q)
    requires |Ordered(reports, tenant, q)| > q.skip.GetOr(0)
    ensures |List(reports, tenant, q)| >= 1
  {
    var all := Ordered(reports, tenant, q);
    assert |Page(all, q.skip.GetOr(0), q.take.GetOr(50))| >= 1;
  }

  /** `getById`: the report with that id in the caller's company; `NotFound` otherwise. */
  function GetById(reports: map<Id, Report>, tenant: Tenant, id: Id): (r: Result<Row<Report>>)
    ensures r.Success? <==> id in reports && reports[id].companyId == tenant.companyId
    ensures r.Success? ==> r.value == Row(id, reports[id])
    ensures r.Failure? ==> r.error == NotFound
  {
    if id in reports && reports[id].companyId == tenant.companyId then Success(Row(id, reports[id]))
    else Failure(NotFound)
  }

  /** The header after `updateHeader`: a given summary or notes replaces the old
      one, a non-empty `performedAt` is parsed and replaces the old time, and
      nothing else changes. */
  function HeaderPatched(rep: Report, input: HeaderInput, parse: string -> Time): (r: Report)
    ensures input.summary.Some? ==> r.summary == input.summary
    ensures input.summary.None? ==> r.summary == rep.summary
    ensures input.notes.Some? ==> r.notes == input.notes
    ensures input.notes.None? ==> r.notes == rep.notes
    ensures Truthy(input.performedAt) ==> r.performedAt == parse(input.performedAt.value)
    ensures !Truthy(input.performedAt) ==> r.performedAt == rep.performedAt
    ensures r.(summary := rep.summary, notes := rep.notes, performedAt := rep.performedAt) == rep
  {
    rep.(summary := if input.summary.Some? then input.summary else rep.summary,
         notes := if input.notes.Some? then input.notes else rep.notes,
         performedAt := if Truthy(input.performedAt) then parse(input.performedAt.value) else rep.performedAt)
  }

  /** `updateHeader`: `NotFound` for a report that is not the caller's,
      `Conflict` for a FINAL one (no change in either case), otherwise the
      patched header is stored. */
  method UpdateHeader(db: Db, tenant: Tenant, id: Id, input: HeaderInput, parse: string -> Time) returns (r: Result<Row<Report>>)
    modifies db`reports
    ensures GetById(old(db.reports), tenant, id).Failure? ==> r == Failure(NotFound) && db.reports == old(db.reports)
    ensures GetById(old(db.reports), tenant, id).Success? && old(db.reports)[id].state == FINAL ==>
              r == Failure(Conflict) && db.reports == old(db.reports)
    ensures GetById(old(db.reports), tenant, id).Success? && old(db.reports)[id].state == DRAFT ==>
              r == Success(Row(id, HeaderPatched(old(db.reports)[id], input, parse)))
              && db.reports == old(db.reports)[id := r.value.rec]
    ensures old(AllConsistent(db.reports)) ==> AllConsistent(db.reports)
  {
    var current := GetById(db.reports, tenant, id);
    if current.Failure? {
      return Failure(NotFound);
    }
    if current.value.rec.state == FINAL {
      return Failure(Conflict);
    }
    var rep := HeaderPatched(current.value.rec, input, parse);
    db.reports := db.reports[id := rep];
    r := Success(Row(id, rep));
  }

  /** A patch addresses an item when the item belongs to the caller's company
      and the ids agree (`updateMany` where id, companyId and reportId match).
      Prisma drops a filter whose value is `undefined`, so a patch without an
      id matches on company and report alone. */
  predicate Addresses(p: ItemPatch, it: ReportItem, companyId: Id) {
    it.companyId == companyId && (p.id.Some? ==> it.id == p.id.value)
  }

  /** One item after one patch: a given status or result replaces the old one,
      an absent one leaves it. */
  function PatchItem(it: ReportItem, p: ItemPatch): (r: ReportItem)
    ensures r.(status := it.status, resultNotes := it.resultNotes, resultValue := it.resultValue) == it
    ensures r.status == p.status.GetOr(it.status)
    ensures r.resultNotes == (if p.resultNotes.Some? then p.resultNotes else it.resultNotes)
    ensures r.resultValue == (if p.resultValue.Some? then p.resultValue else it.resultValue)
  {
    it.(status := p.status.GetOr(it.status),
        resultNotes := if p.resultNotes.Some? then p.resultNotes else it.resultNotes,
        resultValue := if p.resultValue.Some? then p.resultValue else it.resultValue)
  }

  /** One `updateMany`: every addressed item patched, the others as they were. */
  function ApplyPatch(items: seq<ReportItem>, p: ItemPatch, companyId: Id): (r: seq<ReportItem>)
    ensures |r| == |items|
    ensures forall k :: 0 <= k < |items| ==>
      r[k] == if Addresses(p, items[k], companyId) then PatchItem(items[k], p) else items[k]
  {
    seq(|items|, k requires 0 <= k < |items| =>
      if Addresses(p, items[k], companyId) then PatchItem(items[k], p) else items[k])
  }

  /** A patch without an id rewrites every item of the report that belongs to
      the caller's company, and one with an id touches at most the item with
      that id. */
  lemma PatchWithoutIdHitsAll(items: seq<ReportItem>, p: ItemPatch, companyId: Id)
    ensures p.id.None? ==> forall k :: 0 <= k < |items| && items[k].companyId == companyId ==>
      ApplyPatch(items, p, companyId)[k] == PatchItem(items[k], p)
    ensures p.id.Some? ==> forall k :: 0 <= k < |items| && items[k].id != p.id.value ==>
      ApplyPatch(items, p, companyId)[k] == items[k]
  {
  }

  /** The whole batch, in order. */
  function ApplyPatches(items: seq<ReportItem>, ps: seq<ItemPatch>, companyId: Id): (r: seq<ReportItem>)
    ensures |r| == |items|
    decreases |ps|
  {
    if ps == [] then items
    else ApplyPatch(ApplyPatches(items, ps[..|ps| - 1], companyId), ps[|ps| - 1], companyId)
  }

  /** What the batch does to a single item: the patches addressed to it,
      applied in order. */
  function ItemAfter(it: ReportItem, ps: seq<ItemPatch>, companyId: Id): (r: ReportItem)
    ensures r.id == it.id && r.companyId == it.companyId && r.templateItemId == it.templateItemId
    ensures r.sortOrder == it.sortOrder && r.title == it.title && r.description == it.description
    ensures (forall i :: 0 <= i < |ps| ==> !Addresses(ps[i], it, companyId)) ==> r == it
    decreases |ps|
  {
    if ps == [] then it
    else
      var before := ItemAfter(it, ps[..|ps| - 1], companyId);
      var p := ps[|ps| - 1];
      if Addresses(p, before, companyId) then PatchItem(before, p) else before
  }

  /** The batch acts item by item: each item ends as the patches addressed to
      it make it, whatever the other items are. In particular a patch whose id
      matches no item of the report changes nothing, and item order is kept. */
  lemma {:induction false} PatchesPointwise(items: seq<ReportItem>, ps: seq<ItemPatch>, companyId: Id)
    ensures forall k :: 0 <= k < |items| ==> ApplyPatches(items, ps, companyId)[k] == ItemAfter(items[k], ps, companyId)
    decreases |ps|
  {
    if ps != [] {
      PatchesPointwise(items, ps[..|ps| - 1], companyId);
      var before := ApplyPatches(items, ps[..|ps| - 1], companyId);
      forall k | 0 <= k < |items|
        ensures ApplyPatches(items, ps, companyId)[k] == ItemAfter(items[k], ps, companyId)
      {
        assert before[k] == ItemAfter(items[k], ps[..|ps| - 1], companyId);
      }
    }
  }

  /** The last patch that sets an item's status decides it: a patch that sets
      the status of an item, followed only by patches that leave it unset,
      fixes the item's final status. */
  lemma {:induction false} LastStatusWins(it: ReportItem, ps: seq<ItemPatch>, companyId: Id, i: nat)
    requires i < |ps| && Addresses(ps[i], it, companyId) && ps[i].status.Some?
    requires forall j :: i < j < |ps| ==> ps[j].status.None?
    ensures ItemAfter(it, ps, companyId).status == ps[i].status.value
    decreases |ps|
  {
    var before := ItemAfter(it, ps[..|ps| - 1], companyId);
    if i == |ps| - 1 {
      assert Addresses(ps[i], before, companyId);
    } else {
      LastStatusWins(it, ps[..|ps| - 1], companyId, i);
    }
  }

  /** Patching keeps each item's identity and snapshot fields and the order. */
  lemma PatchesKeepSnapshot(items: seq<ReportItem>, ps: seq<ItemPatch>, companyId: Id)
    ensures var r := ApplyPatches(items, ps, companyId);
      forall k :: 0 <= k < |items| ==>
        r[k].id == items[k].id && r[k].templateItemId == items[k].templateItemId
        && r[k].sortOrder == items[k].sortOrder && r[k].title == items[k].title
  {
    PatchesPointwise(items, ps, companyId);
  }

  /** `patchItems`: `NotFound` for a report that is not the caller's, then
      `Conflict` for a FINAL report, then `BadRequest` for a missing or empty
      batch (no change in any of these); otherwise the whole batch is applied
      in one transaction and the report returned. */
  method PatchItems(db: Db, tenant: Tenant, reportId: Id, patches: Option<seq<ItemPatch>>) returns (r: Result<Row<Report>>)
    modifies db`reports
    ensures GetById(old(db.reports), tenant, reportId).Failure? ==> r == Failure(NotFound) && db.reports == old(db.reports)
    ensures GetById(old(db.reports), tenant, reportId).Success? && old(db.reports)[reportId].state == FINAL ==>
              r == Failure(Conflict) && db.reports == old(db.reports)
    ensures GetById(old(db.reports), tenant, reportId).Success? && old(db.reports)[reportId].state == DRAFT
            && (patches.None? || patches.value == []) ==>
              r == Failure(BadRequest) && db.reports == old(db.reports)
    ensures GetById(old(db.reports), tenant, reportId).Success? && old(db.reports)[reportId].state == DRAFT
            && patches.Some? && patches.value != [] ==>
              var before := old(db.reports)[reportId];
              var after := before.(items := ApplyPatches(before.items, patches.value, tenant.companyId));
              r == Success(Row(reportId, after)) && db.reports == old(db.reports)[reportId := after]
    ensures old(AllConsistent(db.reports)) ==> AllConsistent(db.reports)
  {
    var report := GetById(db.reports, tenant, reportId);
    if report.Failure? {
      return Failure(NotFound);
    }
    if report.value.rec.state == FINAL {
      return Failure(Conflict);
    }
    if patches.None? || |patches.value| == 0 {
      return Failure(BadRequest);
    }
    var ps := patches.value;
    var items := report.value.rec.items;
    var k := 0;
    while k < |ps|
      invariant 0 <= k <= |ps|
      invariant items == ApplyPatches(report.value.rec.items, ps[..k], tenant.companyId)
    {
      items := ApplyPatch(items, ps[k], tenant.companyId);
      assert ps[..k + 1][..k] == ps[..k];
      k := k + 1;
    }
    assert ps[..|ps|] == ps;
    var after := report.value.rec.(items := items);
    db.reports := db.reports[reportId := after];
    r := Success(Row(reportId, after));
  }

  /** What `finalize` does to a report: a FINAL report comes back unchanged
      before any check; otherwise `Conflict` without items, `BadRequest` with a
      PENDING item, and else the report becomes FINAL at `now`. */
  function FinalizeOutcome(rep: Report, now: Time): (r: Result<Report>)
    ensures rep.state == FINAL ==> r == Success(rep)
    ensures rep.state == DRAFT && |rep.items| == 0 ==> r == Failure(Conflict)
    ensures rep.state == DRAFT && |rep.items| > 0 && HasPending(rep.items) ==> r == Failure(BadRequest)
    ensures r.Success? <==> rep.state == FINAL || (|rep.items| > 0 && !HasPending(rep.items))
    ensures r.Success? && rep.state == DRAFT ==>
              r.value == rep.(state := FINAL, finalizedAt := Some(now))
  {
    if rep.state == FINAL then Success(rep)
    else if |rep.items| == 0 then Failure(Conflict)
    else if HasPending(rep.items) then Failure(BadRequest)
    else Success(rep.(state := FINAL, finalizedAt := Some(now)))
  }

  /** Finalizing twice is finalizing once, whatever the second clock reading. */
  lemma FinalizeIdempotent(rep: Report, first: Time, second: Time)
    requires FinalizeOutcome(rep, first).Success?
    ensures FinalizeOutcome(FinalizeOutcome(rep, first).value, second) == FinalizeOutcome(rep, first)
  {
  }

  /** Every lifecycle step keeps a report consistent. */
  lemma StepsKeepConsistent(rep: Report, input: HeaderInput, parse: string -> Time,
                            ps: seq<ItemPatch>, companyId: Id, now: Time)
    requires Consistent(rep)
    ensures rep.state == DRAFT ==> Consistent(HeaderPatched(rep, input, parse))
    ensures rep.state == DRAFT ==> Consistent(rep.(items := ApplyPatches(rep.items, ps, companyId)))
    ensures FinalizeOutcome(rep, now).Success? ==> Consistent(FinalizeOutcome(rep, now).value)
  {
  }

  /** `finalize`: `NotFound` for a report that is not the caller's; otherwise
      the outcome above, stored when it succeeds. */
  method Finalize(db: Db, tenant: Tenant, reportId: Id, now: Time) returns (r: Result<Row<Report>>)
    modifies db`reports
    ensures GetById(old(db.reports), tenant, reportId).Failure? ==> r == Failure(NotFound) && db.reports == old(db.reports)
    ensures GetById(old(db.reports), tenant, reportId).Success? ==>
              var outcome := FinalizeOutcome(old(db.reports)[reportId], now);
              (outcome.Failure? ==> r == Failure(outcome.error) && db.reports == old(db.reports))
              && (outcome.Success? ==> r == Success(Row(reportId, outcome.value))
                                       && db.reports == old(db.reports)[reportId := outcome.value])
    ensures old(AllConsistent(db.reports)) ==> AllConsistent(db.reports)
  {
    var report := GetById(db.reports, tenant, reportId);
    if report.Failure? {
      return Failure(NotFound);
    }
    var rep := report.value.rec;
    if rep.state == FINAL {
      return Success(Row(reportId, rep));
    }
    if |rep.items| == 0 {
      return Failure(Conflict);
    }
    if HasPending(rep.items) {
      return Failure(BadRequest);
    }
    var after := rep.(state := FINAL, finalizedAt := Some(now));
    db.reports := db.reports[reportId := after];
    r := Success(Row(reportId, after));
  }
}
