/** `MaintenanceTemplatesService`
    (maintenance-templates/maintenance-templates.service.ts): checklist templates
    of a company with their items, created, patched, soft-deleted and listed.
    Every read returns the items ordered by `sortOrder`; the model keeps a
    template's items in that order: each write stores them sorted, and
    `TemplatesSorted` is the invariant every write keeps. */
module MaintenanceTemplates {
  import opened Common
  import opened Store
  import opened Listing
  import opened CreateTemplateDto
  import opened UpdateTemplateDto

  /** `orderBy: { sortOrder: 'asc' }` on the items. */
  function ItemKey(it: TemplateItem): Key {
    (it.sortOrder, 0)
  }

  /** The rows `items.map((it, idx) => ...)` creates: the item at position `idx`
      gets the given sort order or `idx + 1`, `required` defaults to false, and
      the other fields are copied; `ids` are the uuids the database assigns. */
  function BuildItems(inputs: seq<ItemInput>, ids: seq<Id>): (r: seq<TemplateItem>)
    requires |ids| == |inputs|
    ensures |r| == |inputs|
    ensures forall i :: 0 <= i < |r| ==> r[i].sortOrder == inputs[i].sortOrder.GetOr(i + 1)
    ensures forall i :: 0 <= i < |r| ==> r[i].required == inputs[i].required.GetOr(false)
    ensures forall i :: 0 <= i < |r| ==>
      r[i].id == ids[i] && r[i].itemLabel == inputs[i].itemLabel && r[i].itemType == inputs[i].itemType
      && r[i].unit == inputs[i].unit && r[i].hint == inputs[i].hint && r[i].options == inputs[i].options
  {
    seq(|inputs|, i requires 0 <= i < |inputs| =>
      var it := inputs[i];
      TemplateItem(ids[i], it.itemLabel, it.itemType, it.required.GetOr(false),
                   it.sortOrder.GetOr(i + 1), it.unit, it.hint, it.options))
  }

  /** Items built from inputs that all satisfy the item bounds have positive sort orders. */
  lemma ValidItemsPositiveOrder(inputs: seq<ItemInput>, ids: seq<Id>)
    requires |ids| == |inputs| && AllItemsValid(inputs)
    ensures forall i :: 0 <= i < |inputs| ==> BuildItems(inputs, ids)[i].sortOrder >= 1
  {
  }

  /** The items in read order: sorted by `sortOrder`, the same rows. */
  function SortedItems(items: seq<TemplateItem>): (r: seq<TemplateItem>)
    ensures Sorted(r, ItemKey)
    ensures multiset(r) == multiset(items)
    ensures |r| == |items|
  {
    SortByKey(items, ItemKey)
  }

  /** When no item gives a sort order, the defaults 1, 2, 3, ... keep the items
      in the order of the request. */
  lemma {:induction false} DefaultOrderIsRequestOrder(inputs: seq<ItemInput>, ids: seq<Id>)
    requires |ids| == |inputs|
    requires forall i :: 0 <= i < |inputs| ==> inputs[i].sortOrder.None?
    ensures SortedItems(BuildItems(inputs, ids)) == BuildItems(inputs, ids)
  {
    var built := BuildItems(inputs, ids);
    assert forall i :: 0 <= i < |built| ==> built[i].sortOrder == i + 1;
    assert Sorted(built, ItemKey);
    SortSortedIdentity(built, ItemKey);
  }

  /** The template `create` inserts: the request's fields, active unless the
      request says otherwise, not archived, and its items in read order. */
  function NewTemplate(companyId: Id, input: CreateTemplateInput, now: Time, ids: seq<Id>): (t: Template)
    requires |ids| == |input.items|
    ensures t.companyId == companyId && t.name == input.name && t.description == input.description
    ensures t.intervalDays == input.intervalDays && t.createdAt == now
    ensures t.isActive == input.isActive.GetOr(true) && t.archivedAt.None?
    ensures Sorted(t.items, ItemKey) && multiset(t.items) == multiset(BuildItems(input.items, ids))
    ensures |t.items| == |input.items|
  {
    Template(companyId, input.name, input.description, input.intervalDays,
             input.isActive.GetOr(true), None, now, SortedItems(BuildItems(input.items, ids)))
  }

  /** Every template's items are stored in read order. */
  predicate TemplatesSorted(templates: map<Id, Template>) {
    forall id :: id in templates ==> Sorted(templates[id].items, ItemKey)
  }

  /** `create`: inserts the template and its items under fresh ids and returns it. */
  method Create(db: Db, companyId: Id, input: CreateTemplateInput, now: Time) returns (r: Row<Template>)
    modifies db`templates
    ensures r.id !in old(db.templates)
    ensures db.templates == old(db.templates)[r.id := r.rec]
    ensures exists ids :: NewIds(ids, |input.items|, old(TemplateItemIds(db.templates)))
                          && r.rec == NewTemplate(companyId, input, now, ids)
    ensures old(TemplatesSorted(db.templates)) ==> TemplatesSorted(db.templates)
  {
    var id := FreshId(db.templates.Keys);
    var ids := FreshIds(TemplateItemIds(db.templates), |input.items|);
    var t := NewTemplate(companyId, input, now, ids);
    db.templates := db.templates[id := t];
    r := Row(id, t);
  }

  /** `findOne`: the template with that id in the caller's company, archived or
      not; `NotFound` when it is absent or belongs to another company. */
  function FindOne(templates: map<Id, Template>, companyId: Id, id: Id): (r: Result<Row<Template>>)
    ensures r.Success? <==> id in templates && templates[id].companyId == companyId
    ensures r.Success? ==> r.value == Row(id, templates[id])
    ensures r.Failure? ==> r.error == NotFound
  {
    if id in templates && templates[id].companyId == companyId then Success(Row(id, templates[id]))
    else Failure(NotFound)
  }

  /** The template after `update`: a field that is absent from the patch keeps
      its value; an `items` array, even an empty one, replaces every item. */
  function Patched(t: Template, input: UpdateTemplateInput, ids: seq<Id>): (r: Template)
    requires input.items.Some? ==> |ids| == |input.items.value|
    ensures r.companyId == t.companyId && r.createdAt == t.createdAt && r.archivedAt == t.archivedAt
    ensures input.name.None? ==> r.name == t.name
    ensures input.name.Some? ==> r.name == input.name.value
    ensures input.description.None? ==> r.description == t.description
    ensures input.description.Some? ==> r.description == input.description
    ensures input.intervalDays.None? ==> r.intervalDays == t.intervalDays
    ensures input.intervalDays.Some? ==> r.intervalDays == input.intervalDays
    ensures input.isActive.None? ==> r.isActive == t.isActive
    ensures input.isActive.Some? ==> r.isActive == input.isActive.value
    ensures input.items.None? ==> r.items == t.items
    ensures input.items.Some? ==> |r.items| == |input.items.value| && Sorted(r.items, ItemKey)
                                  && multiset(r.items) == multiset(BuildItems(input.items.value, ids))
  {
    Template(
      t.companyId,
      input.name.GetOr(t.name),
      if input.description.Some? then input.description else t.description,
      if input.intervalDays.Some? then input.intervalDays else t.intervalDays,
      input.isActive.GetOr(t.isActive),
      t.archivedAt,
      t.createdAt,
      if input.items.Some? then SortedItems(BuildItems(input.items.value, ids)) else t.items)
  }

  /** The empty patch changes nothing. */
  lemma EmptyPatchIdentity(t: Template)
    ensures Patched(t, UpdateTemplateInput(None, None, None, None, None), []) == t
  {
  }

  /** A patch with an empty item list leaves the template without items. */
  lemma EmptyItemsClear(t: Template, input: UpdateTemplateInput)
    requires input.items == Some([])
    ensures Patched(t, input, []).items == []
  {
  }

  /** `update`: `NotFound` and no change unless the template is the caller's;
      otherwise the patched template is stored and returned. */
  method Update(db: Db, companyId: Id, id: Id, input: UpdateTemplateInput) returns (r: Result<Row<Template>>)
    modifies db`templates
    ensures FindOne(old(db.templates), companyId, id).Failure? ==>
              r == Failure(NotFound) && db.templates == old(db.templates)
    ensures FindOne(old(db.templates), companyId, id).Success? ==>
              r.Success? && r.value.id == id && db.templates == old(db.templates)[id := r.value.rec]
              && exists ids :: NewIds(ids, |input.items.GetOr([])|, old(TemplateItemIds(db.templates)))
                               && r.value.rec == Patched(old(db.templates)[id], input, ids)
    ensures old(TemplatesSorted(db.templates)) ==> TemplatesSorted(db.templates)
  {
    var found := FindOne(db.templates, companyId, id);
    if found.Failure? {
      return Failure(NotFound);
    }
    var ids := FreshIds(TemplateItemIds(db.templates), |input.items.GetOr([])|);
    var t := Patched(db.templates[id], input, ids);
    db.templates := db.templates[id := t];
    r := Success(Row(id, t));
  }

  /** The soft delete: `archivedAt` set to now, inactive, nothing else changed. */
  function Archived(t: Template, now: Time): (r: Template)
    ensures r.archivedAt == Some(now) && !r.isActive
    ensures r.(archivedAt := t.archivedAt, isActive := t.isActive) == t
  {
    t.(archivedAt := Some(now), isActive := false)
  }

  /** Archiving again succeeds and only moves the archive time. */
  lemma ArchiveAgain(t: Template, first: Time, second: Time)
    ensures Archived(Archived(t, first), second) == Archived(t, second)
  {
  }

  /** `archive`: `NotFound` and no change unless the template is the caller's;
      otherwise it is archived in place. */
  method Archive(db: Db, companyId: Id, id: Id, now: Time) returns (r: Result<Row<Template>>)
    modifies db`templates
    ensures FindOne(old(db.templates), companyId, id).Failure? ==>
              r == Failure(NotFound) && db.templates == old(db.templates)
    ensures FindOne(old(db.templates), companyId, id).Success? ==>
              r == Success(Row(id, Archived(old(db.templates)[id], now)))
              && db.templates == old(db.templates)[id := Archived(old(db.templates)[id], now)]
    ensures old(TemplatesSorted(db.templates)) ==> TemplatesSorted(db.templates)
  {
    var found := FindOne(db.templates, companyId, id);
    if found.Failure? {
      return Failure(NotFound);
    }
    var t := Archived(db.templates[id], now);
    db.templates := db.templates[id := t];
    r := Success(Row(id, t));
  }

  /** The `findAll` filter: the company's templates, the archived ones only on request. */
  predicate Listed(t: Template, companyId: Id, includeArchived: bool) {
    t.companyId == companyId && (includeArchived || t.archivedAt.None?)
  }

  /** `findAll`: exactly the listed templates, each once, newest first. */
  ghost function FindAll(templates: map<Id, Template>, companyId: Id, includeArchived: bool): (r: seq<Row<Template>>)
    ensures forall x :: x in r <==> x.id in templates && x.rec == templates[x.id] && Listed(x.rec, companyId, includeArchived)
    ensures forall i, j :: 0 <= i < j < |r| ==> r[i].rec.createdAt >= r[j].rec.createdAt
    ensures forall i, j :: 0 <= i < j < |r| ==> r[i].id != r[j].id
  {
    Select(templates, (t: Template) => Listed(t, companyId, includeArchived), (t: Template) => (-t.createdAt, 0))
  }

  /** After `archive`, the template drops out of the default listing, stays in
      the listing that includes archived templates, and is still found by id. */
  lemma ArchivedHiddenUnlessAsked(templates: map<Id, Template>, companyId: Id, id: Id, now: Time)
    requires FindOne(templates, companyId, id).Success?
    ensures var after := templates[id := Archived(templates[id], now)];
      (forall x :: x in FindAll(after, companyId, false) ==> x.id != id)
      && Row(id, after[id]) in FindAll(after, companyId, true)
      && FindOne(after, companyId, id).Success?
  {
  }
}
