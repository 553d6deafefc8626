# Maintenance API services — a Dafny model

This project models the NestJS API of a multi-tenant maintenance service. It
covers the customers' sites, assets and contacts, the checklist templates, the
maintenance reports built from them, the numbered work orders, and onboarding
and login. The model shows what each service does to the database, and proves
that these operations keep the tenants apart and the report life cycle
consistent.

Every Prisma table is a `map` from row id to record, held as a field of one
`Store.Db` object:

- the item tables of templates and reports live inside their parent record, as
  an ordered list;
- each service is a module;
- an operation that writes is a `method` that modifies only the tables it
  writes;
- each such method states the whole new table in terms of the old one;
- the effect of an operation on a record is a pure function, and lemmas prove
  the life-cycle and tenancy properties about it;
- a query (`findAll`, `list`, `login`) is a ghost function. It returns the
  matching rows of the tables, each once, in the order the query's `orderBy`
  asks for; the database's order among equal keys is left unspecified.

Things the model receives rather than computes:

- a `now: Time` parameter stands for the clock;
- a `parse: string -> Time` parameter stands for `new Date(string)`;
- a set of used ids stands for the database's uuid generator (a fresh id is any
  id not yet in use).

A database transaction is all-or-nothing: the model checks first and then
commits. A `connect` to a row that does not exist, or a number already taken,
fails the transaction with `Internal`, and nothing changes.

The application registers no validation pipe (the bootstrap and the app module
install none), so the class-validator bounds of the DTOs are never enforced.
The DTO modules therefore state those bounds as predicates, and the services
accept any input of the declared shape.

- Lemmas relate the bounds to the services: `UpdateTemplateDto.EmptyItemsValid`,
  `WorkOrders.ValidQueryUnclamped` and `MaintenanceReports.ValidQueryNonEmptyPage`.
- Nowhere are the bounds a precondition of a service.

Two observations about onboarding follow from the code:

- `devUser` stores the email exactly as given, while `login` looks the user up
  by the lower-cased email. A user created by `devUser` with an upper-case letter
  in the email can therefore never log in (`Auth.MixedCaseEmailNeverLogsIn`).
- `companies.create` lower-cases the owner's email before storing it.

## Model

| member | source | states |
|---|---|---|
| Common.ToDateOrNull | apps/api/src/work-orders/work-orders.service.ts:8-10 | A date is produced exactly when the string is present and non-empty, and it is the parse of that string. |
| Common.TrimEmptyIffAllSpace | apps/api/src/work-orders/work-orders.service.ts:86-87 | `trim()` yields the empty string exactly when the string is all whitespace. |
| Common.TrimIdempotent | apps/api/src/work-orders/work-orders.service.ts:86-87 | Trimming an already trimmed search term changes nothing. |
| Listing.PagesAdjacent | apps/api/src/work-orders/work-orders.service.ts:75 | Consecutive `skip`/`take` windows join: a window followed by the window that starts where it ends is one window of both sizes, also when the first one is cut short at the end, so paging loses and repeats no row. |
| HttpHeaders.Header | apps/api/src/common/tenant.guard.ts:17-18 | `req.header(name)` is defined exactly when the header is present, and it is that header's value. |
| HttpHeaders.HeaderOrEmpty | apps/api/src/common/tenant-context.ts:28-29 | `String(req.headers[name] ?? '')`: the header's value, or the empty string when it is missing. |
| HttpHeaders.FirstValue | apps/api/src/admin/admin-key.guard.ts:10-12 | An array header yields its first element (undefined when the array is empty), a string header yields itself, and an absent header yields undefined. |
| TenantContext.GetTenant | apps/api/src/common/tenant-context.ts:18-31 | The attached tenant is returned unchanged; otherwise the loose `companyId`/`userId` fields with `role` when both are set; otherwise the two headers, empty when missing, with no role. |
| TenantContext.RoleOnlyFromGuard | apps/api/src/common/tenant-context.ts:28-30 | A resolved tenant carries a role only when a guard supplied one; the header fallback never does. |
| TenantContext.UnguardedUsesHeaders | apps/api/src/common/tenant-context.ts:28-30 | Without guard fields, the company id is the header's value, or the empty string when the header is missing. |
| TenantHeaders.GetTenant | apps/api/src/common/tenant.ts:13-21 | The attached tenant is returned unchanged; otherwise the company and user ids are taken from the headers, empty when missing, with no role. |
| TenantHeaders.AgreesWithTenantContext | apps/api/src/common/tenant.ts:13-21 | The two-level and three-level resolvers return the same tenant except when a request has loose fields and no attached tenant. |
| TenantGuard.CanActivate | apps/api/src/common/tenant.guard.ts:14-44 | A missing or empty header is `Forbidden`, and so is a pair without a membership row; the request is then untouched. Otherwise the tenant, with the role of the membership row, is attached and mirrored in the loose fields, the guard returns true, and both resolvers then return exactly that tenant. |
| AdminKeyGuard.ReadHeader | apps/api/src/admin/admin-key.guard.ts:9-13 | Reads the header under the lower-cased name: defined exactly when that header exists, and then its value. |
| AdminKeyGuard.CanActivate | apps/api/src/admin/admin-key.guard.ts:17-28 | Without a configured key every request is `Unauthorized`. A request passes (returning true) exactly when its `x-admin-key` equals the configured key, and every refusal is `Unauthorized`. |
| AdminKeyGuard.ReadHeaderIgnoresCase | apps/api/src/admin/admin-key.guard.ts:10 | The header name is matched regardless of ASCII case. |
| WorkOrderRoutes.RequireHeader | apps/api/src/work-orders/work-orders.controller.ts:18-22 | Succeeds exactly when the first value (the first array element, or the string) is present and non-empty, and returns it unchanged; otherwise it fails with a 500. |
| WorkOrderRoutes.RouteHeaders | apps/api/src/work-orders/work-orders.controller.ts:28-83 | Every route needs both tenant headers, fails with a 500 otherwise, and passes on the company id; only `create` passes on the user id. The `:id` of `get`, `update` and `setStatus` is taken as already accepted by its `ParseUUIDPipe` (lines 43, 65, 77). |
| WorkOrderRoutes.ArrayFirstElementDecides | apps/api/src/work-orders/work-orders.controller.ts:19 | For an array header, elements after the first never change the outcome. |
| CreateTemplateDto.NoItemsInvalid | apps/api/src/maintenance-templates/dto/create-maintenance-template.dto.ts:67-71 | A creation body without items is never valid (`ArrayMinSize(1)`). |
| UpdateTemplateDto.AsUpdate | apps/api/src/maintenance-templates/dto/update-maintenance-template.dto.ts:14-39 | Every valid creation body, read as a patch that sets every field, is a valid patch. |
| UpdateTemplateDto.EmptyItemsValid | apps/api/src/maintenance-templates/dto/update-maintenance-template.dto.ts:34-38 | A valid patch stays valid with an empty `items` list, whereas a creation body with empty items is invalid. |
| UpdateTemplateDto.EmptyPatchValid | apps/api/src/maintenance-templates/dto/update-maintenance-template.dto.ts:14-39 | Every field is optional: the empty patch is valid. |
| MaintenanceTemplates.BuildItems | apps/api/src/maintenance-templates/maintenance-templates.service.ts:16-24 | Builds one row per input, in input order. The item at position idx gets the given `sortOrder` or idx+1, and `required` or false; the other fields are copied. |
| MaintenanceTemplates.ValidItemsPositiveOrder | apps/api/src/maintenance-templates/maintenance-templates.service.ts:20 | When all items satisfy the DTO bounds, every stored sort order is at least 1. |
| MaintenanceTemplates.SortedItems | apps/api/src/maintenance-templates/maintenance-templates.service.ts:35 | The items as returned are a permutation of the stored rows, ordered by `sortOrder` ascending. |
| MaintenanceTemplates.DefaultOrderIsRequestOrder | apps/api/src/maintenance-templates/maintenance-templates.service.ts:20 | When no item gives a sort order, the returned items are in request order. |
| MaintenanceTemplates.NewTemplate | apps/api/src/maintenance-templates/maintenance-templates.service.ts:26-36 | The new template has the caller's company and the request's fields. It is active unless the body says otherwise and not archived, with one item per input, sorted. |
| MaintenanceTemplates.Create | apps/api/src/maintenance-templates/maintenance-templates.service.ts:15-37 | Inserts exactly one template, under a fresh id, with items under fresh distinct ids, and keeps every template's items in `sortOrder` order (`TemplatesSorted`), as the `include` with `orderBy: sortOrder` returns them. |
| MaintenanceTemplates.FindOne | apps/api/src/maintenance-templates/maintenance-templates.service.ts:50-61 | Succeeds exactly for an existing template of the caller's company, archived or not; otherwise `NotFound`. |
| MaintenanceTemplates.Patched | apps/api/src/maintenance-templates/maintenance-templates.service.ts:70-94 | Fields absent from the patch keep their values. A present `items` array, even an empty one, replaces every item, and the new count equals its length. |
| MaintenanceTemplates.EmptyPatchIdentity | apps/api/src/maintenance-templates/maintenance-templates.service.ts:74-78 | The empty patch changes nothing. |
| MaintenanceTemplates.EmptyItemsClear | apps/api/src/maintenance-templates/maintenance-templates.service.ts:79-82 | A patch with `items: []` leaves the template without items. |
| MaintenanceTemplates.Update | apps/api/src/maintenance-templates/maintenance-templates.service.ts:63-98 | A missing or foreign template is `NotFound`, with no change; otherwise only that template is replaced by its patched version. Every template's items stay in `sortOrder` order. |
| MaintenanceTemplates.Archived | apps/api/src/maintenance-templates/maintenance-templates.service.ts:103-109 | Sets `archivedAt` to now and `isActive` to false; every other field is unchanged. |
| MaintenanceTemplates.ArchiveAgain | apps/api/src/maintenance-templates/maintenance-templates.service.ts:100-110 | Archiving again only moves the archive time. |
| MaintenanceTemplates.Archive | apps/api/src/maintenance-templates/maintenance-templates.service.ts:100-110 | A missing or foreign template is `NotFound`, with no change; otherwise that template is archived in place. Every template's items stay in `sortOrder` order. |
| MaintenanceTemplates.FindAll | apps/api/src/maintenance-templates/maintenance-templates.service.ts:39-48 | Lists exactly the company's templates, each once and newest first, leaving out archived ones unless they are asked for. |
| MaintenanceTemplates.ArchivedHiddenUnlessAsked | apps/api/src/maintenance-templates/maintenance-templates.service.ts:43 | An archived template leaves the default listing, stays in the listing that includes archived templates, and is still found by id. |
| MaintenanceReports.TemplateForReport | apps/api/src/maintenance-reports/maintenance-reports.service.ts:28-33 | Succeeds exactly for a template of the caller's company that is not archived; otherwise `NotFound`. |
| MaintenanceReports.SnapshotItems | apps/api/src/maintenance-reports/maintenance-reports.service.ts:50-61 | Makes one item per template item, in order. Each is PENDING with null results, keeps the template item's sort order, and takes its label as title and its hint as description. |
| MaintenanceReports.NewReport | apps/api/src/maintenance-reports/maintenance-reports.service.ts:37-49 | The new report is a DRAFT, performed now (the request's `performedAt` is ignored), with the template's name and description frozen and the caller as creator. |
| MaintenanceReports.NewReportConsistent | apps/api/src/maintenance-reports/maintenance-reports.service.ts:37-61 | A new report satisfies the life-cycle invariant, and finalizing it at once is `BadRequest`. |
| MaintenanceReports.EmptiedTemplateHasNoItems | apps/api/src/maintenance-reports/maintenance-reports.service.ts:34-35 | After a patch with `items: []`, the template is still found for reports, but it has no items. |
| MaintenanceReports.CreateFromTemplate | apps/api/src/maintenance-reports/maintenance-reports.service.ts:25-65 | No usable template gives `NotFound`, and a template without items gives `BadRequest`; in both cases nothing is inserted. Otherwise the snapshot report is inserted under a fresh id, and the invariant is kept. When the templates' items are in `sortOrder` order (line 30), so are the new report's items. |
| MaintenanceReports.Ordered | apps/api/src/maintenance-reports/maintenance-reports.service.ts:70-85 | Every report of the caller's company that the filters match, and no other, each once, latest `performedAt` first. |
| MaintenanceReports.List | apps/api/src/maintenance-reports/maintenance-reports.service.ts:67-87 | The result is exactly the window of the ordered matches that starts at `skip` (default 0) and holds `take` of them (default 50), or fewer at the end. So it has at most `take` matching reports of the caller's company, each once, latest `performedAt` first. |
| MaintenanceReports.ConsecutivePagesJoin | apps/api/src/maintenance-reports/maintenance-reports.service.ts:78-85 | The page from `skip`, followed by the page that starts where it ends, is the window of both sizes from `skip` of the ordered matches, also at the end of the listing: paging loses and repeats nothing. |
| MaintenanceReports.DefaultWindowComplete | apps/api/src/maintenance-reports/maintenance-reports.service.ts:78-79 | Without skip and take, every match is listed when there are at most 50 matches. |
| MaintenanceReports.ValidQueryNonEmptyPage | apps/api/src/maintenance-reports/dto/list-maintenance-reports.query.ts:32-36 | With `take` at least 1, as the DTO demands, the page is non-empty whenever some match lies at or after `skip`. |
| MaintenanceReports.GetById | apps/api/src/maintenance-reports/maintenance-reports.service.ts:89-99 | Succeeds exactly for a report of the caller's company; otherwise `NotFound`. |
| MaintenanceReports.HeaderPatched | apps/api/src/maintenance-reports/maintenance-reports.service.ts:118-125 | A given summary or notes replaces the old value; a non-empty `performedAt` is parsed and replaces the old time; nothing else changes. |
| MaintenanceReports.UpdateHeader | apps/api/src/maintenance-reports/maintenance-reports.service.ts:101-127 | A missing or foreign report is `NotFound` and a FINAL report is `Conflict`, both with no change; otherwise the header is patched, and the invariant is kept. |
| MaintenanceReports.PatchItem | apps/api/src/maintenance-reports/maintenance-reports.service.ts:154-158 | Patches one item: given fields replace the old ones, absent ones are kept, and identity and snapshot fields never change. |
| MaintenanceReports.ApplyPatch | apps/api/src/maintenance-reports/maintenance-reports.service.ts:151-159 | One `updateMany` patches exactly the items whose id and company match, and leaves the others as they were. A patch without `id` matches on the company alone. |
| MaintenanceReports.PatchWithoutIdHitsAll | apps/api/src/maintenance-reports/maintenance-reports.service.ts:150-158 | A patch without `id` rewrites every item of the caller's company in the report, because Prisma drops the undefined `id` filter; a patch with an `id` leaves every other item as it was. |
| MaintenanceReports.ItemAfter | apps/api/src/maintenance-reports/maintenance-reports.service.ts:150-161 | An item that no patch addresses is unchanged, and its identity fields never change. |
| MaintenanceReports.PatchesPointwise | apps/api/src/maintenance-reports/maintenance-reports.service.ts:150-161 | The batch acts item by item: each item ends as the patches addressed to it make it (a patch without `id` addresses every item of the company). Unmatched ids do nothing, and item order is kept. |
| MaintenanceReports.LastStatusWins | apps/api/src/maintenance-reports/maintenance-reports.service.ts:150-161 | The last patch that sets an item's status decides that status. |
| MaintenanceReports.PatchesKeepSnapshot | apps/api/src/maintenance-reports/maintenance-reports.service.ts:150-161 | Patching never changes an item's id, template item, sort order or title. |
| MaintenanceReports.PatchItems | apps/api/src/maintenance-reports/maintenance-reports.service.ts:129-164 | Errors come in order: `NotFound`, then `Conflict` for a FINAL report, then `BadRequest` for a missing or empty batch, each with no change. Otherwise the whole batch is applied at once to that report only, and the invariant is kept. |
| MaintenanceReports.FinalizeOutcome | apps/api/src/maintenance-reports/maintenance-reports.service.ts:174-197 | A FINAL report comes back unchanged before any check. Otherwise no items gives `Conflict` and a PENDING item gives `BadRequest`; it succeeds exactly when the report has items and none is PENDING, becoming FINAL at now. |
| MaintenanceReports.FinalizeIdempotent | apps/api/src/maintenance-reports/maintenance-reports.service.ts:175 | Finalizing a finalized report returns it unchanged, whatever the clock says. |
| MaintenanceReports.StepsKeepConsistent | apps/api/src/maintenance-reports/maintenance-reports.service.ts:101-197 | Header patches and item patches on a DRAFT, and a successful finalize, keep a report consistent: FINAL implies it has items, none PENDING, and a finalisation time. |
| MaintenanceReports.Finalize | apps/api/src/maintenance-reports/maintenance-reports.service.ts:166-198 | A missing or foreign report is `NotFound`; otherwise the result is the finalize outcome, stored only on success, and the invariant is kept. |
| Sites.Create | apps/api/src/sites/sites.service.ts:9-27 | A customer outside the caller's company is `NotFound`, with no change; otherwise one site is inserted, with the caller's company and the given customer. |
| Sites.CreateKeepsSitesConsistent | apps/api/src/sites/sites.service.ts:11-16 | After `create`, every site still hangs under a customer of its own company. |
| Sites.FindAll | apps/api/src/sites/sites.service.ts:29-37 | Lists exactly the company's sites, filtered by a given customer, each once, newest first. |
| Assets.NewAsset | apps/api/src/assets/assets.service.ts:16-29 | The new asset has the caller's company and the given site, and copies the name, location, brand, model, serial number, notes and criticality. Each date is parsed when given non-empty and null otherwise. |
| Assets.Create | apps/api/src/assets/assets.service.ts:9-31 | A site outside the caller's company is `NotFound`, with no change; otherwise exactly one asset is inserted. |
| Assets.CreateKeepsAssetsConsistent | apps/api/src/assets/assets.service.ts:10-14 | After `create`, every asset still stands at a site of its own company. |
| Assets.FindAll | apps/api/src/assets/assets.service.ts:33-41 | Lists exactly the company's assets, filtered by a given site, each once, newest first. |
| Contacts.ClearMain | apps/api/src/contacts/contacts.service.ts:20-25 | Only the main contacts of that company and site lose `isMain`, and every other contact is untouched. |
| Contacts.NewContact | apps/api/src/contacts/contacts.service.ts:27-37 | `isMain` defaults to false. The company comes from the caller; the site, name, email, phone and notes come from the request. |
| Contacts.AfterCreate | apps/api/src/contacts/contacts.service.ts:18-38 | The table gains exactly the new contact. |
| Contacts.CreateKeepsOneMain | apps/api/src/contacts/contacts.service.ts:20-34 | At most one main contact per site is kept, and a new main contact becomes its site's only one. |
| Contacts.CreateIsLocal | apps/api/src/contacts/contacts.service.ts:22 | Contacts of other sites or companies are never touched, and a non-main creation touches no existing contact. |
| Contacts.Create | apps/api/src/contacts/contacts.service.ts:9-39 | A site outside the caller's company is `NotFound`, with no change; otherwise the transaction above runs. "At most one main contact per site" is kept. |
| Contacts.FindAll | apps/api/src/contacts/contacts.service.ts:41-49 | Lists exactly the company's contacts, filtered by a given site, each once, with main contacts first and newest first within each group. |
| WorkOrders.NextNumber | apps/api/src/work-orders/work-orders.service.ts:36-41 | The counter upsert yields 1 for a company without a counter row, and otherwise the stored value plus one. |
| WorkOrders.NumbersConsecutive | apps/api/src/work-orders/work-orders.service.ts:36-52 | Successive creations in a company get consecutive numbers, so a fresh company gets 1, 2, 3, … |
| WorkOrders.NextNumberFree | apps/api/src/work-orders/work-orders.service.ts:52 | While every counter is at or ahead of its company's numbers, the next number is free, and handing it out keeps the counters ahead. |
| WorkOrders.NewWorkOrder | apps/api/src/work-orders/work-orders.service.ts:44-65 | The new work order is OPEN with the counter's number and priority given or 3; site, asset and assignee are linked only when their id is non-empty, and dates go through `toDateOrNull`. |
| WorkOrders.Create | apps/api/src/work-orders/work-orders.service.ts:28-70 | If every `connect` finds its row, only this company's counter moves to the next number and the work order is inserted. Otherwise the transaction fails and neither the counter nor the work orders change. Counters stay ahead. |
| WorkOrders.ForeignCustomerLinked | apps/api/src/work-orders/work-orders.service.ts:50 | Shows the unchecked `connect`: one company's `create` succeeds with another company's customer. |
| WorkOrders.CreateChecked | apps/api/src/work-orders/work-orders.service.ts:44-64 | A customer, site or asset outside the caller's company is `NotFound`, with no change; otherwise it behaves as `create`. It preserves `LinksOwned`: when every work order linked only rows of its own company before, that still holds after. |
| WorkOrders.ClampPage | apps/api/src/work-orders/work-orders.service.ts:73 | The page is at least 1 and defaults to 1. |
| WorkOrders.ClampPageSize | apps/api/src/work-orders/work-orders.service.ts:74 | The page size is within 1..100 and defaults to 20. An in-range value is kept, a larger one becomes 100 and a smaller one becomes 1. |
| WorkOrders.Offset | apps/api/src/work-orders/work-orders.service.ts:75 | The offset is a non-negative whole number of pages, and it is zero exactly on page 1. |
| WorkOrders.ValidQueryUnclamped | apps/api/src/work-orders/dto/query-work-orders.dto.ts:38-49 | For a query within the DTO bounds, clamping leaves page and page size unchanged. |
| WorkOrders.SearchTerm | apps/api/src/work-orders/work-orders.service.ts:86-87 | A search term exists exactly when `q` is not blank, and it is the trimmed `q`. |
| WorkOrders.BlankSearchIgnored | apps/api/src/work-orders/work-orders.service.ts:86-92 | A blank `q` adds no condition. |
| WorkOrders.SearchTrimmed | apps/api/src/work-orders/work-orders.service.ts:86-92 | Surrounding whitespace in `q` does not change the result. |
| WorkOrders.Ordered | apps/api/src/work-orders/work-orders.service.ts:77-99 | Every work order of the company that the filters and the search match, and no other, each once, most recently updated first. |
| WorkOrders.List | apps/api/src/work-orders/work-orders.service.ts:72-111 | The items are exactly the window of the ordered matches that starts at `(page-1)*pageSize` and holds `pageSize` of them, or fewer at the end. So the page has at most `pageSize` matching work orders of the company, each once, most recently updated first. `total` counts every match, and the clamped page and size are returned. |
| WorkOrders.NextPageFollows | apps/api/src/work-orders/work-orders.service.ts:72-75 | The items of page `p` followed by those of page `p + 1` are the window of `2 * pageSize` matches from page `p`'s offset, also on the last pages: consecutive pages lose and repeat nothing. |
| WorkOrders.Get | apps/api/src/work-orders/work-orders.service.ts:113-121 | Succeeds exactly for a work order of the caller's company; otherwise `NotFound`. |
| WorkOrders.Patched | apps/api/src/work-orders/work-orders.service.ts:128-152 | Exactly the fields present in the patch change (dates through `toDateOrNull`); the company, number, status, creator and creation time never change, and the update time moves to now. |
| WorkOrders.EmptyPatchOnlyTouches | apps/api/src/work-orders/work-orders.service.ts:128-152 | The empty patch only refreshes the update time. |
| WorkOrders.Update | apps/api/src/work-orders/work-orders.service.ts:123-155 | A missing or foreign work order is `NotFound` and a failed reconnect is a 500, both with no change; otherwise only that work order is replaced by its patched version. |
| WorkOrders.PatchKeepsLinksOwned | apps/api/src/work-orders/work-orders.service.ts:140-151 | A patch that reconnects only rows of the work order's company keeps every work order's links inside its company. |
| WorkOrders.ForeignCustomerRelinked | apps/api/src/work-orders/work-orders.service.ts:140-142 | Shows the unchecked reconnect: on a database whose links are all within their companies, one company's `update` succeeds with another company's customer. |
| WorkOrders.UpdateChecked | apps/api/src/work-orders/work-orders.service.ts:123-155 | After the lookup, a reconnected customer, site or asset outside the caller's company is `NotFound`, with no change; otherwise it behaves as `update`. It preserves `LinksOwned`. |
| WorkOrders.SetStatus | apps/api/src/work-orders/work-orders.service.ts:157-165 | A missing or foreign work order is `NotFound`; otherwise any status is set from any status, and only the status and update time change. |
| WorkOrders.PatchKeepsCountersAhead | apps/api/src/work-orders/work-orders.service.ts:123-165 | Patches and status changes keep every counter at or ahead of its company's numbers. |
| Admin.DevUserRole | apps/api/src/admin/admin.service.ts:10 | The role is the given one, or "OWNER", upper-cased. |
| Admin.DevUser | apps/api/src/admin/admin.service.ts:9-86 | Reuses a company with that name, or creates one. Reuses the user with that email (only renaming it), or creates one with the email as given. Adds the membership and a counter at 0 only when they are missing, and returns the ids and the role. The schema invariants and the counters are kept. |
| Admin.SeededCounterGivesOne | apps/api/src/admin/admin.service.ts:67-78 | After the seeded counter of 0, the first work order of the company is number 1. |
| Companies.Create | apps/api/src/companies/companies.service.ts:13-56 | An owner email already taken after lower-casing is `Conflict`, and nothing is inserted. Otherwise it inserts exactly a company, an owner with the lower-cased email, and an ADMIN membership. Unique emails and linked memberships are kept. |
| Companies.OwnerEmailCaseInsensitive | apps/api/src/companies/companies.service.ts:22 | Emails that differ only in ASCII case collide on sign-up. |
| Companies.FindAll | apps/api/src/companies/companies.service.ts:58-62 | Lists every company once, newest first. |
| Companies.FindOne | apps/api/src/companies/companies.service.ts:64-68 | Returns the company with that id, or null when there is none. |
| Companies.FindByUser | apps/api/src/companies/companies.service.ts:70-77 | Lists exactly the companies the user is a member of, each once. |
| Auth.Login | apps/api/src/auth/auth.service.ts:8-30 | Succeeds exactly when a user with the lower-cased email has that password, and otherwise is `Unauthorized`. It lists one entry per membership of the user, with the company's name and the membership's role, and no company twice. |
| Auth.MixedCaseEmailNeverLogsIn | apps/api/src/auth/auth.service.ts:9-11 | A user stored with an upper-case letter in the email can never be the one who logs in. |
| Scenarios.ReportLifecycle | apps/api/src/maintenance-reports/maintenance-reports.service.ts:166-198 | Finalizing while an item is PENDING is `BadRequest`. After the item is answered, finalize succeeds; finalizing again returns the same report, and a later patch is `Conflict`. |
| Scenarios.EmptiedTemplate | apps/api/src/maintenance-reports/maintenance-reports.service.ts:34-35 | After a template update with `items: []`, creating a report from it is `BadRequest`. |
| Scenarios.OnboardingThenTwoWorkOrders | apps/api/src/work-orders/work-orders.service.ts:36-52 | After `devUser`, the company's first two work orders are numbered 1 and 2. |
| Scenarios.DevUserTwice | apps/api/src/admin/admin.service.ts:49-78 | Calling `devUser` twice returns the same ids and role, and leaves one membership and one counter at 0. |

## Left out

- `customers.service.ts` is not part of this model: it is a bare insert and list. Customers appear only as rows of the customers table.
- The related rows that `include` attaches to responses (customer, site, asset, users) are not returned. Reports and templates are returned with their items.
- The response of `archive` and of the report `list` carries no items in the source. The model returns the whole record.
- Dates are opaque timestamps. `new Date(string)` is the `parse` parameter, so an invalid date string is not modelled.
- Case folding is ASCII only, standing in for `toLowerCase`/`toUpperCase` and for the database collation of the case-insensitive `contains`.
- Query-string numbers are taken as already converted. Non-numeric or fractional `page`, `pageSize`, `skip` and `take` are not modelled, and `skip`/`take` are non-negative by type. Without a validation pipe, the `@Type(() => Number)` of the report query never runs, so a given `skip` or `take` reaches Prisma as a string. Prisma then rejects the query, and the report `list` fails with a 500 whenever either is given. `MaintenanceReports.List` describes the listing the code intends, with numbers. (`Math.max` and `Math.min` convert the work-order page numbers, so that listing is unaffected.)
- A JSON `null` in a patch body is treated like an absent field. This matches the `?? undefined` of the report services. It does not match the `!== undefined` test of the work-order `update`, which would write `null`. Nor does it match the template `update` (maintenance-templates.service.ts:74-77), which passes the fields on as they are: a `null` `description` or `intervalDays` is stored as null, and a `null` `name` or `isActive` is rejected by Prisma (a 500).
- Bodies and queries are taken to have their declared shape: required fields are present and enum fields (item `status`, report `state`, work-order `status`) hold a value of their enum. Without a validation pipe the source does not enforce this. A template creation body without `items` fails with a `TypeError` at `dto.items.map` (maintenance-templates.service.ts:16), a 500. An enum value outside the type is rejected by Prisma, also a 500. A missing item `id` in a report patch is modelled (`ItemPatch.id` is optional; see `MaintenanceReports.PatchWithoutIdHitsAll`).
- WorkOrderRoutes.RouteHeaders: does not model the `ParseUUIDPipe({ version: '4' })` on the `:id` parameter (work-orders.controller.ts:43, 65, 77). It answers a non-v4 id with a 400 before any header is read; the model takes the id as already accepted.
- The uuid, email and ISO-date formats of the DTOs are not modelled.
- Foreign keys of reports (customer, site, asset) and of report items are not checked, and neither are sites whose customer is gone. The invariants the model keeps are listed in the table above.
- Role strings are free text; no role is checked anywhere in the core.
- Concurrency is not modelled: each request runs alone, so the atomicity of the counter upsert under parallel requests is not modelled.
- Errors other than those the services raise are not modelled: a lost database connection, and Prisma errors other than a failed `connect` or a taken number.
- Auth.Login: states no order for the company entries, because `findMany` without `orderBy` gives none.
- Companies.FindByUser: states no order, for the same reason.
- Auth.Login: requires unique emails and memberships that name existing rows. The schema's constraints guarantee both, and `Store.Db.Valid` states them.
- WorkOrders.SetStatus: assumes the work order's `updatedAt` is maintained by the database (`@updatedAt`), so it moves to `now` on every update.
- WorkOrders.CreateChecked: does not check that the assignee is a member of the caller's company, because users are shared between companies.
- WorkOrders.UpdateChecked: does not check the reconnected assignee either, for the same reason.

## Findings

| source | as written | input that shows it | evidently intended | confidence | as-written member | corrected member |
|---|---|---|---|---|---|---|
| apps/api/src/work-orders/work-orders.service.ts:50 | `create` connects `dto.customerId` (and `siteId`, `assetId` at lines 60-61) by id alone, without checking that the row belongs to the caller's company | company A calls `create` with the id of company B's customer; the work order of A is created linked to B's customer | as in the sites, assets and contacts services, a customer (site, asset) outside the caller's company is `NotFound` and nothing is written | not executed | WorkOrders.ForeignCustomerLinked | WorkOrders.CreateChecked |
| apps/api/src/work-orders/work-orders.service.ts:140-151 | `update` reconnects `dto.customerId`, `siteId` and `assetId` by id alone, without checking that the row belongs to the caller's company | company A patches its own work order with `customerId` set to the id of company B's customer; the update succeeds and A's work order is linked to B's customer | a reconnected customer (site, asset) outside the caller's company is `NotFound` and nothing is written | not executed | WorkOrders.ForeignCustomerRelinked | WorkOrders.UpdateChecked |
