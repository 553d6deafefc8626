/** Client code driving the services end to end on an empty database: the
    report lifecycle, work-order numbering after onboarding, the template
    patch that empties a template, and a repeated `devUser`. */
module Scenarios {
  import opened Common
  import opened Store
  import opened Listing
  import opened TenantContext
  import opened CreateTemplateDto
  import opened UpdateTemplateDto
  import MaintenanceTemplates
  import opened MaintenanceReports
  import WorkOrders
  import opened Admin

  /** A one-item template, instantiated as a report: the report cannot be
      finalized while its item is PENDING; once the item is answered it is
      finalized, finalizing again returns it unchanged, and it can no longer
      be patched. */
  method ReportLifecycle() returns (early: Result<Row<Report>>, done: Result<Row<Report>>,
                                    again: Result<Row<Report>>, late: Result<Row<Report>>)
    ensures early == Failure(BadRequest)
    ensures done.Success? && done.value.rec.state == FINAL && done.value.rec.finalizedAt == Some(3)
    ensures again == done
    ensures late == Failure(Conflict)
  {
    var db := new Db();
    var tenant := Tenant("company-1", "user-1", Some("OWNER"));
    var item := ItemInput("Pressure within range", CHECK, None, None, None, Some("0.8 to 1.2 bar"), None);
    var template := MaintenanceTemplates.Create(db, "company-1", CreateTemplateInput("Monthly boiler check", None, Some(30), None, [item]), 0);
    assert |template.rec.items| == 1;
    var report := CreateFromTemplate(db, tenant, CreateReportInput(template.id, None, None, None, None, None), 1);
    var reportId := report.value.id;
    assert report.value.rec.items[0].status == PENDING;

    early := Finalize(db, tenant, reportId, 2);

    var itemId := report.value.rec.items[0].id;
    var patch := ItemPatch(Some(itemId), Some(OK), None, None);
    var patched := PatchItems(db, tenant, reportId, Some([patch]));
    assert [patch][..0] == [];
    var items := db.reports[reportId].items;
    assert |items| == 1 && items[0].status == OK;
    assert !HasPending(items);

    done := Finalize(db, tenant, reportId, 3);
    again := Finalize(db, tenant, reportId, 4);
    late := PatchItems(db, tenant, reportId, Some([ItemPatch(Some(itemId), Some(NOK), None, None)]));
  }

  /** A patch with an empty item list empties the template, and a report can no
      longer be created from it. */
  method EmptiedTemplate() returns (r: Result<Row<Report>>)
    ensures r == Failure(BadRequest)
  {
    var db := new Db();
    var tenant := Tenant("company-1", "user-1", None);
    var item := ItemInput("Filter clean", CHECK, Some(true), Some(1), None, None, None);
    var template := MaintenanceTemplates.Create(db, "company-1", CreateTemplateInput("Filters", None, None, None, [item]), 0);
    var updated := MaintenanceTemplates.Update(db, "company-1", template.id, UpdateTemplateInput(None, None, None, None, Some([])));
    assert db.templates[template.id].items == [];
    r := CreateFromTemplate(db, tenant, CreateReportInput(template.id, None, None, None, None, None), 1);
  }

  /** After onboarding with `devUser`, the company's first two work orders are
      numbered 1 and 2. */
  method OnboardingThenTwoWorkOrders() returns (first: int, second: int)
    ensures first == 1 && second == 2
  {
    var db := new Db();
    var dev := DevUser(db, DevUserInput("Acme", "Ana", "ana@acme.io", "pass", None), 0);
    db.customers := db.customers["customer-1" := Customer(dev.companyId, "Hotel Central", 0)];
    var input := WorkOrders.CreateWorkOrderInput("customer-1", "Boiler noise", None, None, None, None, None, None, None);
    var parse := (s: string) => 0;
    assert !WorkOrders.NumberTaken(db.workOrders, dev.companyId, 1);
    var a := WorkOrders.Create(db, dev.companyId, dev.userId, input, 1, parse);
    assert !WorkOrders.NumberTaken(db.workOrders, dev.companyId, 2);
    var b := WorkOrders.Create(db, dev.companyId, dev.userId, input, 2, parse);
    first := a.value.rec.number;
    second := b.value.rec.number;
  }

  /** `devUser` twice with the same request: the same ids and role, one
      membership and one counter row at 0. */
  method DevUserTwice() returns (db: Db, first: DevUserResult, second: DevUserResult)
    ensures first == second
    ensures db.memberships.Keys == {(first.companyId, first.userId)}
    ensures db.counters == map[first.companyId := 0]
    ensures first.role == "TECH"
  {
    db := new Db();
    var input := DevUserInput("Acme", "Ana", "ana@acme.io", "pass", Some("tech"));
    first := DevUser(db, input, 0);
    second := DevUser(db, input, 1);
    assert "TECH" == ToUpper("tech");
  }
}
