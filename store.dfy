/** The relational store the services work on: one record type per Prisma model
    and a `Db` object holding every table as a map from row id to record. The
    item tables of templates and reports are kept inside their parent record, as
    the ordered list of rows whose foreign key names that parent. */
module Store {
  import opened Common

  datatype Company = Company(name: string, createdAt: Time)

  datatype User = User(email: string, name: Option<string>, password: string)

  /** A `UserCompany` row; the table is keyed by (companyId, userId), its unique pair. */
  datatype Membership = Membership(role: string)

  datatype Customer = Customer(companyId: Id, name: string, createdAt: Time)

  datatype Site = Site(
    companyId: Id, customerId: Id, name: string,
    address: Option<string>, notes: Option<string>, createdAt: Time)

  datatype Asset = Asset(
    companyId: Id, siteId: Id, name: string,
    location: Option<string>, brand: Option<string>, model: Option<string>,
    serial: Option<string>, notes: Option<string>, criticality: Option<int>,
    installedAt: Option<Time>, lastServiceAt: Option<Time>, createdAt: Time)

  datatype Contact = Contact(
    companyId: Id, siteId: Id, name: string,
    email: Option<string>, phone: Option<string>, isMain: bool,
    notes: Option<string>, createdAt: Time)

  datatype ItemType = CHECK | NUMBER | TEXT | CHOICE

  /** `label` (a Dafny keyword) is `itemLabel` here; `options` is free JSON in the
      source and is carried as its serialised text. */
  datatype TemplateItem = TemplateItem(
    id: Id, itemLabel: string, itemType: ItemType, required: bool, sortOrder: int,
    unit: Option<string>, hint: Option<string>, options: Option<string>)

  datatype Template = Template(
    companyId: Id, name: string, description: Option<string>,
    intervalDays: Option<int>, isActive: bool, archivedAt: Option<Time>,
    createdAt: Time, items: seq<TemplateItem>)

  datatype ReportState = DRAFT | FINAL

  datatype ItemStatus = PENDING | OK | NOK | NA

  datatype ReportItem = ReportItem(
    id: Id, companyId: Id, templateItemId: Id, sortOrder: int,
    title: string, description: Option<string>, status: ItemStatus,
    resultNotes: Option<string>, resultValue: Option<string>)

  datatype Report = Report(
    companyId: Id, templateId: Id, templateName: string, templateDesc: Option<string>,
    createdByUserId: Id, customerId: Option<Id>, siteId: Option<Id>, assetId: Option<Id>,
    performedAt: Time, state: ReportState, summary: Option<string>, notes: Option<string>,
    finalizedAt: Option<Time>, items: seq<ReportItem>)

  datatype WorkOrderStatus = WO_DRAFT | OPEN | IN_PROGRESS | DONE | CANCELLED

  datatype WorkOrder = WorkOrder(
    companyId: Id, number: int, status: WorkOrderStatus, priority: int,
    title: string, description: Option<string>,
    scheduledAt: Option<Time>, dueAt: Option<Time>,
    customerId: Id, siteId: Option<Id>, assetId: Option<Id>, assignedToUserId: Option<Id>,
    createdByUserId: Id, createdAt: Time, updatedAt: Time)

  /** `User.email` is unique in the schema. */
  predicate EmailsUnique(users: map<Id, User>) {
    forall u, v :: u in users && v in users && users[u].email == users[v].email ==> u == v
  }

  /** Every membership names an existing company and an existing user (foreign keys). */
  predicate MembershipsLinked(memberships: map<(Id, Id), Membership>,
                              companies: map<Id, Company>, users: map<Id, User>) {
    forall k :: k in memberships ==> k.0 in companies && k.1 in users
  }

  /** Some user has exactly this email (the `findUnique({ where: { email } })` lookup). */
  predicate HasUserWithEmail(users: map<Id, User>, email: string) {
    exists id :: id in users && users[id].email == email
  }

  /** The company ids and user ids any membership row mentions. */
  function MemberCompanyIds(memberships: map<(Id, Id), Membership>): set<Id> {
    set k | k in memberships :: k.0
  }

  function MemberUserIds(memberships: map<(Id, Id), Membership>): set<Id> {
    set k | k in memberships :: k.1
  }

  /** The ids of all template items, so that new ones can be drawn fresh. */
  function TemplateItemIds(templates: map<Id, Template>): set<Id> {
    set t, i | t in templates && 0 <= i < |templates[t].items| :: templates[t].items[i].id
  }

  /** The ids of all report items. */
  function ReportItemIds(reports: map<Id, Report>): set<Id> {
    set r, i | r in reports && 0 <= i < |reports[r].items| :: reports[r].items[i].id
  }

  /** The database: every table, keyed by row id. */
  class Db {
    var companies: map<Id, Company>
    var users: map<Id, User>
    var memberships: map<(Id, Id), Membership>   // (companyId, userId) -> row
    var counters: map<Id, int>                    // companyId -> workOrderSeq
    var customers: map<Id, Customer>
    var sites: map<Id, Site>
    var assets: map<Id, Asset>
    var contacts: map<Id, Contact>
    var templates: map<Id, Template>
    var reports: map<Id, Report>
    var workOrders: map<Id, WorkOrder>

    /** The schema's constraints on the user and membership tables. */
    ghost predicate Valid()
      reads this`companies, this`users, this`memberships
    {
      EmailsUnique(users) && MembershipsLinked(memberships, companies, users)
    }

    constructor ()
      ensures Valid()
      ensures companies == map[] && users == map[] && memberships == map[] && counters == map[]
      ensures customers == map[] && sites == map[] && assets == map[] && contacts == map[]
      ensures templates == map[] && reports == map[] && workOrders == map[]
    {
      companies, users, memberships, counters := map[], map[], map[], map[];
      customers, sites, assets, contacts := map[], map[], map[], map[];
      templates, reports, workOrders := map[], map[], map[];
    }
  }

  /** `ids` are `k` distinct identifiers, none of them in `used`. */
  predicate NewIds(ids: seq<Id>, k: nat, used: set<Id>) {
    |ids| == k
    && (forall i :: 0 <= i < |ids| ==> ids[i] !in used)
    && (forall i, j :: 0 <= i < j < |ids| ==> ids[i] != ids[j])
  }

  /** Draws `k` distinct ids that are not in `used`, as the database's uuid
      default does for `k` inserted rows. */
  method FreshIds(used: set<Id>, k: nat) returns (ids: seq<Id>)
    ensures NewIds(ids, k, used)
  {
    ids := [];
    while |ids| < k
      invariant |ids| <= k
      invariant forall i :: 0 <= i < |ids| ==> ids[i] !in used
      invariant forall i, j :: 0 <= i < j < |ids| ==> ids[i] != ids[j]
    {
      var taken := used + set i | 0 <= i < |ids| :: ids[i];
      FreshIdExists(taken);
      var id :| id !in taken;
      ids := ids + [id];
    }
  }

  /** Draws one id that is not in `used`. */
  method FreshId(used: set<Id>) returns (id: Id)
    ensures id !in used
  {
    FreshIdExists(used);
    id :| id !in used;
  }
}
