/** `CompaniesService` (companies/companies.service.ts): sign-up of a company
    with its owner, and the company listings. */
module Companies {
  import opened Common
  import opened Store
  import opened Listing

  datatype CreateCompanyInput = CreateCompanyInput(
    companyName: string, ownerEmail: string, ownerName: Option<string>, ownerPassword: string)

  datatype CreatedCompany = CreatedCompany(companyId: Id, ownerUserId: Id)

  /** `create`: in one transaction the company, its owner (email lower-cased) and
      an ADMIN membership are inserted. An owner email already in use makes the
      unique constraint fail: `Conflict`, and nothing is inserted. */
  method Create(db: Db, input: CreateCompanyInput, now: Time) returns (r: Result<CreatedCompany>)
    modifies db`companies, db`users, db`memberships
    ensures HasUserWithEmail(old(db.users), ToLower(input.ownerEmail)) ==>
              r == Failure(Conflict) && db.companies == old(db.companies)
              && db.users == old(db.users) && db.memberships == old(db.memberships)
    ensures !HasUserWithEmail(old(db.users), ToLower(input.ownerEmail)) ==>
              r.Success? && r.value.companyId !in old(db.companies) && r.value.ownerUserId !in old(db.users)
              && db.companies == old(db.companies)[r.value.companyId := Company(input.companyName, now)]
              && db.users == old(db.users)[r.value.ownerUserId := User(ToLower(input.ownerEmail), input.ownerName, input.ownerPassword)]
              && db.memberships == old(db.memberships)[(r.value.companyId, r.value.ownerUserId) := Membership("ADMIN")]
    ensures old(db.Valid()) ==> db.Valid()
  {
    var email := ToLower(input.ownerEmail);
    if HasUserWithEmail(db.users, email) {
      return Failure(Conflict);
    }
    var companyId := FreshId(db.companies.Keys + MemberCompanyIds(db.memberships));
    var userId := FreshId(db.users.Keys + MemberUserIds(db.memberships));
    db.companies := db.companies[companyId := Company(input.companyName, now)];
    db.users := db.users[userId := User(email, input.ownerName, input.ownerPassword)];
    db.memberships := db.memberships[(companyId, userId) := Membership("ADMIN")];
    r := Success(CreatedCompany(companyId, userId));
  }

  /** An owner email differing only in ASCII case from a stored (lower-case)
      email is the same email to `create`. */
  lemma OwnerEmailCaseInsensitive(users: map<Id, User>, a: string, b: string)
    requires ToLower(a) == ToLower(b)
    ensures HasUserWithEmail(users, ToLower(a)) == HasUserWithEmail(users, ToLower(b))
  {
  }

  /** `findAll`: every company once, newest first. */
  ghost function FindAll(companies: map<Id, Company>): (r: seq<Row<Company>>)
    ensures forall x :: x in r <==> x.id in companies && x.rec == companies[x.id]
    ensures forall i, j :: 0 <= i < j < |r| ==> r[i].rec.createdAt >= r[j].rec.createdAt
    ensures forall i, j :: 0 <= i < j < |r| ==> r[i].id != r[j].id
  {
    Select(companies, (c: Company) => true, (c: Company) => (-c.createdAt, 0))
  }

  /** `findOne`: the company with that id, or null. */
  function FindOne(companies: map<Id, Company>, id: Id): (r: Option<Row<Company>>)
    ensures r.Some? <==> id in companies
    ensures r.Some? ==> r.value == Row(id, companies[id])
  {
    if id in companies then Some(Row(id, companies[id])) else None
  }

  /** `findByUser`: the companies the user is a member of, each once. */
  ghost function FindByUser(memberships: map<(Id, Id), Membership>, companies: map<Id, Company>, userId: Id): (r: seq<Row<Company>>)
    ensures forall x :: x in r <==> x.id in companies && (x.id, userId) in memberships && x.rec == companies[x.id]
    ensures forall i, j :: 0 <= i < j < |r| ==> r[i].id != r[j].id
  {
    var mine := map id | id in companies && (id, userId) in memberships :: companies[id];
    Select(mine, (c: Company) => true, (c: Company) => (0, 0))
  }
}
