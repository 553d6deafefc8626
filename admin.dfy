/** `AdminService.devUser` (admin/admin.service.ts): the development shortcut that
    makes sure a company, a user, their membership and the company's work-order
    counter exist, creating only what is missing, in one transaction. */
module Admin {
  import opened Common
  import opened Store
  import opened WorkOrders

  datatype DevUserInput = DevUserInput(
    companyName: string, userName: string, email: string, password: string, role: Option<string>)

  datatype DevUserResult = DevUserResult(companyId: Id, userId: Id, role: string)

  /** `(dto.role ?? 'OWNER').toUpperCase()`. */
  function DevUserRole(role: Option<string>): (r: string)
    ensures role.None? ==> r == "OWNER"
    ensures role.Some? ==> |r| == |role.value| && forall k :: 0 <= k < |r| ==> r[k] == UpperChar(role.value[k])
    ensures forall k :: 0 <= k < |r| ==> !('a' <= r[k] <= 'z')
  {
    var r := ToUpper(role.GetOr("OWNER"));
    assert role.None? ==> r == "OWNER";
    r
  }

  predicate HasCompanyNamed(companies: map<Id, Company>, name: string) {
    exists id :: id in companies && companies[id].name == name
  }

  /** `devUser`: reuses a company with that name (any one of them, as
      `findFirst` does) or creates it; reuses the user with that email, only
      renaming it, or creates it with the email exactly as given; adds the
      membership with the upper-cased role and the counter at 0 only when they
      are missing; returns the ids and the role. */
  method DevUser(db: Db, input: DevUserInput, now: Time) returns (r: DevUserResult)
    modifies db`companies, db`users, db`memberships, db`counters
    ensures r.role == DevUserRole(input.role)
    ensures old(HasCompanyNamed(db.companies, input.companyName)) ==>
              r.companyId in old(db.companies) && old(db.companies)[r.companyId].name == input.companyName
              && db.companies == old(db.companies)
    ensures !old(HasCompanyNamed(db.companies, input.companyName)) ==>
              r.companyId !in old(db.companies) && r.companyId !in old(MemberCompanyIds(db.memberships))
              && db.companies == old(db.companies)[r.companyId := Company(input.companyName, now)]
    ensures old(HasUserWithEmail(db.users, input.email)) ==>
              r.userId in old(db.users) && old(db.users)[r.userId].email == input.email
              && db.users == old(db.users)[r.userId := old(db.users)[r.userId].(name := Some(input.userName))]
    ensures !old(HasUserWithEmail(db.users, input.email)) ==>
              r.userId !in old(db.users) && r.userId !in old(MemberUserIds(db.memberships))
              && db.users == old(db.users)[r.userId := User(input.email, Some(input.userName), input.password)]
    ensures db.memberships == if (r.companyId, r.userId) in old(db.memberships) then old(db.memberships)
                              else old(db.memberships)[(r.companyId, r.userId) := Membership(r.role)]
    ensures db.counters == if r.companyId in old(db.counters) then old(db.counters)
                           else old(db.counters)[r.companyId := 0]
    ensures old(db.Valid()) ==> db.Valid()
    ensures old(CountersAhead(db.workOrders, db.counters)) ==> CountersAhead(db.workOrders, db.counters)
  {
    var role := DevUserRole(input.role);

    var companyId: Id;
    if HasCompanyNamed(db.companies, input.companyName) {
      companyId :| companyId in db.companies && db.companies[companyId].name == input.companyName;
    } else {
      companyId := FreshId(db.companies.Keys + MemberCompanyIds(db.memberships));
      db.companies := db.companies[companyId := Company(input.companyName, now)];
    }

    var userId: Id;
    if HasUserWithEmail(db.users, input.email) {
      userId :| userId in db.users && db.users[userId].email == input.email;
      db.users := db.users[userId := db.users[userId].(name := Some(input.userName))];
    } else {
      userId := FreshId(db.users.Keys + MemberUserIds(db.memberships));
      db.users := db.users[userId := User(input.email, Some(input.userName), input.password)];
    }

    if (companyId, userId) !in db.memberships {
      db.memberships := db.memberships[(companyId, userId) := Membership(role)];
    }

    if companyId !in db.counters {
      db.counters := db.counters[companyId := 0];
    }

    r := DevUserResult(companyId, userId, role);
  }

  /** The counter `devUser` seeds makes the company's first work order number 1. */
  lemma SeededCounterGivesOne(counters: map<Id, int>, companyId: Id)
    ensures NextNumber(counters[companyId := 0], companyId) == 1
  {
  }
}
