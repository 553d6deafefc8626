/** `AuthService.login` (auth/auth.service.ts): email and password check and the
    caller's companies. */
module Auth {
  import opened Common
  import opened Store
  import opened Listing

  /** One element of `companies` in the answer. */
  datatype CompanyEntry = CompanyEntry(companyId: Id, name: string, role: string)

  datatype LoginResult = LoginResult(userId: Id, companies: seq<CompanyEntry>)

  /** The entry of each membership of the user. */
  function Entries(memberships: map<(Id, Id), Membership>, companies: map<Id, Company>, userId: Id): set<CompanyEntry> {
    set id | id in companies && (id, userId) in memberships ::
      CompanyEntry(id, companies[id].name, memberships[(id, userId)].role)
  }

  /** `login`: the user whose email is the lower-cased input, if the stored
      password equals the given one; otherwise `Unauthorized`. The answer lists
      one entry per membership, with the company's name and the role. The
      database guarantees unique emails and memberships that name existing rows. */
  ghost function Login(users: map<Id, User>, memberships: map<(Id, Id), Membership>, companies: map<Id, Company>,
                       email: string, password: string): (r: Result<LoginResult>)
    requires EmailsUnique(users) && MembershipsLinked(memberships, companies, users)
    ensures r.Success? <==> exists id :: id in users && users[id].email == ToLower(email) && users[id].password == password
    ensures r.Failure? ==> r.error == Unauthorized
    ensures r.Success? ==> r.value.userId in users && users[r.value.userId].email == ToLower(email)
    ensures r.Success? ==> forall e :: e in r.value.companies <==>
              (e.companyId, r.value.userId) in memberships && e.name == companies[e.companyId].name
              && e.role == memberships[(e.companyId, r.value.userId)].role
    ensures r.Success? ==> forall i, j :: 0 <= i < j < |r.value.companies| ==>
              r.value.companies[i].companyId != r.value.companies[j].companyId
  {
    if !HasUserWithEmail(users, ToLower(email)) then Failure(Unauthorized)
    else
      var id :| id in users && users[id].email == ToLower(email);
      if users[id].password != password then Failure(Unauthorized)
      else
        var entries := Entries(memberships, companies, id);
        var list := SeqOfSet(entries);
        assert forall e :: e in list <==> e in entries by {
          forall e ensures e in list <==> e in entries {
            assert e in list <==> e in multiset(list);
          }
        }
        DistinctCompanies(list, entries, memberships, companies, id);
        Success(LoginResult(id, list))
  }

  lemma DistinctCompanies(list: seq<CompanyEntry>, entries: set<CompanyEntry>,
                          memberships: map<(Id, Id), Membership>, companies: map<Id, Company>, userId: Id)
    requires entries == Entries(memberships, companies, userId)
    requires multiset(list) == multiset(entries)
    ensures forall i, j :: 0 <= i < j < |list| ==> list[i].companyId != list[j].companyId
  {
    forall i, j | 0 <= i < j < |list| ensures list[i].companyId != list[j].companyId {
      assert list[i] in multiset(list) && list[j] in multiset(list);
      if list[i].companyId == list[j].companyId {
        assert list[i] == list[j];
        CountedTwice(list, i, j);
        assert false;
      }
    }
  }

  /** The lookup ignores the case of the given email. A user stored with an
      upper-case letter in the email (as `devUser` stores it, unlike company
      sign-up) can therefore never log in. */
  lemma MixedCaseEmailNeverLogsIn(users: map<Id, User>, memberships: map<(Id, Id), Membership>,
                                  companies: map<Id, Company>, id: Id, email: string, password: string)
    requires EmailsUnique(users) && MembershipsLinked(memberships, companies, users)
    requires id in users && users[id].email != ToLower(users[id].email)
    ensures var r := Login(users, memberships, companies, email, password);
      r.Success? ==> r.value.userId != id
  {
    ToLowerIdempotent(email);
  }
}
