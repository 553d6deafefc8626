/** `ContactsService` (contacts/contacts.service.ts): the people to call at a
    site, at most one of them the site's main contact. */
module Contacts {
  import opened Common
  import opened Store
  import opened Listing
  import opened Assets

  datatype CreateContactInput = CreateContactInput(
    siteId: Id, name: string, email: Option<string>, phone: Option<string>,
    isMain: Option<bool>, notes: Option<string>)

  /** No two main contacts share a company and a site. */
  predicate AtMostOneMain(contacts: map<Id, Contact>) {
    forall a, b ::
      (a in contacts && b in contacts && contacts[a].isMain && contacts[b].isMain
       && contacts[a].companyId == contacts[b].companyId && contacts[a].siteId == contacts[b].siteId)
      ==> a == b
  }

  /** The `updateMany` that retires the main contact of one site of one company:
      those rows lose `isMain`, every other row stays as it was. */
  function ClearMain(contacts: map<Id, Contact>, companyId: Id, siteId: Id): (r: map<Id, Contact>)
    ensures r.Keys == contacts.Keys
    ensures forall id :: id in r ==> r[id].(isMain := contacts[id].isMain) == contacts[id]
    ensures forall id :: id in r && (contacts[id].companyId != companyId || contacts[id].siteId != siteId) ==>
              r[id] == contacts[id]
    ensures forall id :: id in r && r[id].companyId == companyId && r[id].siteId == siteId ==> !r[id].isMain
  {
    map id | id in contacts ::
      if contacts[id].companyId == companyId && contacts[id].siteId == siteId && contacts[id].isMain
      then contacts[id].(isMain := false) else contacts[id]
  }

  function NewContact(companyId: Id, input: CreateContactInput, now: Time): (c: Contact)
    ensures c.isMain == input.isMain.GetOr(false)
    ensures c.companyId == companyId && c.siteId == input.siteId && c.name == input.name && c.createdAt == now
    ensures c.email == input.email && c.phone == input.phone && c.notes == input.notes
  {
    Contact(companyId, input.siteId, input.name, input.email, input.phone, input.isMain.GetOr(false), input.notes, now)
  }

  /** The contacts table after the transaction of `create` inserts the new contact under `id`. */
  function AfterCreate(contacts: map<Id, Contact>, companyId: Id, input: CreateContactInput, id: Id, now: Time): (r: map<Id, Contact>)
    ensures r.Keys == contacts.Keys + {id}
    ensures r[id] == NewContact(companyId, input, now)
  {
    var cleared := if input.isMain == Some(true) then ClearMain(contacts, companyId, input.siteId) else contacts;
    cleared[id := NewContact(companyId, input, now)]
  }

  /** A main contact created for a site is its only main contact afterwards;
      the table keeps at most one main contact per site. */
  lemma {:induction false} CreateKeepsOneMain(contacts: map<Id, Contact>, companyId: Id, input: CreateContactInput, id: Id, now: Time)
    requires AtMostOneMain(contacts) && id !in contacts
    ensures AtMostOneMain(AfterCreate(contacts, companyId, input, id, now))
    ensures input.isMain == Some(true) ==>
      var after := AfterCreate(contacts, companyId, input, id, now);
      forall other ::
        (other in after && after[other].isMain && after[other].companyId == companyId && after[other].siteId == input.siteId)
        ==> other == id
  {
    var after := AfterCreate(contacts, companyId, input, id, now);
    if input.isMain == Some(true) {
      var cleared := ClearMain(contacts, companyId, input.siteId);
      assert after == cleared[id := NewContact(companyId, input, now)];
      forall a, b | a in after && b in after && after[a].isMain && after[b].isMain
        && after[a].companyId == after[b].companyId && after[a].siteId == after[b].siteId
        ensures a == b
      {
        if a != id && b != id {
          assert after[a] == cleared[a] && after[b] == cleared[b];
        }
      }
    } else {
      assert after == contacts[id := NewContact(companyId, input, now)];
    }
  }

  /** Contacts of other sites and other companies are never touched, and a
      contact that is not main leaves the site's main contact in place. */
  lemma CreateIsLocal(contacts: map<Id, Contact>, companyId: Id, input: CreateContactInput, id: Id, now: Time)
    requires id !in contacts
    ensures var after := AfterCreate(contacts, companyId, input, id, now);
      forall other :: other in contacts && (contacts[other].companyId != companyId || contacts[other].siteId != input.siteId)
                      ==> after[other] == contacts[other]
    ensures input.isMain != Some(true) ==>
      forall other :: other in contacts ==> AfterCreate(contacts, companyId, input, id, now)[other] == contacts[other]
  {
  }

  /** `create`: `NotFound` and no change when the site is not the caller's;
      otherwise, in one transaction, the site's main contact is retired when
      the new one is main, and the new contact is inserted. */
  method Create(db: Db, companyId: Id, input: CreateContactInput, now: Time) returns (r: Result<Row<Contact>>)
    modifies db`contacts
    ensures !SiteOwned(db.sites, companyId, input.siteId) ==>
              r == Failure(NotFound) && db.contacts == old(db.contacts)
    ensures SiteOwned(db.sites, companyId, input.siteId) ==>
              r.Success? && r.value.id !in old(db.contacts)
              && db.contacts == AfterCreate(old(db.contacts), companyId, input, r.value.id, now)
              && r.value.rec == NewContact(companyId, input, now)
    ensures old(AtMostOneMain(db.contacts)) ==> AtMostOneMain(db.contacts)
  {
    if !SiteOwned(db.sites, companyId, input.siteId) {
      return Failure(NotFound);
    }
    var id := FreshId(db.contacts.Keys);
    if AtMostOneMain(db.contacts) {
      CreateKeepsOneMain(db.contacts, companyId, input, id, now);
    }
    if input.isMain == Some(true) {
      db.contacts := ClearMain(db.contacts, companyId, input.siteId);
    }
    var contact := NewContact(companyId, input, now);
    db.contacts := db.contacts[id := contact];
    r := Success(Row(id, contact));
  }

  /** The `findAll` filter: the company's contacts, of one site when one is named. */
  predicate ContactListed(c: Contact, companyId: Id, siteId: Option<Id>) {
    c.companyId == companyId && (Truthy(siteId) ==> c.siteId == siteId.value)
  }

  /** `orderBy: [{ isMain: 'desc' }, { createdAt: 'desc' }]`. */
  function ContactKey(c: Contact): Key {
    (if c.isMain then 0 else 1, -c.createdAt)
  }

  /** `findAll`: exactly the listed contacts, each once; main contacts first,
      and newest first among contacts of equal rank. */
  ghost function FindAll(contacts: map<Id, Contact>, companyId: Id, siteId: Option<Id>): (r: seq<Row<Contact>>)
    ensures forall x :: x in r <==> x.id in contacts && x.rec == contacts[x.id] && ContactListed(x.rec, companyId, siteId)
    ensures forall i, j :: 0 <= i < j < |r| && r[j].rec.isMain ==> r[i].rec.isMain
    ensures forall i, j :: 0 <= i < j < |r| && r[i].rec.isMain == r[j].rec.isMain ==> r[i].rec.createdAt >= r[j].rec.createdAt
    ensures forall i, j :: 0 <= i < j < |r| ==> r[i].id != r[j].id
  {
    Select(contacts, (c: Contact) => ContactListed(c, companyId, siteId), ContactKey)
  }
}
