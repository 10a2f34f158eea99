/** The contacts page: the normalisation of the stored contact documents
    into fully populated contacts for the table, and the per-status
    counts shown in the page's cards. */
module ContactsPage {
  import Text
  import opened Models
  import Tally

  /** A company as stored; any field may be missing. */
  datatype RawCompany = RawCompany(name: Option<string>, address: Option<string>,
                                   phone: Option<string>, website: Option<string>)

  /** A contact document as stored; any field but the id may be missing. */
  datatype RawContact = RawContact(
    id: string,
    userId: Option<string>,
    firstName: Option<string>,
    lastName: Option<string>,
    email: Option<string>,
    phone: Option<string>,
    company: Option<RawCompany>,
    status: Option<string>,
    notes: Option<seq<Note>>,
    createdAt: Option<int>,
    updatedAt: Option<int>)

  /** `doc.company?.<field> || ''` for each of the four fields. */
  function CompanyOf(company: Option<RawCompany>): Company
  {
    if company.None? then Company("", "", "", "")
    else
      var k := company.value;
      Company(OrElse(k.name, ""), OrElse(k.address, ""), OrElse(k.phone, ""), OrElse(k.website, ""))
  }

  /** One document mapped to a contact, with "" for missing or empty text,
      "new" for a missing status, no notes for missing notes, the signed-in
      user as owner when none is stored, and `now` for missing timestamps. */
  function Normalize(doc: RawContact, currentUserId: string, now: int): (c: Contact)
    ensures c.id == doc.id
    ensures c.userId == (if Truthy(doc.userId) then doc.userId.value else currentUserId)
    ensures c.firstName == (if Truthy(doc.firstName) then doc.firstName.value else "")
    ensures c.lastName == (if Truthy(doc.lastName) then doc.lastName.value else "")
    ensures c.email == (if Truthy(doc.email) then doc.email.value else "")
    ensures c.phone == (if Truthy(doc.phone) then doc.phone.value else "")
    ensures doc.company.None? ==> c.company == Company("", "", "", "")
    ensures doc.company.Some? ==>
      var k := doc.company.value;
      && c.company.name == (if Truthy(k.name) then k.name.value else "")
      && c.company.address == (if Truthy(k.address) then k.address.value else "")
      && c.company.phone == (if Truthy(k.phone) then k.phone.value else "")
      && c.company.website == (if Truthy(k.website) then k.website.value else "")
    ensures c.status == (if Truthy(doc.status) then doc.status.value else "new")
    ensures c.status != ""
    ensures c.notes == (if doc.notes.Some? then doc.notes.value else [])
    ensures c.createdAt == (if doc.createdAt.Some? then doc.createdAt.value else now)
    ensures c.updatedAt == (if doc.updatedAt.Some? then doc.updatedAt.value else now)
  {
    Contact(
      doc.id,
      OrElse(doc.userId, currentUserId),
      OrElse(doc.firstName, ""),
      OrElse(doc.lastName, ""),
      OrElse(doc.email, ""),
      OrElse(doc.phone, ""),
      CompanyOf(doc.company),
      OrElse(doc.status, "new"),
      if doc.notes.Some? then doc.notes.value else [],
      if doc.createdAt.Some? then doc.createdAt.value else now,
      if doc.updatedAt.Some? then doc.updatedAt.value else now)
  }

  /** `contacts.map(...)`: one contact per document, in order. */
  function NormalizeAll(docs: seq<RawContact>, currentUserId: string, now: int): (r: seq<Contact>)
    ensures |r| == |docs|
    ensures forall k :: 0 <= k < |docs| ==> r[k] == Normalize(docs[k], currentUserId, now)
  {
    seq(|docs|, k requires 0 <= k < |docs| => Normalize(docs[k], currentUserId, now))
  }

  /** A document whose fields are all present and non-empty comes through
      unchanged. */
  lemma CompleteDocumentKept(doc: RawContact, currentUserId: string, now: int)
    requires Truthy(doc.userId) && Truthy(doc.firstName) && Truthy(doc.lastName)
    requires Truthy(doc.email) && Truthy(doc.phone) && Truthy(doc.status)
    requires doc.company.Some? && Truthy(doc.company.value.name) && Truthy(doc.company.value.address)
    requires Truthy(doc.company.value.phone) && Truthy(doc.company.value.website)
    requires doc.notes.Some? && doc.createdAt.Some? && doc.updatedAt.Some?
    ensures Normalize(doc, currentUserId, now) == Contact(doc.id, doc.userId.value,
      doc.firstName.value, doc.lastName.value, doc.email.value, doc.phone.value,
      Company(doc.company.value.name.value, doc.company.value.address.value,
              doc.company.value.phone.value, doc.company.value.website.value),
      doc.status.value, doc.notes.value, doc.createdAt.value, doc.updatedAt.value)
  {
  }

  function Statuses(contacts: seq<Contact>): (r: seq<string>)
    ensures |r| == |contacts|
    ensures forall k :: 0 <= k < |contacts| ==> r[k] == contacts[k].status
  {
    seq(|contacts|, k requires 0 <= k < |contacts| => contacts[k].status)
  }

  /** The figures of the page's cards. */
  datatype Stats = Stats(total: nat, called: nat, converted: nat, notInterested: nat)

  function PageStats(contacts: seq<Contact>): Stats
  {
    var s := Statuses(contacts);
    Stats(|contacts|, Text.Occurrences(s, "called"), Text.Occurrences(s, "converted"), Text.Occurrences(s, "not-interested"))
  }

  /** Each card counts exact status matches; none exceeds the total and
      together they do not exceed it either. */
  lemma PageStatsBounded(contacts: seq<Contact>)
    ensures var st := PageStats(contacts);
      && st.total == |contacts|
      && st.called == |set k | 0 <= k < |contacts| && contacts[k].status == "called"|
      && st.converted == |set k | 0 <= k < |contacts| && contacts[k].status == "converted"|
      && st.notInterested == |set k | 0 <= k < |contacts| && contacts[k].status == "not-interested"|
      && st.called <= st.total && st.converted <= st.total && st.notInterested <= st.total
      && st.called + st.converted + st.notInterested <= st.total
  {
    var s := Statuses(contacts);
    Tally.ThreeCountsBounded(s, "called", "converted", "not-interested");
    Tally.CountIsPositions(s, "called");
    Tally.CountIsPositions(s, "converted");
    Tally.CountIsPositions(s, "not-interested");
    assert (set k | 0 <= k < |s| && s[k] == "called") == (set k | 0 <= k < |contacts| && contacts[k].status == "called");
    assert (set k | 0 <= k < |s| && s[k] == "converted") == (set k | 0 <= k < |contacts| && contacts[k].status == "converted");
    assert (set k | 0 <= k < |s| && s[k] == "not-interested") == (set k | 0 <= k < |contacts| && contacts[k].status == "not-interested");
  }
}
