/** The bulk-delete route: after authentication and validation of the list of
    contact ids, the caller's contacts with those ids are removed from the
    `contacts` table and every call log naming one of the ids is removed from
    the `call_logs` table. */
module BulkDelete {
  import opened Text
  import opened Models

  /** The `contactIds` member of the request body. */
  datatype IdsField =
    | Unparsable          // the body is not JSON: `req.json()` throws
    | Missing             // absent, null or another falsy value
    | NotAnArray          // a truthy value that is not an array
    | IdList(ids: seq<string>)

  datatype DeleteResponse =
    | Unauthorized        // 401 "Unauthorized"
    | IdsRequired         // 400 "Contact IDs are required"
    | Failed              // 500 "Failed to delete contacts"
    | Deleted(deletedCount: nat)

  function StatusCode(r: DeleteResponse): (code: nat)
    ensures code == 200 <==> r.Deleted?
  {
    match r
    case Unauthorized => 401
    case IdsRequired => 400
    case Failed => 500
    case Deleted(_) => 200
  }

  predicate IsHexDigit(c: char)
  {
    ('0' <= c <= '9') || ('a' <= c <= 'f') || ('A' <= c <= 'F')
  }

  /** The strings `new ObjectId(id)` accepts: 24 hexadecimal digits in
      either case. Any other string makes the constructor throw. */
  predicate ValidObjectId(id: string)
  {
    |id| == 24 && forall i :: 0 <= i < |id| ==> IsHexDigit(id[i])
  }

  /** The ObjectIds named by the list, in their canonical lower-case form. */
  function ObjectIds(ids: seq<string>): (r: set<string>)
    ensures forall i :: 0 <= i < |ids| ==> Lower(ids[i]) in r
    ensures forall o :: o in r ==> exists i :: 0 <= i < |ids| && o == Lower(ids[i])
  {
    set i | 0 <= i < |ids| :: Lower(ids[i])
  }

  /** `deleteMany({ _id: { $in: objectIds }, userId })` removes a contact. */
  predicate Doomed(c: Contact, oids: set<string>, ownerId: string)
  {
    c.id in oids && c.userId == ownerId
  }

  /** The contacts that survive, in their order. */
  function RemainingContacts(contacts: seq<Contact>, oids: set<string>, ownerId: string): seq<Contact>
  {
    if contacts == [] then []
    else
      var init := RemainingContacts(contacts[..|contacts| - 1], oids, ownerId);
      var c := contacts[|contacts| - 1];
      if Doomed(c, oids, ownerId) then init else init + [c]
  }

  /** `deleteMany({ contactId: { $in: contactIds } })` removes a call log:
      the raw strings are compared, whoever owns the log. */
  function RemainingLogs(logs: seq<CallLog>, ids: seq<string>): seq<CallLog>
  {
    if logs == [] then []
    else
      var init := RemainingLogs(logs[..|logs| - 1], ids);
      var l := logs[|logs| - 1];
      if l.contactId in ids then init else init + [l]
  }

  /** The contact deletion, one stored contact at a time. */
  method RemoveContacts(contacts: seq<Contact>, oids: set<string>, ownerId: string)
    returns (kept: seq<Contact>, deleted: nat)
    ensures kept == RemainingContacts(contacts, oids, ownerId)
    ensures deleted + |kept| == |contacts|
  {
    kept := [];
    deleted := 0;
    for i := 0 to |contacts|
      invariant kept == RemainingContacts(contacts[..i], oids, ownerId)
      invariant deleted + |kept| == i
    {
      assert contacts[..i + 1][..i] == contacts[..i];
      if Doomed(contacts[i], oids, ownerId) {
        deleted := deleted + 1;
      } else {
        kept := kept + [contacts[i]];
      }
    }
    assert contacts[..|contacts|] == contacts;
  }

  /** The call-log deletion, one stored log at a time. */
  method RemoveCallLogs(logs: seq<CallLog>, ids: seq<string>) returns (kept: seq<CallLog>)
    ensures kept == RemainingLogs(logs, ids)
  {
    kept := [];
    for i := 0 to |logs|
      invariant kept == RemainingLogs(logs[..i], ids)
    {
      assert logs[..i + 1][..i] == logs[..i];
      if logs[i].contactId !in ids {
        kept := kept + [logs[i]];
      }
    }
    assert logs[..|logs|] == logs;
  }

  /** Exactly the caller's contacts named by the list go; every other contact
      stays, as often as it was there. */
  lemma {:induction false} RemainingContactsCounts(contacts: seq<Contact>, oids: set<string>, ownerId: string, c: Contact)
    ensures multiset(RemainingContacts(contacts, oids, ownerId))[c]
      == if Doomed(c, oids, ownerId) then 0 else multiset(contacts)[c]
  {
    if contacts != [] {
      var init := contacts[..|contacts| - 1];
      RemainingContactsCounts(init, oids, ownerId, c);
      assert contacts == init + [contacts[|contacts| - 1]];
    }
  }

  /** Exactly the logs naming one of the listed ids go; every other log
      stays, as often as it was there. */
  lemma {:induction false} RemainingLogsCounts(logs: seq<CallLog>, ids: seq<string>, l: CallLog)
    ensures multiset(RemainingLogs(logs, ids))[l] == if l.contactId in ids then 0 else multiset(logs)[l]
  {
    if logs != [] {
      var init := logs[..|logs| - 1];
      RemainingLogsCounts(init, ids, l);
      assert logs == init + [logs[|logs| - 1]];
    }
  }

  /** No two stored contacts share an id (the store's `_id` is unique). */
  predicate UniqueIds(contacts: seq<Contact>)
  {
    forall i, j :: 0 <= i < j < |contacts| ==> contacts[i].id != contacts[j].id
  }

  /** The ids of the contacts the deletion removes. */
  function DoomedIds(contacts: seq<Contact>, oids: set<string>, ownerId: string): (r: set<string>)
    ensures r <= oids
  {
    set i | 0 <= i < |contacts| && Doomed(contacts[i], oids, ownerId) :: contacts[i].id
  }

  /** With unique stored ids, the number removed is the number of distinct
      ids removed. */
  lemma {:induction false} DeletedAreDistinct(contacts: seq<Contact>, oids: set<string>, ownerId: string)
    requires UniqueIds(contacts)
    ensures |contacts| - |RemainingContacts(contacts, oids, ownerId)| == |DoomedIds(contacts, oids, ownerId)|
  {
    if contacts != [] {
      var init := contacts[..|contacts| - 1];
      var c := contacts[|contacts| - 1];
      DeletedAreDistinct(init, oids, ownerId);
      RemainingLength(init, oids, ownerId);
      if Doomed(c, oids, ownerId) {
        assert DoomedIds(contacts, oids, ownerId) == DoomedIds(init, oids, ownerId) + {c.id};
        assert c.id !in DoomedIds(init, oids, ownerId);
      } else {
        assert DoomedIds(contacts, oids, ownerId) == DoomedIds(init, oids, ownerId);
      }
    }
  }

  lemma {:induction false} RemainingLength(contacts: seq<Contact>, oids: set<string>, ownerId: string)
    ensures |RemainingContacts(contacts, oids, ownerId)| <= |contacts|
  {
    if contacts != [] {
      RemainingLength(contacts[..|contacts| - 1], oids, ownerId);
    }
  }

  /** Lower-casing a set of strings does not make it larger. */
  lemma {:induction false} LowerImageBound(s: set<string>)
    ensures |set x | x in s :: Lower(x)| <= |s|
    decreases |s|
  {
    if s != {} {
      var x :| x in s;
      var rest := s - {x};
      LowerImageBound(rest);
      assert (set y | y in s :: Lower(y)) == (set y | y in rest :: Lower(y)) + {Lower(x)};
    }
  }

  lemma SubsetSize(a: set<string>, b: set<string>)
    requires a <= b
    ensures |a| <= |b|
  {
    assert b == a + (b - a);
  }

  /** With unique stored ids, `deletedCount` is at most the number of
      distinct ids in the request. */
  lemma DeletedCountBound(contacts: seq<Contact>, ids: seq<string>, ownerId: string)
    requires UniqueIds(contacts)
    ensures |contacts| - |RemainingContacts(contacts, ObjectIds(ids), ownerId)| <= |set i | 0 <= i < |ids| :: ids[i]|
  {
    var oids := ObjectIds(ids);
    DeletedAreDistinct(contacts, oids, ownerId);
    SubsetSize(DoomedIds(contacts, oids, ownerId), oids);
    var distinct := set i | 0 <= i < |ids| :: ids[i];
    LowerImageBound(distinct);
    assert oids == set x | x in distinct :: Lower(x);
  }

  /** The `contacts` and `call_logs` tables. */
  class ContactTables {
    var contacts: seq<Contact>
    var callLogs: seq<CallLog>

    constructor (contacts: seq<Contact>, callLogs: seq<CallLog>)
      ensures this.contacts == contacts && this.callLogs == callLogs
    {
      this.contacts := contacts;
      this.callLogs := callLogs;
    }
  }

  /** `POST /api/contacts/bulk-delete`. Every id is converted before anything
      is deleted, so a malformed id leaves both tables as they were. */
  method Post(tables: ContactTables, caller: Option<AuthUser>, body: IdsField) returns (response: DeleteResponse)
    modifies tables
    ensures caller.None? ==> response == Unauthorized
    ensures caller.Some? && body.Unparsable? ==> response == Failed
    ensures caller.Some? && (body.Missing? || body.NotAnArray? || (body.IdList? && body.ids == []))
      ==> response == IdsRequired
    ensures caller.Some? && body.IdList? && body.ids != []
            && !(forall i :: 0 <= i < |body.ids| ==> ValidObjectId(body.ids[i]))
      ==> response == Failed
    ensures caller.Some? && body.IdList? && body.ids != []
            && (forall i :: 0 <= i < |body.ids| ==> ValidObjectId(body.ids[i]))
      ==> response.Deleted?
    ensures !response.Deleted? ==> tables.contacts == old(tables.contacts) && tables.callLogs == old(tables.callLogs)
    ensures response.Deleted? ==>
      && caller.Some? && body.IdList? && body.ids != []
      && (forall i :: 0 <= i < |body.ids| ==> ValidObjectId(body.ids[i]))
      && tables.contacts == RemainingContacts(old(tables.contacts), ObjectIds(body.ids), caller.value.id)
      && tables.callLogs == RemainingLogs(old(tables.callLogs), body.ids)
      && response.deletedCount == |old(tables.contacts)| - |tables.contacts|
  {
    if caller.None? {
      return Unauthorized;
    }
    if body.Unparsable? {
      return Failed;
    }
    if body.Missing? || body.NotAnArray? || body.ids == [] {
      return IdsRequired;
    }
    var ids := body.ids;
    if !(forall i :: 0 <= i < |ids| ==> ValidObjectId(ids[i])) {
      return Failed;
    }
    var kept, deleted := RemoveContacts(tables.contacts, ObjectIds(ids), caller.value.id);
    tables.contacts := kept;
    var keptLogs := RemoveCallLogs(tables.callLogs, ids);
    tables.callLogs := keptLogs;
    response := Deleted(deleted);
  }
}
