/** Records shared by the pages, components and route handlers: the
    documents of the `contacts`, `call_logs`, `users` and `settings`
    collections as the application sees them, the signed-in user that
    session resolution yields, and the JavaScript truthiness tests the code
    uses for defaulting. Timestamps are integers (milliseconds). */
module Models {

  datatype Option<+T> = None | Some(value: T)

  /** The nested company of a contact. */
  datatype Company = Company(name: string, address: string, phone: string, website: string)

  /** A note embedded in a contact, with a snapshot of its author. */
  datatype Note = Note(id: string, content: string, createdAt: int, authorId: string, authorName: string)

  /** A contact as the contacts page hands it to the table: every field
      present, the id and owner id as strings. */
  datatype Contact = Contact(
    id: string,
    userId: string,
    firstName: string,
    lastName: string,
    email: string,
    phone: string,
    company: Company,
    status: string,
    notes: seq<Note>,
    createdAt: int,
    updatedAt: int)

  /** A document of the `call_logs` collection. The duration is in seconds;
      an absent duration or note is `None`. */
  datatype CallLog = CallLog(
    id: string,
    contactId: string,
    userId: string,
    timestamp: int,
    duration: Option<nat>,
    notes: Option<string>,
    status: string)

  /** The identity that session resolution returns for a signed-in caller. */
  datatype AuthUser = AuthUser(id: string, name: string, email: string)

  /** A scalar JSON value, as stored in the settings document. */
  datatype Json = JNull | JBool(b: bool) | JNum(n: int) | JStr(s: string)

  /** A document of the `users` collection; `name` and `email` are `None`
      when a profile update stored `null` in them. */
  datatype UserDoc = UserDoc(
    id: string,
    name: Option<string>,
    email: Option<string>,
    password: string,
    createdAt: int,
    updatedAt: int)

  /** JavaScript truthiness of an optional string: absent and `""` are falsy. */
  predicate Truthy(o: Option<string>)
  {
    o.Some? && o.value != ""
  }

  /** `o || d` for an optional string. */
  function OrElse(o: Option<string>, d: string): (r: string)
    ensures Truthy(o) ==> r == o.value
    ensures !Truthy(o) ==> r == d
  {
    if Truthy(o) then o.value else d
  }

  /** The `users` and `settings` collections, which registration and the
      settings route change in place. The settings collection holds at most
      the one document of type "system". */
  class AccountStore {
    var users: seq<UserDoc>
    var settings: Option<map<string, Json>>

    constructor (users: seq<UserDoc>, settings: Option<map<string, Json>>)
      ensures this.users == users && this.settings == settings
    {
      this.users := users;
      this.settings := settings;
    }
  }
}
