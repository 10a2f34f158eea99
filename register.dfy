/** The registration route: validate the body, refuse an email address that
    is already registered, then insert the new user with a hashed password
    and sign the caller in. Hashing and token signing are parameters, and so
    are the id the store assigns and the current time. */
module Register {
  import opened Models
  import Settings

  /** The parsed body; a falsy member is `None` or `""`. */
  datatype RegisterBody = RegisterBody(name: Option<string>, email: Option<string>, password: Option<string>)

  datatype RegisterResponse =
    | MissingFields                                          // 400 "Missing required fields"
    | UserExists                                             // 409 "User already exists"
    | RegisterFailed                                         // 500 "Internal server error"
    | Registered(id: string, name: string, email: string)    // { id, name, email }

  /** `findOne({ email })`: an exact, case-sensitive match. */
  predicate EmailTaken(users: seq<UserDoc>, email: string)
  {
    exists k :: 0 <= k < |users| && users[k].email == Some(email)
  }

  /** A user whose email is not taken can be added without breaking the
      uniqueness of email addresses. */
  lemma {:induction false} InsertKeepsEmailsUnique(users: seq<UserDoc>, u: UserDoc)
    requires Settings.EmailsUnique(users)
    requires u.email.Some? && !EmailTaken(users, u.email.value)
    ensures Settings.EmailsUnique(users + [u])
  {
    var r := users + [u];
    forall i, j | 0 <= i < j < |r| && r[i].email.Some?
      ensures r[i].email != r[j].email
    {
      if j == |users| {
        assert r[i] == users[i];
      }
    }
  }

  /** `POST /api/auth/register`. On success the new user's token is returned
      as `cookie`, the value the route sets in the authentication cookie. */
  method Post(store: AccountStore, body: Option<RegisterBody>, hash: string -> string, sign: string -> string,
              newId: string, now: int)
    returns (response: RegisterResponse, cookie: Option<string>)
    modifies store
    ensures body.None? ==> response == RegisterFailed
    ensures body.Some? && !(Truthy(body.value.name) && Truthy(body.value.email) && Truthy(body.value.password))
      ==> response == MissingFields
    ensures body.Some? && Truthy(body.value.name) && Truthy(body.value.email) && Truthy(body.value.password)
            && EmailTaken(old(store.users), body.value.email.value)
      ==> response == UserExists
    ensures body.Some? && Truthy(body.value.name) && Truthy(body.value.email) && Truthy(body.value.password)
            && !EmailTaken(old(store.users), body.value.email.value)
      ==> response.Registered?
    ensures !response.Registered? ==> store.users == old(store.users) && cookie.None?
    ensures response.Registered? ==>
      && body.Some? && Truthy(body.value.name) && Truthy(body.value.email) && Truthy(body.value.password)
      && !EmailTaken(old(store.users), body.value.email.value)
      && store.users == old(store.users)
           + [UserDoc(newId, body.value.name, body.value.email, hash(body.value.password.value), now, now)]
      && response == Registered(newId, body.value.name.value, body.value.email.value)
      && cookie == Some(sign(newId))
    ensures store.settings == old(store.settings)
    ensures Settings.EmailsUnique(old(store.users)) ==> Settings.EmailsUnique(store.users)
  {
    cookie := None;
    if body.None? {
      return RegisterFailed, None;
    }
    var data := body.value;
    if !Truthy(data.name) || !Truthy(data.email) || !Truthy(data.password) {
      return MissingFields, None;
    }
    var name, email, password := data.name.value, data.email.value, data.password.value;
    if EmailTaken(store.users, email) {
      return UserExists, None;
    }
    var hashed := hash(password);
    var user := UserDoc(newId, Some(name), Some(email), hashed, now, now);
    assert Settings.EmailsUnique(store.users) ==> Settings.EmailsUnique(store.users + [user]) by {
      if Settings.EmailsUnique(store.users) {
        InsertKeepsEmailsUnique(store.users, user);
      }
    }
    store.users := store.users + [user];
    var token := sign(newId);
    response, cookie := Registered(newId, name, email), Some(token);
  }
}
