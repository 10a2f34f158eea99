/** The settings route: reading the system settings document, and updating
    either that document (administrator only) or the caller's own profile.
    The settings document is a flat map from keys to scalar JSON values. */
module Settings {
  import opened Models

  const AdminEmail: string := "mohamed@lynq.ae"

  /** `user.email === ADMIN_EMAIL`: exact, case-sensitive equality. */
  predicate IsAdmin(user: AuthUser)
  {
    user.email == AdminEmail
  }

  /** What GET returns when there is no settings document. */
  function DefaultSettings(): (d: map<string, Json>)
    ensures d.Keys == {"maintenanceMode", "registrationDisabled", "systemNotice"}
    ensures d["maintenanceMode"] == JBool(false) && d["registrationDisabled"] == JBool(false)
    ensures d["systemNotice"] == JStr("")
  {
    map["maintenanceMode" := JBool(false), "registrationDisabled" := JBool(false), "systemNotice" := JStr("")]
  }

  datatype GetResponse =
    | GetUnauthorized                                   // 401 "Unauthorized"
    | SettingsFound(settings: map<string, Json>, isAdmin: bool)

  /** `GET /api/settings`: the stored document, or the defaults when there is
      none, and whether the caller is the administrator. */
  function Get(store: AccountStore, caller: Option<AuthUser>): (r: GetResponse)
    reads store
    ensures caller.None? <==> r == GetUnauthorized
    ensures r.SettingsFound? ==> r.isAdmin == IsAdmin(caller.value)
    ensures r.SettingsFound? && store.settings.Some? ==> r.settings == store.settings.value
    ensures r.SettingsFound? && store.settings.None? ==> r.settings == DefaultSettings()
  {
    if caller.None? then GetUnauthorized
    else SettingsFound(if store.settings.Some? then store.settings.value else DefaultSettings(), IsAdmin(caller.value))
  }

  /** A profile update; an absent field is stored as null. */
  datatype Profile = Profile(name: Option<string>, email: Option<string>)

  /** The parsed request body; a falsy member is `None`. */
  datatype PatchBody = PatchBody(systemSettings: Option<map<string, Json>>, profile: Option<Profile>)

  datatype PatchResponse =
    | PatchUnauthorized                                  // 401 "Unauthorized"
    | PatchFailed                                        // 500 "Failed to update settings"
    | SettingsSaved(settings: map<string, Json>)         // { success: true, settings }
    | PatchOk                                            // { success: true }

  /** The `updateOne` with `$set` and `upsert: true` on the document of type
      "system": a new document starts from its query fields; the supplied
      keys are written, then the type, the time and the author. Keys not
      supplied keep their stored value, and nothing else is added. */
  function Upsert(stored: Option<map<string, Json>>, update: map<string, Json>, callerId: string, now: int)
    : (d: map<string, Json>)
    ensures d.Keys == (if stored.Some? then stored.value.Keys else {}) + update.Keys + {"type", "updatedAt", "updatedBy"}
    ensures d["type"] == JStr("system") && d["updatedAt"] == JNum(now) && d["updatedBy"] == JStr(callerId)
    ensures forall k :: k in update && k !in {"type", "updatedAt", "updatedBy"} ==> d[k] == update[k]
    ensures forall k ::
              stored.Some? && k in stored.value && k !in update && k !in {"type", "updatedAt", "updatedBy"}
              ==> d[k] == stored.value[k]
  {
    (if stored.Some? then stored.value else map["type" := JStr("system")])
      + update
      + map["type" := JStr("system"), "updatedAt" := JNum(now), "updatedBy" := JStr(callerId)]
  }

  /** The index of the user with the given id, or -1. */
  function IndexOfUser(users: seq<UserDoc>, id: string): (r: int)
    ensures -1 <= r < |users|
    ensures r >= 0 ==> users[r].id == id && forall j :: 0 <= j < r ==> users[j].id != id
    ensures r < 0 ==> forall j :: 0 <= j < |users| ==> users[j].id != id
  {
    if users == [] then -1
    else if users[0].id == id then 0
    else
      var r := IndexOfUser(users[1..], id);
      if r < 0 then -1 else r + 1
  }

  /** The `updateOne` on the caller's user document: name, email and
      updatedAt are replaced, and nothing else changes. */
  function UpdateProfile(users: seq<UserDoc>, id: string, profile: Profile, now: int): (r: seq<UserDoc>)
    ensures |r| == |users|
    ensures forall j :: 0 <= j < |users| && users[j].id != id ==> r[j] == users[j]
    ensures forall j :: 0 <= j < |users| && j != IndexOfUser(users, id) ==> r[j] == users[j]
    ensures IndexOfUser(users, id) >= 0 ==>
      var u, v := users[IndexOfUser(users, id)], r[IndexOfUser(users, id)];
      v == UserDoc(u.id, profile.name, profile.email, u.password, u.createdAt, now)
  {
    var i := IndexOfUser(users, id);
    if i < 0 then users
    else
      var u := users[i];
      users[i := UserDoc(u.id, profile.name, profile.email, u.password, u.createdAt, now)]
  }

  /** No two users share an email address. */
  predicate EmailsUnique(users: seq<UserDoc>)
  {
    forall i, j :: 0 <= i < j < |users| && users[i].email.Some? ==> users[i].email != users[j].email
  }

  /** The profile update does not check that the new email address is free:
      two users can end up with the same one. */
  lemma ProfileUpdateCanDuplicateEmail()
    ensures var users := [UserDoc("a", Some("A"), Some("a@x"), "h", 0, 0), UserDoc("b", Some("B"), Some("b@x"), "h", 0, 0)];
      EmailsUnique(users) && !EmailsUnique(UpdateProfile(users, "b", Profile(Some("B"), Some("a@x")), 1))
  {
    var users := [UserDoc("a", Some("A"), Some("a@x"), "h", 0, 0), UserDoc("b", Some("B"), Some("b@x"), "h", 0, 0)];
    assert IndexOfUser(users, "b") == 1;
    var r := UpdateProfile(users, "b", Profile(Some("B"), Some("a@x")), 1);
    assert r[0].email == r[1].email;
  }

  /** `PATCH /api/settings`. An administrator's `systemSettings` is saved and
      the request ends there; anyone else's is ignored, and a `profile`
      updates the caller's own user document. */
  method Patch(store: AccountStore, caller: Option<AuthUser>, body: Option<PatchBody>, now: int)
    returns (response: PatchResponse)
    modifies store
    ensures caller.None? ==> response == PatchUnauthorized
    ensures caller.Some? && body.None? ==> response == PatchFailed
    ensures response.PatchUnauthorized? || response.PatchFailed? ==>
      store.users == old(store.users) && store.settings == old(store.settings)
    ensures caller.Some? && body.Some? && body.value.systemSettings.Some? && IsAdmin(caller.value) ==>
      && store.settings == Some(Upsert(old(store.settings), body.value.systemSettings.value, caller.value.id, now))
      && store.users == old(store.users)
      && response == SettingsSaved(store.settings.value)
    ensures caller.Some? && body.Some? && !(body.value.systemSettings.Some? && IsAdmin(caller.value)) ==>
      && store.settings == old(store.settings)
      && store.users == (if body.value.profile.Some?
                         then UpdateProfile(old(store.users), caller.value.id, body.value.profile.value, now)
                         else old(store.users))
      && response == PatchOk
  {
    if caller.None? {
      return PatchUnauthorized;
    }
    if body.None? {
      return PatchFailed;
    }
    var user := caller.value;
    var data := body.value;
    if data.systemSettings.Some? && IsAdmin(user) {
      var saved := Upsert(store.settings, data.systemSettings.value, user.id, now);
      store.settings := Some(saved);
      return SettingsSaved(saved);
    }
    if data.profile.Some? {
      store.users := UpdateProfile(store.users, user.id, data.profile.value, now);
    }
    response := PatchOk;
  }
}
