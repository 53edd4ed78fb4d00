/** The settings endpoints (backend/settings.py): reading the caller's
    settings with their defaults, and updating a whitelisted subset of them
    through dotted `$set` paths. */
module SettingsApi {
  import opened Wrappers
  import opened Json

  /** The users collection: each document under its id's string form. */
  type Users = map<string, Object>

  const UserNotFound := "User not found."
  const NoValidFields := "No valid fields to update."
  const ServerError := "Internal Server Error"

  /** `allowed`: the settings a client may write. */
  const Known := {"notifications", "dark_mode"}

  /** The settings get_settings reports for a user that has none. */
  const Defaults: Object := map["notifications" := JBool(true), "dark_mode" := JBool(false)]

  /** The prefix of every path the update writes. */
  const Prefix := "settings."

  /** get_settings: the stored settings value, or the defaults when the
      user or the settings field is missing. */
  function GetSettings(users: Users, userId: string): (r: Json)
    ensures userId !in users || "settings" !in users[userId] ==> r == JObj(Defaults)
    ensures userId in users && "settings" in users[userId] ==> r == users[userId]["settings"]
  {
    if userId !in users || "settings" !in users[userId] then JObj(Defaults)
    else users[userId]["settings"]
  }

  /** The `$set` document: each whitelisted key under "settings.<key>". */
  function Paths(update: Object): (paths: map<string, Json>)
    ensures paths.Keys == set k | k in update :: Prefix + k
  {
    PrefixInjective();
    map k | k in update :: Prefix + k := update[k]
  }

  /** Distinct keys give distinct paths. */
  lemma PrefixInjective()
    ensures forall a: string, b: string :: Prefix + a == Prefix + b ==> a == b
  {
    forall a: string, b: string | Prefix + a == Prefix + b
      ensures a == b
    {
      assert a == (Prefix + a)[|Prefix|..];
      assert b == (Prefix + b)[|Prefix|..];
    }
  }

  /** Every path names one whitelisted key under the prefix and carries its
      value, so the `$set` writes exactly the nested keys of the update. */
  lemma PathsNameUpdate(update: Object)
    ensures forall p :: p in Paths(update) ==>
      |p| >= |Prefix| && p[..|Prefix|] == Prefix && p[|Prefix|..] in update &&
      Paths(update)[p] == update[p[|Prefix|..]]
    ensures forall k :: k in update ==> Prefix + k in Paths(update)
  {
    var paths := Paths(update);
    forall p | p in paths
      ensures |p| >= |Prefix| && p[..|Prefix|] == Prefix && p[|Prefix|..] in update
      ensures paths[p] == update[p[|Prefix|..]]
    {
      var k :| k in update && p == Prefix + k;
      assert p[|Prefix|..] == k;
      assert p[..|Prefix|] == Prefix;
    }
  }

  /** What the dotted `$set` does to one document: the keys are written into
      the settings object, which is created when absent; a settings value
      that is not an object cannot take a nested field, and the database
      refuses the write. */
  function SetNested(doc: Object, update: Object): (r: Option<Object>)
    ensures r.None? <==> "settings" in doc && !doc["settings"].JObj?
  {
    if "settings" !in doc then Some(doc["settings" := JObj(update)])
    else if doc["settings"].JObj? then Some(doc["settings" := JObj(doc["settings"].fields + update)])
    else None
  }

  /** The outcome of a request: the response and the collection after it. */
  datatype Outcome = Outcome(response: Result<Json>, users: Users)

  /** update_settings. The empty whitelist is refused (400) before the write;
      an unmatched user is reported (404) after it; a success answers with
      the stored settings. */
  function UpdateSettings(users: Users, userId: string, data: Object): (o: Outcome)
    ensures o.response.Err? && o.response.status == 400 <==> data.Keys * Known == {}
    ensures o.response.Err? && o.response.status == 404 <==> data.Keys * Known != {} && userId !in users
    ensures o.response.Err? ==> o.response.status in {400, 404, 500}
    ensures o.response.Err? ==> o.users == users
    ensures o.response.Ok? ==> userId in users && o.users.Keys == users.Keys
    ensures o.response.Ok? ==> "settings" in o.users[userId] && o.response.value == o.users[userId]["settings"]
    ensures forall u :: u in users && u != userId ==> u in o.users && o.users[u] == users[u]
  {
    var update := Whitelist(data, Known);
    if update == map[] then
      assert update.Keys == {};
      Outcome(Err(400, NoValidFields), users)
    else
      assert update.Keys != {} by {
        var k :| k in update;
      }
      if userId !in users then Outcome(Err(404, UserNotFound), users)
      else
        var written := SetNested(users[userId], update);
        if written.None? then Outcome(Err(500, ServerError), users)
        else
          var after := users[userId := written.value];
          Outcome(Ok(after[userId]["settings"]), after)
  }

  /** A successful update followed by get_settings reads back every written
      key with the request's value and keeps every setting the body does not
      write, known or not; settings created by the update hold exactly the
      written keys; no other field of the document is touched. */
  lemma UpdateThenGet(users: Users, userId: string, data: Object)
    requires UpdateSettings(users, userId, data).response.Ok?
    ensures var after := UpdateSettings(users, userId, data).users;
      var s := GetSettings(after, userId);
      && s.JObj?
      && (forall k :: k in Known && k in data ==> k in s.fields && s.fields[k] == data[k])
      && (forall k :: (k !in Known || k !in data) && "settings" in users[userId] ==>
            (k in s.fields <==> k in users[userId]["settings"].fields) &&
            (k in s.fields ==> s.fields[k] == users[userId]["settings"].fields[k]))
      && ("settings" !in users[userId] ==> s.fields == Whitelist(data, Known))
      && (forall f :: f != "settings" ==>
            (f in after[userId] <==> f in users[userId]) &&
            (f in users[userId] ==> after[userId][f] == users[userId][f]))
  {
    var update := Whitelist(data, Known);
    assert forall k :: k !in Known || k !in data ==> k !in update;
  }

  /** A user without stored settings reads the defaults: notifications on,
      dark mode off. */
  lemma DefaultsWhenUnset(users: Users, userId: string)
    requires userId !in users || "settings" !in users[userId]
    ensures GetSettings(users, userId).JObj?
    ensures GetSettings(users, userId).fields["notifications"] == JBool(true)
    ensures GetSettings(users, userId).fields["dark_mode"] == JBool(false)
    ensures GetSettings(users, userId).fields.Keys == Known
  {
  }

  /** Settings that are objects stay objects across any update. */
  predicate SettingsAreObjects(users: Users)
  {
    forall u :: u in users && "settings" in users[u] ==> users[u]["settings"].JObj?
  }

  lemma UpdateKeepsObjects(users: Users, userId: string, data: Object)
    requires SettingsAreObjects(users)
    ensures SettingsAreObjects(UpdateSettings(users, userId, data).users)
    ensures UpdateSettings(users, userId, data).response.Err? ==>
      UpdateSettings(users, userId, data).response.status != 500
  {
    var o := UpdateSettings(users, userId, data);
    if o.response.Ok? {
      forall u | u in o.users && "settings" in o.users[u]
        ensures o.users[u]["settings"].JObj?
      {
        if u != userId {
          assert o.users[u] == users[u];
        }
      }
    }
  }
}
