/** The profile endpoints (backend/profile.py) over an abstract users
    collection: reading the caller's profile, and updating it through the
    whitelist of editable fields. */
module ProfileApi {
  import opened Wrappers
  import opened Json
  import Auth
  import Text

  /** The users collection: each document under its id's string form. */
  type Users = map<string, Object>

  const UserNotFound := "User not found."
  const NoValidFields := "No valid fields to update."
  const TokenInvalid := "Token is invalid."

  /** `allowed_fields`, in the order the loop visits them. */
  const ProfileFields := ["name", "avatar", "age", "goals"]

  /** The same fields as a set. */
  const Editable := {"name", "avatar", "age", "goals"}

  /** A document as the endpoints return it: the `{'password': 0}` projection
      drops the password, and `_id` is written as the id's string form. */
  function Public(id: string, doc: Object): (r: Object)
    ensures "password" !in r
    ensures "_id" in r && r["_id"] == JStr(id)
    ensures forall k :: k in doc && k != "password" && k != "_id" ==> k in r && r[k] == doc[k]
  {
    (doc - {"password"})["_id" := JStr(id)]
  }

  /** get_profile: 404 for an unknown user, otherwise the public document. */
  function GetProfile(users: Users, userId: string): (r: Result<Object>)
    ensures r.Err? <==> userId !in users
    ensures r.Err? ==> r.status == 404 && r.message == UserNotFound
    ensures r.Ok? ==> r.value == Public(userId, users[userId])
  {
    if userId !in users then Err(404, UserNotFound) else Ok(Public(userId, users[userId]))
  }

  // ---------------------------------------------------------------------------
  // The blueprint's own require_auth

  /** `db.users.codec_options.document_class(user_id)` with the default `dict`
      document class. `dict` of a text needs every character to be a
      key-value pair, which a single character is not: every non-empty id
      raises ValueError, and "" gives the empty document. */
  function DictOfText(userId: string): (r: Option<Object>)
    ensures r.Some? <==> userId == []
    ensures r.Some? ==> r.value == map[]
  {
    if userId == [] then Some(map[]) else None
  }

  /** profile.py's copy of require_auth as written: the header check and the
      decoder as in every blueprint, then the lookup of the user under the
      document built from the id. The ValueError is caught by `except
      Exception` and answered 401 "Token is invalid."; no user's id is the
      empty document, so "" is 404 "User not found.". */
  function ProfileAuthAsWritten(header: Option<string>, decode: string -> Result<string>): (r: Result<string>)
    ensures r.Err?
    ensures Auth.Authenticate(header, decode).Err? ==> r == Auth.Authenticate(header, decode)
    ensures Auth.Authenticate(header, decode).Ok? && Auth.Authenticate(header, decode).value != [] ==>
      r == Err(401, TokenInvalid)
    ensures Auth.Authenticate(header, decode).Ok? && Auth.Authenticate(header, decode).value == [] ==>
      r == Err(404, UserNotFound)
  {
    match Auth.Authenticate(header, decode)
    case Err(status, message) => Err(status, message)
    case Ok(userId) =>
      match DictOfText(userId)
      case None => Err(401, TokenInvalid)
      case Some(_) => Err(404, UserNotFound)
  }

  /** The evidently intended require_auth of profile.py: the decoded id is
      looked up as it is, an unknown user is 404 "User not found.", and a
      known one is let through with that id. */
  function ProfileAuthenticate(header: Option<string>, decode: string -> Result<string>, users: Users): (r: Result<string>)
    ensures Auth.Authenticate(header, decode).Err? ==> r == Auth.Authenticate(header, decode)
    ensures r.Ok? <==> Auth.Authenticate(header, decode).Ok? && Auth.Authenticate(header, decode).value in users
    ensures r.Ok? ==> r == Auth.Authenticate(header, decode)
    ensures Auth.Authenticate(header, decode).Ok? && Auth.Authenticate(header, decode).value !in users ==>
      r == Err(404, UserNotFound)
  {
    match Auth.Authenticate(header, decode)
    case Err(status, message) => Err(status, message)
    case Ok(userId) => if userId in users then Ok(userId) else Err(404, UserNotFound)
  }

  /** GET /api/profile behind the intended decorator: every accepted token of
      a stored user reaches get_profile, which then finds the user. */
  function GetProfileRequest(header: Option<string>, decode: string -> Result<string>, users: Users): (r: Result<Object>)
    ensures r.Ok? <==> Auth.Authenticate(header, decode).Ok? && Auth.Authenticate(header, decode).value in users
    ensures r.Ok? ==> r.value == Public(Auth.Authenticate(header, decode).value, users[Auth.Authenticate(header, decode).value])
    ensures Auth.Authenticate(header, decode).Err? ==>
      r == Err(Auth.Authenticate(header, decode).status, Auth.Authenticate(header, decode).message)
    ensures Auth.Authenticate(header, decode).Ok? && Auth.Authenticate(header, decode).value !in users ==>
      r == Err(404, UserNotFound)
  {
    match ProfileAuthenticate(header, decode, users)
    case Err(status, message) => Err(status, message)
    case Ok(userId) => GetProfile(users, userId)
  }

  /** A token signed for a stored user, with any non-empty id such as the
      24-digit hex text auth.py mints: the decorator as written refuses it
      with 401 "Token is invalid.", so get_profile is never reached, while
      the intended decorator lets it through to that user's profile. */
  lemma StoredUserRefused(token: string, decode: string -> Result<string>, users: Users, userId: string)
    requires token != [] && Text.NoPySpace(token)
    requires decode(token) == Ok(userId) && userId != [] && userId in users
    ensures ProfileAuthAsWritten(Some("Bearer " + token), decode) == Err(401, TokenInvalid)
    ensures GetProfileRequest(Some("Bearer " + token), decode, users) == Ok(Public(userId, users[userId]))
  {
    Auth.BearerRoundTrip("", ' ', "", token, "");
    assert "" + "Bearer" + [' '] + "" + token + "" == "Bearer " + token;
  }

  /** The loop of update_profile that copies each allowed field present in
      the body into `update_fields`. */
  method CollectUpdate(data: Object) returns (update: Object)
    ensures update == Whitelist(data, Editable)
  {
    update := map[];
    for i := 0 to |ProfileFields|
      invariant forall k :: k in update ==> k in data && update[k] == data[k] && k in ProfileFields[..i]
      invariant forall j :: 0 <= j < i && ProfileFields[j] in data ==> ProfileFields[j] in update
    {
      var field := ProfileFields[i];
      if field in data {
        update := update[field := data[field]];
      }
    }
    assert ProfileFields[..|ProfileFields|] == ProfileFields;
    forall k | k in data && k in Editable
      ensures k in update
    {
      if k == "name" {
        assert ProfileFields[0] == k;
      } else if k == "avatar" {
        assert ProfileFields[1] == k;
      } else if k == "age" {
        assert ProfileFields[2] == k;
      } else {
        assert ProfileFields[3] == k;
      }
    }
  }

  /** `$set` of the update on the caller's document. */
  function ApplyUpdate(users: Users, userId: string, update: Object): Users
    requires userId in users
  {
    users[userId := users[userId] + update]
  }

  /** update_profile: the whitelisted body is checked for emptiness (400)
      before the write and the write for a matched user (404); a successful
      update returns the updated public document. */
  method UpdateProfile(users: Users, userId: string, data: Object) returns (r: Result<Object>, after: Users)
    ensures r.Err? && r.status == 400 <==> data.Keys * Editable == {}
    ensures r.Err? && r.status == 400 ==> r.message == NoValidFields && after == users
    ensures r.Err? && r.status == 404 <==> data.Keys * Editable != {} && userId !in users
    ensures r.Err? && r.status == 404 ==> r.message == UserNotFound && after == users
    ensures r.Err? ==> r.status == 400 || r.status == 404
    ensures r.Ok? ==> userId in users && after == ApplyUpdate(users, userId, Whitelist(data, Editable))
    ensures r.Ok? ==> r.value == Public(userId, after[userId])
  {
    var update := CollectUpdate(data);
    if update == map[] {
      assert update.Keys == {};
      return Err(400, NoValidFields), users;
    }
    assert update.Keys != {} by {
      var k :| k in update;
    }
    if userId !in users {
      return Err(404, UserNotFound), users;
    }
    after := ApplyUpdate(users, userId, update);
    r := Ok(Public(userId, after[userId]));
  }

  /** A successful update writes exactly the whitelisted fields of the body,
      with the body's values; every other field of the document is kept,
      editable fields the body does not carry included, so the email and the
      password are never changed; and no other user's document is touched. */
  lemma UpdateWritesOnlyEditable(users: Users, userId: string, data: Object)
    requires userId in users
    ensures var after := ApplyUpdate(users, userId, Whitelist(data, Editable));
      && after.Keys == users.Keys
      && (forall u :: u in users && u != userId ==> after[u] == users[u])
      && (forall k :: k in Editable && k in data ==> k in after[userId] && after[userId][k] == data[k])
      && (forall k :: k !in Editable || k !in data ==>
            (k in after[userId] <==> k in users[userId]) &&
            (k in users[userId] ==> after[userId][k] == users[userId][k]))
  {
    var update := Whitelist(data, Editable);
    var after := ApplyUpdate(users, userId, update);
    forall k | k !in Editable || k !in data
      ensures (k in after[userId] <==> k in users[userId])
      ensures k in users[userId] ==> after[userId][k] == users[userId][k]
    {
      assert k !in update;
    }
  }

  /** The email and the password are not editable. */
  lemma ProtectedFields()
    ensures "email" !in Editable && "password" !in Editable && "_id" !in Editable
  {
  }
}
