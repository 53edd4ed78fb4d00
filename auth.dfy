/** The `require_auth` decorator that every Flask blueprint of the backend
    carries a copy of. Token verification itself (PyJWT) is a parameter of
    the model. */
module Auth {
  import opened Wrappers
  import opened Text

  const TokenMissing := "Token is missing!"

  /** The token of an `Authorization: Bearer <token>` header. A token is taken
      only when the header splits on whitespace into exactly two words and the
      first is "Bearer" (case-sensitive); otherwise the token stays empty, and
      an empty token is the 401 "Token is missing!" error. */
  function BearerToken(header: Option<string>): (r: Result<string>)
    ensures r.Err? ==> r.status == 401 && r.message == TokenMissing
    ensures r.Ok? ==> r.value != [] && NoPySpace(r.value)
    ensures r.Ok? <==> header.Some? && |SplitWords(header.value)| == 2 && SplitWords(header.value)[0] == "Bearer"
  {
    var token :=
      if header.Some? then
        var parts := SplitWords(header.value);
        if |parts| == 2 && parts[0] == "Bearer" then parts[1] else ""
      else "";
    if token == "" then Err(401, TokenMissing) else Ok(token)
  }

  /** Any header "Bearer <token>", with any whitespace around and between the
      two words, yields exactly that token. */
  lemma BearerRoundTrip(lead: string, sep: char, gap: string, token: string, trail: string)
    requires forall i :: 0 <= i < |lead| ==> IsPySpace(lead[i])
    requires forall i :: 0 <= i < |gap| ==> IsPySpace(gap[i])
    requires forall i :: 0 <= i < |trail| ==> IsPySpace(trail[i])
    requires IsPySpace(sep) && token != [] && NoPySpace(token)
    ensures BearerToken(Some(lead + "Bearer" + [sep] + gap + token + trail)) == Ok(token)
  {
    SchemesUnspaced();
    SplitTwoWords(lead, "Bearer", sep, gap, token, trail);
    assert lead + "Bearer" + [sep] + gap + token + trail == lead + ("Bearer" + [sep] + (gap + (token + trail)));
  }

  /** A missing header, a lower-case scheme, or a token split in two are all
      rejected with the 401 error. */
  lemma BearerRejects(token: string)
    requires token != [] && NoPySpace(token)
    ensures BearerToken(None) == Err(401, TokenMissing)
    ensures BearerToken(Some("bearer " + token)).Err?
    ensures BearerToken(Some("Bearer")).Err?
    ensures BearerToken(Some("Bearer " + token + " " + token)).Err?
  {
    RejectsLowerScheme(token);
    RejectsBareScheme();
    RejectsTwoTokens(token);
  }

  lemma RejectsLowerScheme(token: string)
    requires token != [] && NoPySpace(token)
    ensures BearerToken(Some("bearer " + token)).Err?
  {
    SchemesUnspaced();
    assert "bearer " + token == "bearer" + [' '] + token;
    SplitWordsCons("bearer", ' ', token);
  }

  lemma RejectsBareScheme()
    ensures BearerToken(Some("Bearer")).Err?
  {
    SchemesUnspaced();
    SplitWordsSingle("Bearer");
  }

  lemma RejectsTwoTokens(token: string)
    requires token != [] && NoPySpace(token)
    ensures BearerToken(Some("Bearer " + token + " " + token)).Err?
  {
    SchemesUnspaced();
    assert "Bearer " + token + " " + token == "Bearer" + [' '] + (token + [' '] + token);
    SplitWordsCons("Bearer", ' ', token + [' '] + token);
    SplitWordsCons(token, ' ', token);
  }

  /** The scheme, in either case, holds no whitespace. */
  lemma SchemesUnspaced()
    ensures "Bearer" != [] && NoPySpace("Bearer") && NoPySpace("bearer") && IsPySpace(' ')
  {
  }

  /** The `require_auth` of chatbot.py, dashboard.py, mood.py and
      settings.py: the header check, then the token verification
      (`jwt.decode`, a parameter here: it yields the user id or the 401
      "Token expired." / "Token is invalid." error). profile.py's copy adds a
      user lookup, modelled in ProfileApi. */
  function Authenticate(header: Option<string>, decode: string -> Result<string>): (r: Result<string>)
    ensures BearerToken(header).Err? ==> r == BearerToken(header)
    ensures BearerToken(header).Ok? ==> r == decode(BearerToken(header).value)
  {
    match BearerToken(header)
    case Err(s, m) => Err(s, m)
    case Ok(token) => decode(token)
  }
}
