/** Properties of the Google token validation and the login check. */
module UsersProperties {
  import opened Wrappers
  import opened PyText
  import opened Users

  /** The audience is checked before the issuer: a token wrong on both
      counts is reported as an audience mismatch. */
  lemma AudienceBeforeIssuer(attrs: map<string, Json>, settings: GoogleSettings, verify: Json -> Option<Claims>, claims: Claims)
    requires JsonTruthy(GetOr(attrs, "id_token", JNull))
    requires verify(attrs["id_token"]) == Some(claims)
    requires !AudienceOk(claims, settings) && !IssuerOk(claims, settings)
    ensures ValidateIdToken(attrs, settings, verify) == Failure(AudienceMismatch)
    ensures GoogleMessage(ValidateIdToken(attrs, settings, verify).error) == "Google token audience mismatch."
  {
  }

  /** With the client id unset, exactly the tokens without an audience pass
      the audience check. */
  lemma UnsetClientIdAcceptsOnlyMissingAudience(claims: Claims, issuers: Option<set<string>>)
    ensures AudienceOk(claims, GoogleSettings(None, issuers)) <==> "aud" !in claims || claims["aud"] == JNull
  {
  }

  /** With a client id set, the audience must be that very string. */
  lemma ClientIdMustMatch(claims: Claims, clientId: string, issuers: Option<set<string>>)
    ensures AudienceOk(claims, GoogleSettings(Some(clientId), issuers)) <==> "aud" in claims && claims["aud"] == JStr(clientId)
  {
  }

  /** Without the issuer setting, Google's two issuer spellings are
      accepted and nothing else. */
  lemma DefaultIssuersAccepted(claims: Claims, clientId: Option<string>)
    ensures IssuerOk(claims, GoogleSettings(clientId, None)) <==>
      "iss" in claims
      && (claims["iss"] == JStr("https://accounts.google.com") || claims["iss"] == JStr("accounts.google.com"))
  {
    if "iss" in claims && claims["iss"].JStr? {
      var s := claims["iss"].s;
      assert s in DefaultIssuers <==> s == "https://accounts.google.com" || s == "accounts.google.com";
    }
  }

  /** A missing `email_verified` counts as not verified. */
  lemma MissingEmailVerifiedFails(claims: Claims)
    requires "email_verified" !in claims
    ensures !EmailOk(claims)
  {
  }

  /** On success the merged dictionary keeps the submitted token and every
      other submitted key the serializer does not overwrite. */
  lemma SuccessKeepsSubmittedKeys(attrs: map<string, Json>, settings: GoogleSettings, verify: Json -> Option<Claims>)
    requires ValidateIdToken(attrs, settings, verify).Success?
    ensures var d := AsDict(ValidateIdToken(attrs, settings, verify).value);
            && "id_token" in d && d["id_token"] == Plain(attrs["id_token"])
            && (forall k :: k in attrs ==> k in d)
            && d["claims"] == ClaimsValue(verify(attrs["id_token"]).value)
  {
    assert "id_token" !in AddedKeys;
  }

  /** The merge overwrites: whatever the submitted attributes held under
      the six added keys is lost, so dropping those keys first gives the
      same dictionary. */
  lemma AddedKeysOverwrite(v: Validated)
    ensures AsDict(v) == AsDict(v.(attrs := v.attrs - AddedKeys))
  {
    var d, e := AsDict(v), AsDict(v.(attrs := v.attrs - AddedKeys));
    assert d.Keys == e.Keys;
    forall k | k in d
      ensures d[k] == e[k]
    {
      if k !in AddedKeys {
        assert k in v.attrs - AddedKeys;
      }
    }
  }

  /** With both credentials given the login never ends silently: it returns
      a user or raises with the login message. */
  lemma CredentialsGivenNeverSilent<U>(email: string, password: string, backend: (string, string) -> Option<U>)
    requires email != "" && password != ""
    ensures Authenticate(Some(email), Some(password), backend) != Success(None)
    ensures backend(email, password).None? ==>
      LoginMessage(Authenticate(Some(email), Some(password), backend).error) == "Unable to login with provided credentials"
  {
  }

  /** Without an email or a password the backend is not consulted: any two
      backends give the same answer. */
  lemma MissingCredentialSkipsBackend<U>(email: Option<string>, password: Option<string>, b1: (string, string) -> Option<U>, b2: (string, string) -> Option<U>)
    requires !Truthy(email) || !Truthy(password)
    ensures Authenticate(email, password, b1) == Authenticate(email, password, b2)
  {
  }
}
