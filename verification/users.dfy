/** The credential checks of the user serializers: the Google ID-token
    validation and the email-and-password login. The token verifier and the
    authentication backend are foreign calls and are parameters here. */
module Users {
  import opened Wrappers
  import opened PyText

  /** A JSON value of a verified token's claims; `JNull` also stands for
      Python's `None`. */
  datatype Json = JNull | JBool(b: bool) | JInt(i: int) | JStr(s: string)

  /** Python truthiness of a claim value. */
  predicate JsonTruthy(v: Json) {
    match v
    case JNull => false
    case JBool(b) => b
    case JInt(i) => i != 0
    case JStr(s) => s != ""
  }

  type Claims = map<string, Json>

  /** `d.get(key, default)`. */
  function GetOr(d: map<string, Json>, key: string, default: Json): (v: Json)
    ensures key in d ==> v == d[key]
    ensures key !in d ==> v == default
  {
    if key in d then d[key] else default
  }

  /** Python `==` between a claim value and an optional setting string:
      `None` equals only `None`, a string only the same string. */
  predicate SameAs(v: Json, setting: Option<string>) {
    match v
    case JNull => setting.None?
    case JStr(s) => setting == Some(s)
    case _ => false
  }

  /** The issuer set used when the setting is absent. */
  const DefaultIssuers: set<string> := {"https://accounts.google.com", "accounts.google.com"}

  /** Python `in` of a claim value in a set of strings. */
  predicate InIssuers(v: Json, issuers: set<string>) {
    v.JStr? && v.s in issuers
  }

  datatype GoogleError =
    | TokenRequired | InvalidToken | AudienceMismatch | InvalidIssuer | EmailNotVerified

  function GoogleMessage(e: GoogleError): string {
    match e
    case TokenRequired => "id_token is required"
    case InvalidToken => "Invalid Google ID token"
    case AudienceMismatch => "Google token audience mismatch."
    case InvalidIssuer => "Invalid token issuer."
    case EmailNotVerified => "Email not present/verified by Google."
  }

  /** The Google configuration: the client id (an environment variable that
      may be unset) and the issuer setting (`None` when absent). */
  datatype GoogleSettings = GoogleSettings(clientId: Option<string>, issuers: Option<set<string>>)

  function Issuers(settings: GoogleSettings): set<string> {
    if settings.issuers.Some? then settings.issuers.value else DefaultIssuers
  }

  /** `attrs` after a successful validation: the incoming keys and the six
      keys the serializer adds, kept apart; `AsDict` merges them. */
  datatype Validated = Validated(
    attrs: map<string, Json>, claims: Claims,
    email: Json, firstName: Json, lastName: Json, picture: Json, googleSub: Json)

  /** An entry of the merged dictionary: a plain value or the claims
      dictionary stored under `claims`. */
  datatype AttrValue = Plain(value: Json) | ClaimsValue(claims: Claims)

  /** The six keys the serializer adds. */
  const AddedKeys: set<string> := {"claims", "email", "first_name", "last_name", "picture", "google_sub"}

  /** `attrs.update({...})`: the added keys overwrite, every other key of
      `attrs` is kept. */
  function AsDict(v: Validated): (d: map<string, AttrValue>)
    ensures d.Keys == v.attrs.Keys + AddedKeys
    ensures forall k :: k in v.attrs && k !in AddedKeys ==> d[k] == Plain(v.attrs[k])
    ensures && d["claims"] == ClaimsValue(v.claims) && d["email"] == Plain(v.email)
            && d["first_name"] == Plain(v.firstName) && d["last_name"] == Plain(v.lastName)
            && d["picture"] == Plain(v.picture) && d["google_sub"] == Plain(v.googleSub)
  {
    (map k | k in v.attrs :: Plain(v.attrs[k])) + map[
      "claims" := ClaimsValue(v.claims), "email" := Plain(v.email),
      "first_name" := Plain(v.firstName), "last_name" := Plain(v.lastName),
      "picture" := Plain(v.picture), "google_sub" := Plain(v.googleSub)]
  }

  /** The claim checks shared by `ValidateIdToken` and its lemmas. */
  predicate AudienceOk(claims: Claims, settings: GoogleSettings) {
    SameAs(GetOr(claims, "aud", JNull), settings.clientId)
  }

  predicate IssuerOk(claims: Claims, settings: GoogleSettings) {
    InIssuers(GetOr(claims, "iss", JNull), Issuers(settings))
  }

  /** `email_verified` defaults to false when absent. */
  predicate EmailOk(claims: Claims) {
    JsonTruthy(GetOr(claims, "email", JNull)) && JsonTruthy(GetOr(claims, "email_verified", JBool(false)))
  }

  /** `GoogleIDTokenSerializer.validate`. `verify` is the signature and
      expiry check of the Google library: `None` when it raises. */
  function ValidateIdToken(attrs: map<string, Json>, settings: GoogleSettings, verify: Json -> Option<Claims>): (r: Result<Validated, GoogleError>)
    // the checks run in order and the first failing one is reported
    ensures r == Failure(TokenRequired) <==> !JsonTruthy(GetOr(attrs, "id_token", JNull))
    ensures r == Failure(InvalidToken) <==>
      JsonTruthy(GetOr(attrs, "id_token", JNull)) && verify(attrs["id_token"]).None?
    ensures r == Failure(AudienceMismatch) <==>
      && JsonTruthy(GetOr(attrs, "id_token", JNull)) && verify(attrs["id_token"]).Some?
      && !AudienceOk(verify(attrs["id_token"]).value, settings)
    ensures r == Failure(InvalidIssuer) <==>
      && JsonTruthy(GetOr(attrs, "id_token", JNull)) && verify(attrs["id_token"]).Some?
      && AudienceOk(verify(attrs["id_token"]).value, settings)
      && !IssuerOk(verify(attrs["id_token"]).value, settings)
    ensures r == Failure(EmailNotVerified) <==>
      && JsonTruthy(GetOr(attrs, "id_token", JNull)) && verify(attrs["id_token"]).Some?
      && AudienceOk(verify(attrs["id_token"]).value, settings)
      && IssuerOk(verify(attrs["id_token"]).value, settings)
      && !EmailOk(verify(attrs["id_token"]).value)
    // on success the claims are those the verifier returned, and the
    // profile fields come from them with their defaults
    ensures r.Success? ==>
      && JsonTruthy(GetOr(attrs, "id_token", JNull))
      && verify(attrs["id_token"]) == Some(r.value.claims)
      && AudienceOk(r.value.claims, settings) && IssuerOk(r.value.claims, settings)
      && EmailOk(r.value.claims)
      && r.value.attrs == attrs
      && r.value.email == r.value.claims["email"]
      && r.value.firstName == GetOr(r.value.claims, "given_name", JStr(""))
      && r.value.lastName == GetOr(r.value.claims, "family_name", JStr(""))
      && r.value.picture == GetOr(r.value.claims, "picture", JStr(""))
      && r.value.googleSub == GetOr(r.value.claims, "sub", JNull)
  {
    var raw := GetOr(attrs, "id_token", JNull);
    if !JsonTruthy(raw) then Failure(TokenRequired)
    else
      match verify(raw)
      case None => Failure(InvalidToken)
      case Some(claims) =>
        if !AudienceOk(claims, settings) then Failure(AudienceMismatch)
        else if !IssuerOk(claims, settings) then Failure(InvalidIssuer)
        else if !EmailOk(claims) then Failure(EmailNotVerified)
        else
          Success(Validated(attrs, claims, claims["email"],
            GetOr(claims, "given_name", JStr("")), GetOr(claims, "family_name", JStr("")),
            GetOr(claims, "picture", JStr("")), GetOr(claims, "sub", JNull)))
  }

  /** The login serializer's only error. */
  datatype LoginError = LoginFailed

  function LoginMessage(e: LoginError): string {
    match e
    case LoginFailed => "Unable to login with provided credentials"
  }

  /** `CustomLoginSerializer.authenticate`: with both credentials given,
      the backend's user or the login error; otherwise no user and no error.
      `backend` is Django's `authenticate`. */
  function Authenticate<U>(email: Option<string>, password: Option<string>, backend: (string, string) -> Option<U>): (r: Result<Option<U>, LoginError>)
    ensures !Truthy(email) || !Truthy(password) ==> r == Success(None)
    ensures Truthy(email) && Truthy(password) ==>
      match backend(email.value, password.value)
      case Some(u) => r == Success(Some(u))
      case None => r == Failure(LoginFailed)
  {
    if Truthy(email) && Truthy(password) then
      match backend(email.value, password.value)
      case Some(u) => Success(Some(u))
      case None => Failure(LoginFailed)
    else
      Success(None)
  }
}
