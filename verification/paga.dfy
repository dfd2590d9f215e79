/** The Paga request helpers: the URL of a `paga_post` call, the headers it
    sends, and the shape of `generate_reference`. The environment, the hash
    and the HTTP call are outside the model; the environment variables are
    parameters. */
module Paga {
  import opened Wrappers
  import opened PyText

  datatype PagaError = MissingBaseUrl

  function PagaMessage(e: PagaError): string {
    match e
    case MissingBaseUrl => "Missing required environment variable: PAGA_BASE_URL"
  }

  /** Every character is a `/` (the empty string included). */
  predicate AllSlashes(s: string) {
    forall i :: 0 <= i < |s| ==> s[i] == '/'
  }

  /** `(base or "").rstrip('/')` must be non-empty; the URL is that base, one
      `/`, and the endpoint with its leading slashes removed. */
  function JoinUrl(baseEnv: Option<string>, endpoint: string): (r: Result<string, PagaError>)
    ensures r.Failure? <==> AllSlashes(OrElse(baseEnv, ""))
    ensures r.Success? ==>
      exists k :: 0 < k < |r.value| && r.value[k] == '/'
        && r.value[..k] == TrimRight(OrElse(baseEnv, ""), IsSlash)
        && r.value[k + 1..] == TrimLeft(endpoint, IsSlash)
  {
    var raw := OrElse(baseEnv, "");
    var base := TrimRight(raw, IsSlash);
    TrimRightSpec(raw, IsSlash);
    if base == "" then
      Failure(MissingBaseUrl)
    else
      var url := base + "/" + TrimLeft(endpoint, IsSlash);
      assert url[..|base|] == base && url[|base| + 1..] == TrimLeft(endpoint, IsSlash);
      Success(url)
  }

  /** The headers of the request; the hash header is left out. */
  datatype Headers = Headers(principal: Option<string>, credentials: Option<string>, contentType: string)

  const JsonContentType: string := "application/json"

  /** A request ready to be sent, and whether the missing-credentials
      warning was logged. */
  datatype Prepared = Prepared(url: string, headers: Headers, warned: bool)

  /** `paga_post` up to the HTTP call. */
  function PreparePost(baseEnv: Option<string>, endpoint: string, principal: Option<string>, credentials: Option<string>): (r: Result<Prepared, PagaError>)
    // the only modelled failure is the missing base URL, raised before the
    // warning; the hash header, which can raise, is left out
    ensures r.Failure? <==> JoinUrl(baseEnv, endpoint).Failure?
    ensures r.Success? ==> Success(r.value.url) == JoinUrl(baseEnv, endpoint)
    // a warning, never an error, when both are missing or empty
    ensures r.Success? ==> (r.value.warned <==> !Truthy(principal) && !Truthy(credentials))
    // the environment values are put in the headers dict as they are, even
    // when missing
    ensures r.Success? ==> r.value.headers == Headers(principal, credentials, JsonContentType)
  {
    match JoinUrl(baseEnv, endpoint)
    case Failure(e) => Failure(e)
    case Success(url) =>
      Success(Prepared(url, Headers(principal, credentials, JsonContentType), !Truthy(principal) && !Truthy(credentials)))
  }

  /** 16 to the `n`. */
  function Pow16(n: nat): (p: nat)
    ensures p >= 1
  {
    if n == 0 then 1 else 16 * Pow16(n - 1)
  }

  predicate IsLowerHex(c: char) {
    '0' <= c <= '9' || 'a' <= c <= 'f'
  }

  predicate IsUpperHex(c: char) {
    '0' <= c <= '9' || 'A' <= c <= 'F'
  }

  /** The lower-case hex digit of `d`. */
  function HexChar(d: nat): (c: char)
    requires d < 16
    ensures IsLowerHex(c)
  {
    if d < 10 then ('0' as int + d) as char else ('a' as int + d - 10) as char
  }

  /** The value of a hex digit of either case. */
  function HexValue(c: char): (d: nat)
    requires IsLowerHex(c) || IsUpperHex(c)
    ensures d < 16
  {
    if '0' <= c <= '9' then c as int - '0' as int
    else if 'a' <= c <= 'f' then c as int - 'a' as int + 10
    else c as int - 'A' as int + 10
  }

  /** An ASCII upper-case of one character: `a` to `z` become `A` to `Z`
      and everything else is kept. Python's `str.upper()` also changes
      non-ASCII letters, but on hex digits the two agree. */
  function UpperChar(c: char): char {
    if 'a' <= c <= 'z' then (c as int - 32) as char else c
  }

  function Upper(s: string): (r: string)
    ensures |r| == |s| && forall i :: 0 <= i < |s| ==> r[i] == UpperChar(s[i])
  {
    seq(|s|, i requires 0 <= i < |s| => UpperChar(s[i]))
  }

  /** The last `n` hex digits of `u`, most significant first, zero-padded:
      Python's `'%0{n}x' % u` when `u < 16^n`. */
  function HexDigits(u: int, n: nat): (s: string)
    ensures |s| == n
    ensures forall i :: 0 <= i < n ==> IsLowerHex(s[i])
    decreases n
  {
    if n == 0 then [] else HexDigits(u / 16, n - 1) + [HexChar(u % 16)]
  }

  /** The value of a string of hex digits. */
  function ParseHex(s: string): (v: nat)
    requires forall i :: 0 <= i < |s| ==> IsLowerHex(s[i]) || IsUpperHex(s[i])
    ensures v < Pow16(|s|)
  {
    if s == [] then 0 else 16 * ParseHex(s[..|s| - 1]) + HexValue(s[|s| - 1])
  }

  /** The number of hex digits of a UUID, and of a reference. */
  const UuidLength: nat := 32
  const ReferenceLength: nat := 16

  /** A version 4 UUID as its 128-bit integer; `uuid.hex` is its 32 hex
      digits. */
  function UuidHex(u: nat): (h: string)
    requires u < Pow16(UuidLength)
    ensures |h| == UuidLength
  {
    HexDigits(u, UuidLength)
  }

  /** `generate_reference`: the first 16 hex digits of the UUID,
      upper-cased. */
  function Reference(u: nat): (r: string)
    requires u < Pow16(UuidLength)
    ensures |r| == ReferenceLength
    ensures forall i :: 0 <= i < ReferenceLength ==> IsUpperHex(r[i]) && r[i] == UpperChar(UuidHex(u)[i])
  {
    Upper(UuidHex(u)[..ReferenceLength])
  }
}
