/** Properties of the Paga helpers: which spellings of the base URL and the
    endpoint give the same URL, and what a reference number tells about the
    UUID it came from. */
module PagaProperties {
  import opened Wrappers
  import opened PyText
  import opened Paga

  /** Leading slashes on the endpoint make no difference: `"payment"` and
      `"//payment"` are posted to the same URL. */
  lemma EndpointLeadingSlashesIgnored(baseEnv: Option<string>, slashes: string, endpoint: string)
    requires AllSlashes(slashes)
    ensures JoinUrl(baseEnv, slashes + endpoint) == JoinUrl(baseEnv, endpoint)
  {
    TrimLeftAllDropped(slashes, endpoint, IsSlash);
  }

  /** Trailing slashes on the base URL make no difference. */
  lemma BaseTrailingSlashesIgnored(base: string, slashes: string, endpoint: string)
    requires AllSlashes(slashes)
    ensures JoinUrl(Some(base + slashes), endpoint) == JoinUrl(Some(base), endpoint)
  {
    TrimRightDropSuffix(base, slashes, IsSlash);
    if base == "" {
      assert base + slashes == slashes;
      TrimRightSpec(slashes, IsSlash);
    }
  }

  /** A base without a trailing slash and an endpoint without a leading one
      are joined with exactly one slash between them. */
  lemma CanonicalJoin(base: string, endpoint: string)
    requires base != "" && base[|base| - 1] != '/'
    requires endpoint == [] || endpoint[0] != '/'
    ensures JoinUrl(Some(base), endpoint) == Success(base + "/" + endpoint)
  {
  }

  /** Whatever the spelling, the joining slash is the only slash at the
      seam: the base part does not end with one and the endpoint part does
      not start with one. */
  lemma SingleSlashAtSeam(baseEnv: Option<string>, endpoint: string)
    requires JoinUrl(baseEnv, endpoint).Success?
    ensures var url := JoinUrl(baseEnv, endpoint).value;
            exists k :: 0 < k < |url| && url[k] == '/' && url[k - 1] != '/'
              && (k + 1 == |url| || url[k + 1] != '/')
  {
    var url := JoinUrl(baseEnv, endpoint).value;
    var raw := OrElse(baseEnv, "");
    TrimRightSpec(raw, IsSlash);
    TrimLeftSpec(endpoint, IsSlash);
    var k :| 0 < k < |url| && url[k] == '/'
        && url[..k] == TrimRight(raw, IsSlash)
        && url[k + 1..] == TrimLeft(endpoint, IsSlash);
    assert url[k - 1] == url[..k][k - 1];
    if k + 1 < |url| {
      assert url[k + 1] == url[k + 1..][0];
    }
  }

  /** The request is prepared, with a warning, even when both principal and
      credentials are missing. */
  lemma MissingCredentialsOnlyWarn(baseEnv: Option<string>, endpoint: string)
    requires JoinUrl(baseEnv, endpoint).Success?
    ensures var r := PreparePost(baseEnv, endpoint, None, None);
            r.Success? && r.value.warned && r.value.headers.principal.None?
  {
  }

  /** A missing, empty or all-slash base URL stops the call with the
      environment-variable error, whatever the credentials. */
  lemma MissingBaseUrlReported(baseEnv: Option<string>, endpoint: string, principal: Option<string>, credentials: Option<string>)
    requires AllSlashes(OrElse(baseEnv, ""))
    ensures var r := PreparePost(baseEnv, endpoint, principal, credentials);
            && r == Failure(MissingBaseUrl)
            && PagaMessage(r.error) == "Missing required environment variable: PAGA_BASE_URL"
  {
  }

  // ----- arithmetic on hex digits -----

  /** Multiplying by a natural number keeps the order. */
  lemma {:induction false} MulLeftLe(p: nat, a: int, b: int)
    ensures a <= b ==> p * a <= p * b
    decreases p
  {
    if p > 0 {
      MulLeftLe(p - 1, a, b);
    }
  }

  /** Euclidean division has one quotient and one remainder. */
  lemma DivUnique(u: int, d: int, q: int, m: int)
    requires d > 0 && 0 <= m < d && u == d * q + m
    ensures u / d == q && u % d == m
  {
    var q0 := u / d;
    MulLeftLe(d, q + 1, q0);
    MulLeftLe(d, q0 + 1, q);
  }

  lemma {:induction false} Pow16Add(a: nat, b: nat)
    ensures Pow16(a + b) == Pow16(a) * Pow16(b)
    decreases b
  {
    if b > 0 {
      Pow16Add(a, b - 1);
      assert Pow16(a + b) == 16 * Pow16(a + b - 1);
    }
  }

  /** Dividing by 16 and then by `p` is dividing by `16 p`. */
  lemma DivDiv16(u: int, p: nat)
    requires p > 0
    ensures (u / 16) / p == u / (16 * p)
    ensures (u / 16) % p * 16 + u % 16 == u % (16 * p)
  {
    var q := u / 16;
    var q2, r2 := q / p, q % p;
    assert u == 16 * q + u % 16;
    assert q == p * q2 + r2;
    assert u == (16 * p) * q2 + (16 * r2 + u % 16);
    DivUnique(u, 16 * p, q2, 16 * r2 + u % 16);
  }

  /** `DivDiv16` for a power of 16. */
  lemma DivPow16(u: int, m: nat)
    requires m > 0
    ensures (u / 16) / Pow16(m - 1) == u / Pow16(m)
    ensures (u / 16) % Pow16(m - 1) * 16 + u % 16 == u % Pow16(m)
  {
    var p := Pow16(m - 1);
    assert Pow16(m) == 16 * p;
    DivDiv16(u, p);
  }

  /** The last `n + m` digits are the last `n` digits of `u / 16^m`
      followed by the last `m` digits of `u`. */
  lemma {:induction false} HexDigitsSplit(u: int, n: nat, m: nat)
    ensures HexDigits(u, n + m) == HexDigits(u / Pow16(m), n) + HexDigits(u, m)
    decreases m
  {
    if m == 0 {
      assert HexDigits(u, 0) == [];
      assert HexDigits(u, n + m) == HexDigits(u / Pow16(m), n) + [];
    } else {
      var x := u / 16;
      var c := HexChar(u % 16);
      HexDigitsSplit(x, n, m - 1);
      DivPow16(u, m);
      var high := HexDigits(x / Pow16(m - 1), n);
      var low := HexDigits(x, m - 1);
      assert HexDigits(u, n + m) == HexDigits(x, n + m - 1) + [c];
      assert HexDigits(u, m) == low + [c];
      assert high + low + [c] == high + (low + [c]);
    }
  }

  /** Parsing the last `n` digits of `u` gives `u` modulo `16^n`. */
  lemma {:induction false} ParseHexDigits(u: int, n: nat)
    ensures ParseHex(HexDigits(u, n)) == u % Pow16(n)
    decreases n
  {
    if n > 0 {
      var s := HexDigits(u, n);
      assert s[..n - 1] == HexDigits(u / 16, n - 1);
      ParseHexDigits(u / 16, n - 1);
      DivPow16(u, n);
      HexValueOfChar(u % 16);
    }
  }

  lemma HexValueOfChar(d: nat)
    requires d < 16
    ensures HexValue(HexChar(d)) == d
  {
  }

  /** Upper-casing hex digits does not change their value. */
  lemma {:induction false} ParseHexUpper(s: string)
    requires forall i :: 0 <= i < |s| ==> IsLowerHex(s[i])
    ensures forall i :: 0 <= i < |s| ==> IsUpperHex(Upper(s)[i])
    ensures ParseHex(Upper(s)) == ParseHex(s)
    decreases |s|
  {
    if s != [] {
      ParseHexUpper(s[..|s| - 1]);
      assert Upper(s)[..|s| - 1] == Upper(s[..|s| - 1]);
    }
  }

  /** The reference is the upper half of the UUID's 128 bits, in hex. */
  lemma ReferenceIsHighHalf(u: nat)
    requires u < Pow16(UuidLength)
    ensures Reference(u) == Upper(HexDigits(u / Pow16(ReferenceLength), ReferenceLength))
  {
    HexPrefix(u, ReferenceLength, ReferenceLength);
  }

  /** The first `n` of the last `n + m` digits of `u` are the last `n`
      digits of `u / 16^m`. */
  lemma HexPrefix(u: int, n: nat, m: nat)
    ensures HexDigits(u, n + m)[..n] == HexDigits(u / Pow16(m), n)
  {
    HexDigitsSplit(u, n, m);
  }

  /** The digit at position `n` of the last `n + m + 1` digits of `u`. */
  lemma HexDigitAt(u: int, n: nat, m: nat)
    ensures HexDigits(u, n + 1 + m)[n] == HexChar((u / Pow16(m)) % 16)
  {
    HexDigitsSplit(u, n + 1, m);
    var x := u / Pow16(m);
    var high := HexDigits(x, n + 1);
    assert high == HexDigits(x / 16, n) + [HexChar(x % 16)];
    assert high[n] == HexChar(x % 16);
    assert (high + HexDigits(u, m))[n] == high[n];
  }

  /** Below `p * p`, dividing by `p` leaves something below `p`. */
  lemma DivBelow(u: nat, p: nat)
    requires p > 0 && u < p * p
    ensures 0 <= u / p < p
  {
    MulLeftLe(p, p, u / p);
    MulLeftLe(p, u / p, -1);
  }

  /** Parsing a reference back gives the upper 64 bits of the UUID. */
  lemma ReferenceRoundTrip(u: nat)
    requires u < Pow16(UuidLength)
    ensures ParseHex(Reference(u)) == u / Pow16(ReferenceLength)
  {
    var n := ReferenceLength;
    var p := Pow16(n);
    Pow16Add(n, n);
    DivBelow(u, p);
    var high: int := u / p;
    ReferenceIsHighHalf(u);
    ParseHexUpper(HexDigits(high, n));
    ParseHexDigits(high, n);
    DivUnique(high, p, 0, high);
  }

  /** Two UUIDs give the same reference exactly when their upper halves
      agree: the 64 bits after them never show. */
  lemma SameReferenceIffSameHighHalf(u: nat, v: nat)
    requires u < Pow16(UuidLength) && v < Pow16(UuidLength)
    ensures Reference(u) == Reference(v) <==> u / Pow16(ReferenceLength) == v / Pow16(ReferenceLength)
  {
    ReferenceIsHighHalf(u);
    ReferenceIsHighHalf(v);
    ReferenceRoundTrip(u);
    ReferenceRoundTrip(v);
  }

  /** The position of the version digit of a UUID in its hex form, counted
      from the left, and the power of 16 it stands for. */
  const VersionPosition: nat := 12
  const VersionPower: nat := 19

  /** A version 4 UUID has the digit 4 at hex position 12, so the thirteenth
      character of every reference is `4`. */
  lemma ReferenceVersionDigit(u: nat)
    requires u < Pow16(UuidLength)
    requires (u / Pow16(VersionPower)) % 16 == 4
    ensures Reference(u)[VersionPosition] == '4'
  {
    HexDigitAt(u, VersionPosition, VersionPower);
  }
}
