/** The request-header helpers of header.go that resource handlers call:
    the bearer token of sections 2.1 and 2.3 of RFC 6750, the external host,
    the page size and the resource nonce. */
module RequestHeaders {
  import opened Optional
  import opened Strconv
  import opened Http

  const BearerPrefix := "Bearer "

  /** The credentials in `Authorization: Bearer <token>` (section 2.1 of RFC
      6750), else the `access_token` query parameter (section 2.3). The
      prefix is matched exactly, letter case included. */
  function RequestBearerToken(r: Request): (t: string)
    ensures var a := Get(r.header, HeaderAuthorization);
            if |a| >= 7 && a[..7] == BearerPrefix then BearerPrefix + t == a
            else t == QueryGet(r.query, "access_token")
  {
    var s := Get(r.header, HeaderAuthorization);
    if |s| >= 7 && s[..7] == BearerPrefix then s[7..] else QueryGet(r.query, "access_token")
  }

  /** Every token survives the trip through the header: a request whose
      Authorization is "Bearer " followed by `t` yields `t`, whatever the query. */
  lemma BearerRoundTrip(r: Request, t: string)
    requires HeaderAuthorization in r.header && |r.header[HeaderAuthorization]| > 0
    requires r.header[HeaderAuthorization][0] == BearerPrefix + t
    ensures RequestBearerToken(r) == t
  {
    assert (BearerPrefix + t)[..7] == BearerPrefix;
  }

  /** Without the exact prefix the query parameter is used: a lower-case
      scheme and a bare "Bearer" (no space) both fall back. */
  lemma BearerFallback(r: Request)
    requires Get(r.header, HeaderAuthorization) in {"", "Bearer", "bearer abc", "Basic abc"}
    ensures RequestBearerToken(r) == QueryGet(r.query, "access_token")
  {
    var a := Get(r.header, HeaderAuthorization);
    if |a| >= 7 {
      assert a[0] != 'B' || a[1] != 'e';
    }
  }

  /** The host as the client saw it: `X-Forwarded-Host` when a proxy set it,
      else the request's own host. */
  function RequestExternalHost(r: Request): (host: string)
    ensures Get(r.header, HeaderForwardedHost) != "" ==> host == Get(r.header, HeaderForwardedHost)
    ensures Get(r.header, HeaderForwardedHost) == "" ==> host == r.host
  {
    var forwarded := Get(r.header, HeaderForwardedHost);
    if forwarded != "" then forwarded else r.host
  }

  /** The proxy's value wins whenever it is present; an empty one is ignored. */
  lemma ExternalHostChoice(r: Request, host: string)
    ensures host != "" ==>
      RequestExternalHost(r.(header := Set(r.header, HeaderForwardedHost, host))) == host
    ensures RequestExternalHost(r.(header := Set(r.header, HeaderForwardedHost, ""))) == r.host
    ensures RequestExternalHost(r.(header := Del(r.header, HeaderForwardedHost))) == r.host
  {
  }

  /** The page size a client asks for: any decimal integer `Atoi` accepts
      (zero and negatives included, no range check), and `MaxInt32` when the
      header is absent or not such an integer. */
  function RequestPageSize(r: Request): (size: int)
    ensures Atoi(Get(r.header, HeaderSpirentPageSize)).Some? ==>
      size == DecimalValue(Get(r.header, HeaderSpirentPageSize))
    ensures Atoi(Get(r.header, HeaderSpirentPageSize)).None? ==> size == MaxInt32
    ensures InInt64(size)
  {
    match Atoi(Get(r.header, HeaderSpirentPageSize))
    case Some(n) => n
    case None => MaxInt32
  }

  /** A page size written as the decimal spelling of `n` reads back as `n`;
      a missing header, an empty one and a malformed one read as `MaxInt32`. */
  lemma PageSizeRoundTrip(r: Request, n: int)
    requires InInt64(n)
    ensures RequestPageSize(r.(header := Set(r.header, HeaderSpirentPageSize, Itoa(n)))) == n
    ensures RequestPageSize(r.(header := Del(r.header, HeaderSpirentPageSize))) == MaxInt32
    ensures RequestPageSize(r.(header := Set(r.header, HeaderSpirentPageSize, "ten"))) == MaxInt32
  {
    ItoaRoundTrip(n);
    assert !IsDigit("ten"[0]);
  }

  /** The resource nonce, verbatim; "" when absent. */
  function RequestResourceNonce(r: Request): (nonce: string)
    ensures nonce != "" ==> HeaderSpirentResourceNonce in r.header && |r.header[HeaderSpirentResourceNonce]| > 0 && nonce == r.header[HeaderSpirentResourceNonce][0]
    ensures HeaderSpirentResourceNonce !in r.header ==> nonce == ""
    ensures HeaderSpirentResourceNonce in r.header && |r.header[HeaderSpirentResourceNonce]| > 0 ==>
      nonce == r.header[HeaderSpirentResourceNonce][0]
  {
    Get(r.header, HeaderSpirentResourceNonce)
  }

  /** A nonce set on a request is read back unchanged. */
  lemma NonceRoundTrip(r: Request, nonce: string)
    ensures RequestResourceNonce(r.(header := Set(r.header, HeaderSpirentResourceNonce, nonce))) == nonce
  {
  }
}
