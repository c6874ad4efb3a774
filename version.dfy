/** The API-version middleware (version.go): it resolves the version a request
    asks for against the service's `[min, max]` range, and either rejects the
    request with a structured error or records the version in the response
    header and in the handler details. */
module Version {
  import opened Optional
  import opened Strconv
  import opened Http

  /** The four outcomes of version resolution. */
  datatype Resolution = Invalid | TooOld(min: int) | TooNew(max: int) | Accepted(version: int)

  /** The version asked for before the range check: the header's integer, or
      `max` when the header is absent or empty; `None` when the header is not
      a decimal integer of at least 1. */
  function Requested(header: string, max: int): (r: Option<int>)
    ensures header == "" ==> r == Some(max)
    ensures header != "" ==> (r.Some? <==> Atoi(header).Some? && Atoi(header).value >= 1)
    ensures header != "" && r.Some? ==> r == Atoi(header)
  {
    if header == "" then Some(max)
    else match Atoi(header)
      case None => None
      case Some(i) => if i < 1 then None else Some(i)
  }

  /** The decision of `version.ServeHTTP`, checks in source order: the header's
      syntax, then the lower bound, then the upper bound. */
  function Resolve(header: string, min: int, max: int): (r: Resolution)
    ensures r.Invalid? <==> Requested(header, max).None?
    ensures r.TooOld? <==> Requested(header, max).Some? && Requested(header, max).value < min
    ensures r.TooNew? <==> Requested(header, max).Some? && min <= Requested(header, max).value && Requested(header, max).value > max
    ensures r.TooOld? ==> r.min == min
    ensures r.TooNew? ==> r.max == max
    ensures r.Accepted? ==> Requested(header, max) == Some(r.version) && min <= r.version <= max
  {
    match Requested(header, max)
    case None => Invalid
    case Some(v) =>
      if v < min then TooOld(min)
      else if v > max then TooNew(max)
      else Accepted(v)
  }

  /** The status each rejection is answered with. */
  function Status(r: Resolution): (code: int)
    requires !r.Accepted?
    ensures code in {StatusBadRequest, StatusGone, StatusNotImplemented}
  {
    match r
    case Invalid => StatusBadRequest
    case TooOld(_) => StatusGone
    case TooNew(_) => StatusNotImplemented
  }

  /** The structured error each rejection carries: the minimum for a version
      that is too old, the maximum for one that is too new. */
  function Error(r: Resolution): ApiError
    requires !r.Accepted?
  {
    match r
    case Invalid => ApiError(EcodeApiVersionInvalid, NoArg, "")
    case TooOld(min) => ApiError(EcodeApiVersionTooOld, VersionArg(min), "")
    case TooNew(max) => ApiError(EcodeApiVersionTooNew, VersionArg(max), "")
  }

  /** The effect of the middleware on the per-request state. */
  function Step(x: Exchange, requestHeader: Header, min: int, max: int): Exchange
  {
    match Resolve(Get(requestHeader, HeaderSpirentApiVersion), min, max)
    case Accepted(v) =>
      x.(header := Add(x.header, HeaderSpirentApiVersion, Itoa(v)), apiVersion := v)
    case r => Written(x, Status(r), ErrorBody(Error(r)))
  }

  /** `version.ServeHTTP`. */
  method ServeHTTP(rw: ResponseWriter, d: HandlerDetails, requestHeader: Header, min: int, max: int)
    modifies rw, d
    ensures State(rw, d) == Step(old(State(rw, d)), requestHeader, min, max)
  {
    var r := Resolve(Get(requestHeader, HeaderSpirentApiVersion), min, max);
    if !r.Accepted? {
      rw.WriteResponse(Status(r), ErrorBody(Error(r)));
      return;
    }
    rw.header := Add(rw.header, HeaderSpirentApiVersion, Itoa(r.version));
    d.apiVersion := r.version;
  }

  // ---------------------------------------------------------------------------
  // Properties of the resolution.

  /** An absent or empty header resolves to the newest version whenever the
      range is not empty. */
  lemma MissingHeaderResolvesToMax(min: int, max: int)
    requires min <= max
    ensures Resolve("", min, max) == Accepted(max)
  {
  }

  /** A header that is not a decimal integer, or names a version below 1, is
      invalid whatever the range: the syntax check comes before the range
      check. A number past the 64-bit range is invalid too, not too new. */
  lemma MalformedIsInvalid(header: string, min: int, max: int)
    requires header != ""
    requires !Decimal(header) || !InInt64(DecimalValue(header)) || DecimalValue(header) < 1
    ensures Resolve(header, min, max) == Invalid
  {
  }

  /** A version is accepted exactly when the header is absent and the newest
      version is in range, or when the header spells it and it is in range. */
  lemma AcceptedIff(header: string, min: int, max: int, v: int)
    ensures Resolve(header, min, max) == Accepted(v)
        <==> min <= v <= max && (if header == "" then v == max else Atoi(header) == Some(v) && v >= 1)
  {
  }

  /** Every version in range is reachable: a client that sends the decimal
      spelling of `v` is served with `v`. */
  lemma RequestedVersionRoundTrip(v: int, min: int, max: int)
    requires 1 <= v && min <= v <= max && v <= MaxInt64
    ensures Resolve(Itoa(v), min, max) == Accepted(v)
  {
    ItoaRoundTrip(v);
  }

  /** The last of a header's values. */
  function Last(s: seq<string>): string
  {
    if s == [] then "" else s[|s| - 1]
  }

  /** On acceptance the middleware writes no status, leaves the body alone,
      appends the version's decimal spelling to the response header (which
      parses back to the version) and stores the version for routing; on
      rejection it writes the status and error and touches neither the header
      nor the stored version. The bounds are Go `int`s, hence 64-bit. */
  lemma StepEffect(x: Exchange, requestHeader: Header, min: int, max: int)
    requires InInt64(min) && InInt64(max)
    ensures var r := Resolve(Get(requestHeader, HeaderSpirentApiVersion), min, max);
            var y := Step(x, requestHeader, min, max);
            && (r.Accepted? ==>
                  && y.written == x.written && y.status == x.status && y.body == x.body
                  && y.apiVersion == r.version && min <= y.apiVersion <= max
                  && HeaderSpirentApiVersion in y.header
                  && Atoi(Last(y.header[HeaderSpirentApiVersion])) == Some(r.version)
                  && (HeaderSpirentApiVersion !in x.header ==> y.header[HeaderSpirentApiVersion] == [Itoa(r.version)])
                  && (HeaderSpirentApiVersion in x.header ==>
                        y.header[HeaderSpirentApiVersion] == x.header[HeaderSpirentApiVersion] + [Itoa(r.version)])
                  && (forall k :: k != HeaderSpirentApiVersion ==>
                        (k in y.header <==> k in x.header) && (k in x.header ==> y.header[k] == x.header[k])))
            && (!r.Accepted? ==>
                  && y.header == x.header && y.apiVersion == x.apiVersion && y.written
                  && (!x.written ==> y.status == Status(r) && y.body == ErrorBody(Error(r)))
                  && (x.written ==> y.status == x.status && y.body == x.body))
  {
    var r := Resolve(Get(requestHeader, HeaderSpirentApiVersion), min, max);
    if r.Accepted? {
      ItoaRoundTrip(r.version);
    }
  }

  /** Each rejection, for every header and range, is answered with its own
      status and error: a malformed header with 400 and the invalid-version
      code, a version below `min` with 410 carrying `min`, and one above `max`
      with 501 carrying `max`. */
  lemma RejectionResponses(header: string, min: int, max: int)
    ensures var r := Resolve(header, min, max);
            && (r.Invalid? ==> Status(r) == StatusBadRequest && Error(r) == ApiError(EcodeApiVersionInvalid, NoArg, ""))
            && (r.TooOld? ==>
                  r.min == min && Status(r) == StatusGone
                  && Error(r) == ApiError(EcodeApiVersionTooOld, VersionArg(min), ""))
            && (r.TooNew? ==>
                  r.max == max && Status(r) == StatusNotImplemented
                  && Error(r) == ApiError(EcodeApiVersionTooNew, VersionArg(max), ""))
  {
  }

  /** The three cases exercised by version_test.go. */
  lemma VersionTestCases()
    ensures Resolve("1", 2, 42) == TooOld(2) && Status(TooOld(2)) == StatusGone
    ensures Resolve("43", 2, 42) == TooNew(42) && Status(TooNew(42)) == StatusNotImplemented
    ensures Resolve("1", 1, 1) == Accepted(1)
  {
    assert Value("1") == 1 by { assert "1"[..0] == []; }
    assert Value("43") == 43 by { assert "43"[..1] == "4"; assert "4"[..0] == []; }
  }
}
