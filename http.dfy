/** The HTTP vocabulary of the dispatch core: header maps and the header names
    it reads and writes (header.go), the request fields it consults, the
    structured errors it answers with, and the two per-request objects every
    stage shares: the response wrapper and the handler details record. */
module Http {
  import opened Optional

  // ---------------------------------------------------------------------------
  // Headers. Keys are kept in Go's canonical form (`X-Spirent-Api-Version`);
  // every key the core uses is already canonical.

  type Header = map<string, seq<string>>

  const HeaderAccept := "Accept"
  const HeaderAuthorization := "Authorization"
  const HeaderContentType := "Content-Type"
  const HeaderForwardedFor := "X-Forwarded-For"
  const HeaderForwardedHost := "X-Forwarded-Host"
  const HeaderRequestId := "X-Request-Id"
  const HeaderSessionId := "X-Session-Id"
  const HeaderSpirentApiVersion := "X-Spirent-Api-Version"
  const HeaderSpirentInhibitResponse := "X-Spirent-Inhibit-Response"
  const HeaderSpirentPageSize := "X-Spirent-Page-Size"
  const HeaderSpirentResourceNonce := "X-Spirent-Resource-Nonce"

  /** Media types of the representations the service negotiates. */
  const ContentTypeJson := "application/json"
  const ContentTypeXml := "application/xml"
  const ContentTypeCss := "text/css"
  const ContentTypePlain := "text/plain"
  const ContentTypeHtml := "text/html"
  const ContentTypeGif := "image/gif"
  const ContentTypePng := "image/png"
  const ContentTypeOctetStream := "application/octet-stream"
  const ContentTypeCsv := "text/csv"

  /** `Header.Get`: the first value stored under `key`, or "" when there is none. */
  function Get(h: Header, key: string): (v: string)
    ensures v != "" ==> key in h && |h[key]| > 0 && v == h[key][0]
    ensures key in h && |h[key]| > 0 ==> v == h[key][0]
  {
    if key in h && |h[key]| > 0 then h[key][0] else ""
  }

  /** `Header.Set`: replaces every value under `key` by `v`. */
  function Set(h: Header, key: string, v: string): Header
  {
    h[key := [v]]
  }

  /** `Header.Add`: appends `v` to the values under `key`. */
  function Add(h: Header, key: string, v: string): Header
  {
    h[key := (if key in h then h[key] else []) + [v]]
  }

  /** `Header.Del`: removes `key` and its values. */
  function Del(h: Header, key: string): Header
  {
    h - {key}
  }

  /** A URL query, as `url.Values`, already decoded. */
  type Query = map<string, seq<string>>

  function QueryGet(q: Query, key: string): string
  {
    if key in q && |q[key]| > 0 then q[key][0] else ""
  }

  /** The request fields the core reads: `verb` is the HTTP method and `path`
      is what the routers match on. */
  datatype Request = Request(
    verb: string,
    path: string,
    header: Header,
    host: string,
    query: Query)

  // ---------------------------------------------------------------------------
  // Status codes with a fixed meaning in the core.

  const StatusBadRequest := 400
  const StatusNotFound := 404
  const StatusGone := 410
  const StatusTeapot := 418
  const StatusInternalServerError := 500
  const StatusNotImplemented := 501

  // ---------------------------------------------------------------------------
  // Panics and the structured error body.

  /** A value a handler panics with: the `context.Canceled` sentinel, or
      anything else (described by a string). */
  datatype Panic = Canceled | Failure(value: string)

  /** The error codes the core itself answers with. */
  datatype ErrorCode = EcodeApiVersionInvalid | EcodeApiVersionTooOld | EcodeApiVersionTooNew | EcodeInternal

  /** The message argument `NewError` formats into an error. */
  datatype ErrorArg = NoArg | VersionArg(version: int) | PanicArg(panic: Panic)

  datatype ApiError = ApiError(code: ErrorCode, arg: ErrorArg, stack: string)

  datatype Body = NoBody | ErrorBody(error: ApiError)

  // ---------------------------------------------------------------------------
  // The per-request state: the response wrapper (header map, written flag,
  // status, body) and the handler details' API version.

  /** A snapshot of the per-request state, in which the specifications of the
      middleware and of the dispatcher are written. */
  datatype Exchange = Exchange(header: Header, written: bool, status: int, body: Body, apiVersion: int)

  /** Writing a status and a body; only the first write of a request counts. */
  function Written(x: Exchange, status: int, body: Body): (y: Exchange)
    ensures y.header == x.header && y.apiVersion == x.apiVersion && y.written
    ensures x.written ==> y == x
    ensures !x.written ==> y.status == status && y.body == body
  {
    if x.written then x else x.(written := true, status := status, body := body)
  }

  /** Writing a status alone (`WriteHeader`); the body is left as it is. */
  function StatusWritten(x: Exchange, status: int): (y: Exchange)
    ensures y.header == x.header && y.apiVersion == x.apiVersion && y.body == x.body && y.written
    ensures x.written ==> y == x
    ensures !x.written ==> y.status == status
  {
    if x.written then x else x.(written := true, status := status)
  }

  /** The response wrapper of one request. `status` is 0 until a status has
      been written; once `written` is set, later writes have no effect. */
  class ResponseWriter {
    var header: Header
    var written: bool
    var status: int
    var body: Body

    /** A wrapper around a response whose header map is `h`. */
    constructor (h: Header)
      ensures header == h && !written && status == 0 && body == NoBody
    {
      header, written, status, body := h, false, 0, NoBody;
    }

    /** `WriteHeader(status)`. */
    method WriteHeader(code: int)
      modifies this
      ensures header == old(header) && written && body == old(body)
      ensures status == if old(written) then old(status) else code
    {
      if !written {
        written, status := true, code;
      }
    }

    /** `WriteResponse(rw, status, body)`: the status and the structured body. */
    method WriteResponse(code: int, b: Body)
      modifies this
      ensures header == old(header) && written
      ensures old(written) ==> status == old(status) && body == old(body)
      ensures !old(written) ==> status == code && body == b
    {
      if !written {
        written, status, body := true, code, b;
      }
    }
  }

  /** The handler details record attached to a request's context. A fresh one
      stands for one taken from the pool and re-initialised. */
  class HandlerDetails {
    var apiVersion: int
    const requestId: string

    constructor (requestId: string)
      ensures apiVersion == 0 && this.requestId == requestId
    {
      apiVersion := 0;
      this.requestId := requestId;
    }
  }

  function State(rw: ResponseWriter, d: HandlerDetails): Exchange
    reads rw, d
  {
    Exchange(rw.header, rw.written, rw.status, rw.body, d.apiVersion)
  }
}
