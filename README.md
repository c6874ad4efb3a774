# luddite.v2 request dispatch, modelled in Dafny

This project models the request-admission core of the luddite.v2 RESTful
service framework (Go) and proves properties of it:

- **API versions** (`version.go`): the `X-Spirent-Api-Version` middleware
  resolves the requested version against the service's `[min, max]`. It either
  rejects the request with 400, 410 or 501 and a structured error, or appends
  the version to the response header and stores it in the handler details.
- **Content negotiation** (`negotiator.go`): an empty `Accept` defaults to
  the first supported format. `Content-Type` is set only when the Accept
  matcher picks a format. `X-Spirent-Inhibit-Response: 1` is echoed when the
  request's value is true for `strconv.ParseBool`.
- **The service** (`service.go`):
  - one router per version in `[min, max]`, plus a global router;
  - the middleware list (negotiator, then version check, then whatever
    `AddHandler` appends);
  - `ServeHTTP`, which works in this order:
    1. correlates the request through `X-Request-Id`;
    2. runs the middleware until one answers;
    3. routes through the global router first, then through the router of the
       stored version;
    4. turns a panic into 418 or 500;
    5. writes one access-log entry at a level chosen from the status class.
  - how the configured log-level string maps to a logger level.
- **Schemas** (`schema.go`): the `:version` parameter becomes the file path
  `/v<n>/<filepath>`, a bad version gives 404, and `Content-Type` depends on
  the case-folded extension.
- **Header helpers** (`header.go`): bearer token, external host, page size
  and resource nonce.

The Go standard-library functions these rely on are modelled on the inputs
they receive. The one approximation, ASCII-only lower-casing, is described
under "Left out":

- `strconv.Atoi`, `ParseInt`, `Itoa` and `ParseBool`, in `strconv.dfy`.
- `strings.ToLower`, `strings.Split` and `path.Ext`, in `text.dfy`.

`ParseInt` keeps Go's quirks:

- It reports a range error as soon as the digits read so far overflow, even
  when a later character is not a digit.
- On a range error it returns the clamped bound.

Layout:

| file | module | models |
|---|---|---|
| `optional.dfy` | `Optional` | the option type |
| `strconv.dfy` | `Strconv` | Go's decimal parsing and formatting |
| `text.dfy` | `Text` | lower-casing, splitting, file extension |
| `http.dfy` | `Http` | header maps, requests, errors, the response wrapper and handler details |
| `version.dfy` | `Version` | `version.go` |
| `negotiator.dfy` | `Negotiator` | `negotiator.go` |
| `schema.dfy` | `Schema` | `schema.go` |
| `header.dfy` | `RequestHeaders` | `header.go` |
| `logging.dfy` | `Logging` | log levels and access-log severity (`service.go`) |
| `correlation.dfy` | `Correlation` | `X-Request-Id` handling (`service.go`) |
| `recovery.dfy` | `Recovery` | the panic response (`service.go`) |
| `middleware.dfy` | `Middleware` | handlers and the middleware loop (`service.go`) |
| `service.dfy` | `Services` | `Service`, its routers, and `ServeHTTP` |

### How state is modelled

- The response wrapper (`Http.ResponseWriter`) and the handler details
  (`Http.HandlerDetails`) are classes.
- The middleware writes to them, and each method is specified against a pure
  step function over a snapshot, `Http.Exchange`.
- The service is a class:
  - its version routers are a `map<int, Mux>`, filled in a loop;
  - its middleware list is a `seq` that `AddHandler` extends;
  - the middleware loop is a `while` loop whose invariant ties it to
    `Middleware.ChainFrom`.
- `Service.ServeHTTP` is proved equal to the pure `Services.Dispatch` over
  `Service.Snapshot()`.
- The properties of the dispatcher are proved about `Dispatch`.

### Stand-ins for code outside the model

Several inputs stand in for code that is not modelled:

- **The Accept matcher** (`Negotiator.Matcher`). The `negotiation` library's
  weighted matching, per section 5.3.2 of RFC 7231, is an arbitrary function.
  - `Negotiator.Sound`: the matcher only picks a supported format.
  - `Negotiator.PicksExact`: an exact supported value picks itself.
  - Lemmas assume these properties only where they need them.
- **The generated trace id and the stack dump.** These are parameters of
  `Services.Service.ServeHTTP`.
- **The URL check of `http.NewRequest`.** This is a parameter of
  `Schema.ServeHTTP`.
- **Routing.** A router maps each request path to a `Middleware.Handler`.
  httptreemux's pattern matching is abstracted to a lookup by path.
- **Application handlers.** A `Middleware.Handler` of the `Custom` kind
  stands for one. It may store an API version, may write a status, and may
  then panic.
- **The response wrapper's status.** The wrapper's source is not part of
  this model. Its status is 0 until something is written, and only the first
  write counts.

## Model

| member | source | states |
|---|---|---|
| Strconv.Atoi | version.go:24 | `strconv.Atoi`. The result is present exactly when the text is an optional sign then one or more decimal digits whose value fits in 64 bits, and it is that value. The short-input fast path agrees with the general path. |
| Strconv.AtoiAgreesWithParseInt | version.go:24 | For inputs of 1 to 18 characters, `Atoi`'s fast path gives the same answer as `ParseInt`. |
| Strconv.ParseInt64 | service.go:426-427 | `strconv.ParseInt(s, 10, 64)`. It parses exactly the in-range decimals, with their value. An out-of-range decimal is a range error clamped to the bound of its sign. |
| Strconv.ParseUint64 | service.go:426-427 | The unsigned scan under `ParseInt`. It succeeds exactly on digit strings up to 2^64-1, and an all-digit string above that is a range error. |
| Strconv.ScanUintFrom | service.go:426-427 | The digit-by-digit scan accumulates exactly the value of the prefix read. |
| Strconv.ValueOfPrefixIsSmaller | service.go:426-427 | A prefix of a digit string never has a larger value than the whole. This is why the early range error is sound. |
| Strconv.ValueBelowPow10 | service.go:426-427 | An n-digit string is worth less than 10^n. |
| Strconv.Itoa | version.go:46 | `strconv.Itoa`. The result is a decimal with no `+`, with a `-` exactly for negatives, and no leading zero other than the spelling "0" itself, and it denotes the input. |
| Strconv.NatDigits | version.go:46 | The digits of a natural number: non-empty, they denote the number, and they start with '0' only when they are exactly "0". |
| Strconv.ItoaRoundTrip | version.go:24-46 | For every 64-bit `v`, both `Atoi(Itoa(v))` and `ParseInt(Itoa(v))` give back `v`. |
| Strconv.CanonicalSpelling | schema.go:28-35 | "+01" parses to 1 and is re-spelt "1", and "-0" parses to 0. The empty string, a bare sign, "1_000" and " 1" are rejected. |
| Strconv.OverflowClamps | service.go:426 | A decimal above MaxInt64 is an `Atoi` error, and `ParseInt` with the error discarded reads it as MaxInt64. |
| Strconv.EarlyRangeError | service.go:426 | Digits whose value exceeds 2^64-1, followed by anything at all, are a range error clamped to MaxInt64, never a syntax error. |
| Strconv.ScanUintOverflows | service.go:426 | Once the digits read so far exceed 2^64-1, the digit scan ends in a range error whatever follows. |
| Strconv.ScanRangeMeansOverflow | service.go:426 | The digit scan ends in a range error only when some leading run of digits exceeds 2^64-1. |
| Strconv.SyntaxUnlessEarlyOverflow | service.go:426-427 | Text that is not a sign and digits, and has no overflowing digit prefix, is a syntax error (the value 0 when the error is discarded). |
| Strconv.ParseBool | negotiator.go:43 | `strconv.ParseBool`. True exactly for "1", "t", "T", "TRUE", "true" and "True". False exactly for "0", "f", "F", "FALSE", "false" and "False". Every other string is an error. |
| Strconv.ParseBoolCases | negotiator.go:43 | Formatting a bool then parsing it gives it back. "1" is true and "0" is false. "", "tRUE" and "yes" are errors. |
| Text.ToLower | service.go:89 | `strings.ToLower` on ASCII: the same length, with each letter lower-cased. |
| Text.ToLowerIdempotent | schema.go:41 | Folding twice is folding once, and no upper-case ASCII letter is left. |
| Text.Split | service.go:425 | `strings.Split` on one character. There is one more part than there are separators, and no part holds the separator. |
| Text.JoinSplit | service.go:425 | Joining the parts of a split with the separator gives back the string. |
| Text.SplitTwo | service.go:425 | Splitting `a:b`, when neither side holds `:`, gives exactly `[a, b]`. |
| Text.Ext | schema.go:41 | `path.Ext`. The result is a suffix that starts with the last dot of the final path element, or it is empty exactly when no dot follows the last slash. |
| Http.Get | header.go:42-47 | `Header.Get`: the first value under the key, or "". |
| Http.ResponseWriter.WriteHeader | service.go:566-568 | Writes the status only if nothing was written before. The header and body are untouched. |
| Http.ResponseWriter.WriteResponse | version.go:27-41 | Writes the status and body only if nothing was written before. The header is untouched. |
| Version.Requested | version.go:22-31 | An absent or empty header asks for `max`. Otherwise the header asks for its `Atoi` value when that value is at least 1, and is invalid when it is not. |
| Version.Resolve | version.go:22-43 | Exactly one outcome, checked in source order: invalid, then too old (carrying `min`), then too new (carrying `max`), then accepted with a version in `[min, max]`. |
| Version.Status | version.go:27-41 | Each rejection's status is 400, 410 or 501. |
| Version.ServeHTTP | version.go:20-51 | The response and details afterwards are `Version.Step` of those before. |
| Version.MissingHeaderResolvesToMax | version.go:22-43 | With `min <= max`, a missing header is accepted as `max`. |
| Version.MalformedIsInvalid | version.go:24-29 | A header that is not a decimal, overflows 64 bits, or is below 1 is invalid whatever the range. |
| Version.AcceptedIff | version.go:22-43 | A version is accepted exactly when it is in range and is either `max` with no header or the header's `Atoi` value of at least 1. |
| Version.RequestedVersionRoundTrip | version.go:24-46 | Every version `v >= 1` in range is reachable by sending `Itoa(v)`. |
| Version.StepEffect | version.go:20-51 | On acceptance: no write, the version stored, its decimal spelling appended after any values the response header already had under the key (so it parses back to the version), and no other header touched. On rejection: header and stored version unchanged, the status and error written when nothing was written before, and an earlier status and body kept otherwise. |
| Version.RejectionResponses | version.go:26-43 | For every header and range: a malformed header is answered with 400 and the invalid-version error, a version below `min` with 410 and an error carrying `min`, one above `max` with 501 and an error carrying `max`. |
| Version.VersionTestCases | version.go:20-51 | "1" against [2, 42] is too old (410). "43" against [2, 42] is too new (501). "1" against [1, 1] is accepted. |
| Negotiator.EffectiveAccept | negotiator.go:22-25 | An empty `Accept` is replaced by the first supported format. |
| Negotiator.ServeHTTP | negotiator.go:20-46 | The response header and the panic are `Negotiator.Step` of the header before. Written status and body are unchanged. |
| Negotiator.NegotiatedEffect | negotiator.go:34-45 | `Content-Type` is set to the matcher's choice when there is one and is otherwise untouched. The inhibit header becomes "1" exactly when `ParseBool` says true and is otherwise untouched. No other header changes. A sound matcher only sets a supported format. |
| Negotiator.NeverWrites | negotiator.go:20-46 | The middleware panics (index out of range) exactly when both `Accept` and the format list are empty. It never writes a status or body. |
| Negotiator.NegotiatorTestCases | negotiator.go:22-36 | With formats [json, xml]: no `Accept` gives json, and an `Accept` of json gives json. An unmatched csv adds no `Content-Type`. |
| Schema.Param | schema.go:25-34 | The value bound to a route parameter (`params["version"]`, `params["filepath"]`), or "" when the route did not bind it, as indexing a Go map of strings gives. |
| Schema.SchemaVersion | schema.go:28-32 | The 404 guard, an `Atoi` error or a version below 1: a version exists exactly when `Atoi` accepts the parameter and its value is at least 1, and it is that value. |
| Schema.Typed | schema.go:41-46 | The extension switch: when the folded extension is ".yaml" or ".yml", `Content-Type` is exactly octet-stream. Otherwise `Content-Type` is deleted. Every other header key is unchanged. |
| Schema.ServeHTTP | schema.go:23-50 | The handler's outcome is `Schema.Decide`: 404 for a bad version, a panic when the rewritten URL is rejected, else delegation to the file server with that path. On 404 only the status is written (first write wins). On a panic the response is unchanged. On delegation the header is `Schema.Typed` of the old one and nothing is written. |
| Schema.RewrittenPath | schema.go:28-35 | Not found exactly for a bad version. A delegated path is `/v` + `Itoa(v)` + `/` + filepath, and its version segment is all digits and parses back to `v`. |
| Schema.SchemaTestCases | schema.go:28-35 | "v", "w1", "v0", "0" and a missing version are not found. "+01" is rewritten to "/v1/...". |
| Schema.ExtOfSuffix | schema.go:41 | A path ending in a dot and a word free of dots and slashes has that dot and word as its extension. |
| Text.ExtBeforeOfWord | schema.go:41 | `path.Ext`'s backward scan stops at a dot followed only by characters other than '.' and '/', and returns the suffix from that dot. |
| Text.ExtBeforeNoDot | schema.go:41 | When no dot follows the last slash (or there is no dot at all), `path.Ext`'s scan returns "". |
| Schema.IsYamlIff | schema.go:41-43 | The YAML test is exactly: the path ends in ".yaml" or ".yml", ignoring letter case. |
| Schema.ContentTypeCases | schema.go:41-46 | "api.yaml" and "v2/API.YML" get octet-stream. "api.json", "docs.yml/readme" and "yml" lose `Content-Type`. |
| RequestHeaders.RequestBearerToken | header.go:35-40 | The token is what follows an exact, case-sensitive "Bearer " prefix. Otherwise it is the `access_token` query value. |
| RequestHeaders.BearerRoundTrip | header.go:36-37 | "Bearer " followed by `t` yields `t`. |
| RequestHeaders.BearerFallback | header.go:36-39 | "", "Bearer", "bearer abc" and "Basic abc" fall back to the query. |
| RequestHeaders.RequestExternalHost | header.go:42-47 | The forwarded host when it is non-empty, else the request host. |
| RequestHeaders.ExternalHostChoice | header.go:42-47 | A non-empty forwarded host wins. An empty or absent one gives the request host. |
| RequestHeaders.RequestPageSize | header.go:57-63 | Any 64-bit decimal, zero and negatives included. `MaxInt32` when the header is absent or invalid. |
| RequestHeaders.PageSizeRoundTrip | header.go:57-63 | `Itoa(n)` reads back as `n`. An absent or non-numeric header reads as `MaxInt32`. |
| RequestHeaders.RequestResourceNonce | header.go:69-71 | The first value of the header verbatim whenever one is present, and "" when the header is absent. |
| Logging.ServiceLevel | service.go:89-100 | "debug", "warn" and "error" in any letter case select their level. Everything else, "info" included, selects info. |
| Logging.ServiceLevelIgnoresCase | service.go:89 | Lower-casing the configured string first does not change the level. |
| Logging.ServiceLevelCases | service.go:89-100 | "DEBUG", "Warn", "error", "info", "" and "verbose" map to debug, warn, error, info, info and info. |
| Logging.AccessLoggerLevel | service.go:102-119 | A dedicated access logger is at info. A shared one has the service level. |
| Logging.GoQuotient | service.go:511 | Go's `/` on `int` truncates toward zero: the remainder `a - q*b` has the sign of `a` (or is 0) and is smaller than `b` in size, so `-1/100` is 0 where floor division would give -1. |
| Logging.Severity | service.go:511-515 | An entry is at error exactly for statuses 500 to 599, and at info otherwise. |
| Logging.AccessEntryEmitted | service.go:511-515 | A dedicated access logger writes every entry. A shared logger at warn or error writes exactly the 5xx entries. Every logger writes 5xx entries. |
| Logging.SeverityBoundaries | service.go:511 | 499 and 600 are at info, and 500 and 599 at error. |
| Logging.NegativeStatusIsInfo | service.go:511 | Every negative status is at info, although Go's `/` truncates toward zero. |
| Correlation.TraceIds | service.go:424-429 | Both ids are 64-bit. They are (0, 0) unless the header splits into exactly two parts, in which case they are each part's `ParseInt` value with the error discarded. |
| Correlation.TraceId | service.go:430-435 | The header's trace id is reused when both ids are positive, and the generated id is used otherwise. |
| Correlation.CorrelationRoundTrip | service.go:424-437 | "t:p" with both positive 64-bit values reuses `t` and echoes `Itoa(t)`. |
| Correlation.WrongShapeRegenerates | service.go:425-433 | A header without exactly one ':' gets the generated id. |
| Correlation.NonPositiveParentRegenerates | service.go:427-433 | A parent id that is zero, negative or a syntax error gets the generated id. |
| Correlation.NonNumericTraceIdRegenerates | service.go:424-435 | A trace id that is not a number and has no overflowing digit prefix reads as 0, so the request gets the generated id. |
| Correlation.NonNumericExamples | service.go:424-435 | "abc:5" and "1x:5" both get the generated id. |
| Correlation.OverflowingTraceIdIsClamped | service.go:426-430 | An overflowing trace id is reused as MaxInt64. |
| Correlation.TrailingJunkTraceIdIsClamped | service.go:424-435 | A trace id made of overflowing digits followed by non-digit junk ("99999999999999999999x:5") is reused as MaxInt64, because the range error comes before the syntax error. |
| Correlation.RequestIdParses | service.go:436-437 | The echoed request id parses back to the trace id. |
| Recovery.Truncate | service.go:477-481 | A prefix of the stack of length `min(len, size)`. |
| Recovery.Recovered | service.go:464-485 | Cancellation gives 418 and no body. Any other panic gives 500 with an internal error carrying the panic and, only when stacks are enabled, the stack truncated to the configured size. |
| Recovery.RecoveredSeverity | service.go:466-483 | A cancelled request is logged at info, any other panic at error. |
| Recovery.StackExposure | service.go:476-481 | A stack that fits is exposed whole. A longer one is cut to exactly the configured size. |
| Middleware.Apply | service.go:540 | A handler never undoes a write. One that cannot set the version keeps it. |
| Middleware.ChainFrom | service.go:539-544 | An answer is at a handler index and leaves the response written. A completed loop leaves an unwritten response unwritten. |
| Middleware.ServeOne | service.go:540 | Running a handler is `Middleware.Apply` on the response and details. |
| Middleware.RunChain | service.go:539-544 | The loop's final state and ending are `ChainFrom` from the first handler. |
| Middleware.ChainAppend | service.go:539-544 | An appended handler runs after all earlier ones, and only when none of them answered or panicked. |
| Middleware.AnsweredIsFinal | service.go:539-544 | Once a handler answers, handlers after it make no difference. |
| Middleware.ChainKeepsRequestId | service.go:539-544 | Neither built-in middleware nor a modelled application handler changes `X-Request-Id`. |
| Middleware.ChainKeepsVersion | service.go:539-544 | Middleware that never set the version leave it unchanged. |
| Services.Service.constructor | service.go:60-133 | There is exactly one fresh, distinct router per version in `[min, max]` and an empty global router. The middleware is negotiator then version check. |
| Services.Service.Router | service.go:146-152 | An error exactly outside `[min, max]`, else that version's router. |
| Services.Service.AddHandler | service.go:156-158 | Appends to the middleware list. |
| Services.Service.RouteRequest | service.go:549-568 | Routing is `Services.Route`: global router, then the stored version's router, then 404. There is a nil-router panic when the version has no router. |
| Services.Service.HandleRequest | service.go:539-556 | The middleware loop then routing is `Services.Handle`. |
| Services.Service.Respond | service.go:455-515 | The deferred recovery and logging is `Services.Finish`. |
| Services.Service.ServeHTTP | service.go:375-558 | The outcome is `Services.Dispatch` of the service's snapshot. |
| Services.NewServiceView | service.go:68-75 | A service built by `NewService` has the default middleware and a router for each supported version. |
| Services.RequestIdEchoed | service.go:436-437 | With the built-in middleware and the modelled handler kinds, every served response carries `X-Request-Id` equal to the logged request id, which is `Itoa` of the trace id. |
| Services.PreflightIff | service.go:403-408 | A preflight answer happens exactly for OPTIONS with CORS enabled. |
| Services.AnsweredSkipsRouting | service.go:539-544 | When middleware answers, the routers' contents make no difference. |
| Services.GlobalRouterFirst | service.go:549-556 | A global hit is served by the global router whatever the versioned routers hold. On a global miss, the global router's other routes make no difference. |
| Services.DefaultChainOutcome | service.go:122-123 | The default middleware never panics. It lets a request through exactly when its version is accepted, storing a version that has a router. Otherwise the version check answers with the rejection. |
| Services.DefaultServiceRejects | service.go:122-123 | A rejected version is answered with its status and error and logged at error exactly when it is too new. |
| Services.LoggedApiVersion | service.go:489-492 | The log records the client's version string verbatim, or the version the service chose when the client sent none. |
| Services.PanicResponse | service.go:464-515 | A panic is logged with the recovery status and level. The client gets that status and body only when nothing was written before. |
| Services.PanicExamples | service.go:464-485 | Writing 200 then panicking: the client sees 200 while the log records 500 at error. Cancellation before writing: 418, no body, logged at info. |

## Left out

- HTTP serving and listeners (`run`, `http.Serve`, the stoppable listeners, `ListenerStoppedError`): I/O.
- `sync.Pool` and `sync.Once`: concurrency.
  - Each request gets a fresh response wrapper and handler details, which stands for objects taken from the pool and re-initialised.
  - The outer recovery at service.go:386-400, which returns them to the pool and logs panics escaping the inner recovery, is not modelled.
- Log files, signals and goroutine dumps (`openLogFile`, `dump_unix.go`, `dump_windows.go`): I/O and signals.
- The CORS handler's own behaviour (rs/cors): the model keeps only the decision that an OPTIONS request ends after CORS handling.
- Trace recorders, joins, spans and annotations (trace.v2):
  - An id generated by `trace.GenerateID` is a parameter.
  - A failed join is ignored by the source and so has no effect.
- Latency measurement and its `%.6f` formatting: the clock and floating point.
- The access-log fields that are copied verbatim (client address, protocol, URI, size, user agent): only status, level, request id, API version and session id are modelled.
- The panic that the service logger records at error before the fail-safe response is not modelled.
- `runtime.Stack`: the captured stack is a parameter. It stands for the stack's bytes, one character per byte, so `Recovery.Truncate` cuts at a byte count as `stack[:size]` does.
- Application handlers' edits to response headers: a `Custom` handler never touches the response header, so `Middleware.ChainKeepsRequestId` and `Services.RequestIdEchoed` hold for the built-in middleware and the modelled handler kinds only. A real handler may `Set` or `Del` `X-Request-Id` after service.go:437, and the client would then see a value different from the logged request id.
- Integer width: Go's `int` is taken to be 64 bits. This fixes the range of `Strconv.Atoi` (`Strconv.InInt64`), the length below which `Atoi` takes its fast path (fewer than 19 bytes), and keeps the `MaxInt32` page-size default inside `int`.
- `AddResource` and the `Add*Route` registrations: their bodies are not part of this model. A router's routes are whatever was registered before the request, and the dispatch lemmas hold for every such routing table.
- Metrics, profiler and schema route registration (service.go:190-233): these are wiring over external handlers.
- httptreemux pattern matching and method dispatch: a router is a lookup by request path. A miss on a versioned router is the not-found handler's 404. The router's own 405 is not modelled.
- `WriteResponse` internals: body serialisation, the 406 for an unmatched `Content-Type`, and response inhibition. A write records a status and an error body.
- `NewError` message formatting: an error is its code and its argument.
- `config.Normalize` and `config.Validate`: the configuration is taken as given.
  - A negative `Debug.StackSize` is not modelled. With one, the stack slice would panic inside the recovery.
- `http.FileServer` behind the schema handler: the model stops at the file path it is called with.
- `url.Parse` inside `http.NewRequest`: it is the `urlOk` parameter.
- `RequestNextLink` and `RequestQueryCursor`: they depend on `net/url` query encoding. The `access_token` query value is read through an already decoded query map.
- Header key canonicalisation (`textproto.CanonicalMIMEHeaderKey`): every key used is already canonical.
- `Text.ToLower`: it lower-cases ASCII letters only. Go's `strings.ToLower` also folds other letters, but the only non-ASCII letters it folds to ASCII letters are U+0130 (to 'i') and the Kelvin sign U+212A (to 'k'). Of the keywords compared ("debug", "info", "warn", "error", ".yaml" and ".yml") only "info" contains an 'i' and none a 'k', and a string that matches no level keyword already selects info. So every configured level and every file extension is classified the same way.
- `RegisterFormat`: it configures the external matcher.

## Notes on the source

- The service installs the negotiator before the version check (service.go:122-123). The model keeps that order.
- `schema_test.go` at lines 18-67 builds the handler with a file system and uses version values such as "v1". `schema.go` takes a directory path and expects a bare integer. The model follows `schema.go`, and `Schema.SchemaTestCases` covers only the invalid-version tests at lines 69-118.
