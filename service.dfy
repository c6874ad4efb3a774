/** The service and its request dispatcher (service.go): one router per
    supported API version plus a global router, an ordered middleware list
    that starts with the negotiator and the version check, and `ServeHTTP`,
    which correlates the request, runs the middleware, routes, recovers from
    panics and writes one access-log entry. */
module Services {
  import opened Optional
  import opened Strconv
  import opened Http
  import opened Middleware
  import opened Logging
  import opened Correlation
  import opened Recovery
  import Negotiator
  import Version

  /** The content types the built-in negotiator offers, first the default. */
  const NegotiatedContentTypes := [
    ContentTypeJson, ContentTypeCss, ContentTypePlain, ContentTypeXml,
    ContentTypeHtml, ContentTypeGif, ContentTypePng, ContentTypeOctetStream]

  /** The panic of a call through the nil router of a version that has none. */
  const NilRouter := Failure("runtime error: invalid memory address or nil pointer dereference")

  /** The configuration the dispatcher consults. */
  datatype Config = Config(
    min: int,               // Version.Min
    max: int,               // Version.Max
    cors: bool,             // CORS.Enabled
    debugStacks: bool,      // Debug.Stacks
    stackSize: nat,         // Debug.StackSize
    serviceLogLevel: string,
    serviceLogPath: string,
    accessLogPath: string)

  /** A request router: the handler registered for each path. Matching is
      abstracted to a lookup by the request path. */
  class Mux {
    var routes: map<string, Handler>

    constructor ()
      ensures routes == map[]
    {
      routes := map[];
    }
  }

  /** The dispatcher's view of a service: configuration, middleware and the
      routes of every router. */
  datatype View = View(
    config: Config,
    handlers: seq<Handler>,
    global: map<string, Handler>,
    api: map<int, map<string, Handler>>)

  class Service {
    const config: Config
    const globalRouter: Mux
    var apiRouters: map<int, Mux>
    var handlers: seq<Handler>

    /** One router per version in `[min, max]` and no other, all distinct and
        distinct from the global router. */
    ghost predicate Valid()
      reads this
    {
      && (forall v :: v in apiRouters <==> config.min <= v <= config.max)
      && (forall v :: v in apiRouters ==> apiRouters[v] != globalRouter)
      && (forall v, w :: v in apiRouters && w in apiRouters && v != w ==> apiRouters[v] != apiRouters[w])
    }

    /** `NewService`: the routers, then the two built-in middlewares, the
        negotiator first. */
    constructor (config: Config)
      ensures this.config == config && Valid()
      ensures fresh(globalRouter) && globalRouter.routes == map[]
      ensures forall v :: v in apiRouters ==> fresh(apiRouters[v]) && apiRouters[v].routes == map[]
      ensures handlers == [Negotiate(NegotiatedContentTypes), CheckVersion(config.min, config.max)]
    {
      this.config := config;
      var g := new Mux();
      globalRouter := g;
      var routers: map<int, Mux> := map[];
      var v := config.min;
      while v <= config.max
        invariant config.min <= v && (config.min <= config.max ==> v <= config.max + 1)
        invariant config.min > config.max ==> v == config.min
        invariant g.routes == map[]
        invariant forall w :: w in routers <==> config.min <= w < v
        invariant forall w :: w in routers ==> fresh(routers[w]) && routers[w] != g && routers[w].routes == map[]
        invariant forall w, u :: w in routers && u in routers && w != u ==> routers[w] != routers[u]
        decreases config.max - v
      {
        var r := new Mux();
        routers := routers[v := r];
        v := v + 1;
      }
      apiRouters := routers;
      handlers := [];
      new;
      AddHandler(Negotiate(NegotiatedContentTypes));
      AddHandler(CheckVersion(config.min, config.max));
    }

    /** `Router(version)`: the version's router, or an error outside `[min, max]`. */
    method Router(version: int) returns (router: Mux?, ok: bool)
      requires Valid()
      ensures ok <==> config.min <= version <= config.max
      ensures ok ==> version in apiRouters && router == apiRouters[version]
      ensures !ok ==> router == null
    {
      if version < config.min || version > config.max {
        return null, false;
      }
      return apiRouters[version], true;
    }

    /** `AddHandler`: appends to the middleware list. */
    method AddHandler(h: Handler)
      modifies this
      ensures handlers == old(handlers) + [h]
      ensures apiRouters == old(apiRouters)
    {
      handlers := handlers + [h];
    }

    /** The state the dispatcher reads. */
    function Snapshot(): (v: View)
      reads this, globalRouter, apiRouters.Values
      ensures v.api.Keys == apiRouters.Keys
    {
      View(config, handlers, globalRouter.routes, map k | k in apiRouters :: apiRouters[k].routes)
    }

    /** Routing once no middleware answered. */
    method RouteRequest(res: ResponseWriter, d: HandlerDetails, req: Request, m: Negotiator.Matcher)
      returns (p: Option<Panic>)
      modifies res, d
      ensures (State(res, d), p) == Route(Snapshot(), req, m, old(State(res, d)))
    {
      if req.path in globalRouter.routes {
        p := ServeOne(globalRouter.routes[req.path], res, d, req.header, m);
      } else if d.apiVersion !in apiRouters {
        p := Some(NilRouter);
      } else {
        var router := apiRouters[d.apiVersion];
        if req.path in router.routes {
          p := ServeOne(router.routes[req.path], res, d, req.header, m);
        } else {
          res.WriteHeader(StatusNotFound);
          p := None;
        }
      }
    }

    /** The middleware loop, then routing when no middleware answered. */
    method HandleRequest(res: ResponseWriter, d: HandlerDetails, req: Request, m: Negotiator.Matcher)
      returns (p: Option<Panic>)
      modifies res, d
      ensures (State(res, d), p) == Handle(Snapshot(), req, m, old(State(res, d)))
    {
      var end := RunChain(handlers, res, d, req.header, m);
      match end {
        case PanickedAt(_, panic) =>
          p := Some(panic);
        case AnsweredAt(_) =>
          p := None;
        case Completed =>
          p := RouteRequest(res, d, req, m);
      }
    }

    /** The deferred recovery and logging of `ServeHTTP`. */
    method Respond(res: ResponseWriter, d: HandlerDetails, p: Option<Panic>, req: Request, requestId: string, stack: string)
      returns (r: Served)
      modifies res
      ensures r == Finish(config, req, requestId, old(State(res, d)), p, stack)
    {
      var status := res.status;
      if p.Some? {
        var (s, b) := Recovered(p.value, config.debugStacks, config.stackSize, stack);
        status := s;
        res.WriteResponse(s, b);
      }
      var apiVersion := Get(req.header, HeaderSpirentApiVersion);
      if apiVersion == "" {
        apiVersion := Get(res.header, HeaderSpirentApiVersion);
      }
      var sessionId := Get(req.header, HeaderSessionId);
      r := Served(State(res, d), Entry(config, status, requestId, apiVersion, sessionId));
    }

    /** `Service.ServeHTTP`, given the header map of the server's response
        writer, the Accept matcher, the id the tracer would generate and the
        stack dump a panic would capture. */
    method ServeHTTP(rwHeader: Header, req: Request, m: Negotiator.Matcher, generated: int, stack: string)
      returns (r: Served)
      ensures r == Dispatch(Snapshot(), req, m, generated, stack, rwHeader)
    {
      if config.cors && req.verb == "OPTIONS" {
        return Preflight;
      }
      var requestId := RequestId(Get(req.header, HeaderRequestId), generated);
      var res := new ResponseWriter(Set(rwHeader, HeaderRequestId, requestId));
      var d := new HandlerDetails(requestId);
      var p := HandleRequest(res, d, req, m);
      r := Respond(res, d, p, req, requestId, stack);
    }
  }

  // ---------------------------------------------------------------------------
  // The dispatcher as a function of the service's view.

  /** Routing after the middleware: the global router when it has the path,
      else the router of the stored API version, whose not-found handler
      writes 404. */
  function Route(v: View, req: Request, m: Negotiator.Matcher, x: Exchange): (Exchange, Option<Panic>)
  {
    if req.path in v.global then Apply(v.global[req.path], req.header, m, x)
    else if x.apiVersion !in v.api then (x, Some(NilRouter))
    else if req.path in v.api[x.apiVersion] then Apply(v.api[x.apiVersion][req.path], req.header, m, x)
    else (StatusWritten(x, StatusNotFound), None)
  }

  /** The middleware loop, then routing when no middleware answered. */
  function Handle(v: View, req: Request, m: Negotiator.Matcher, x: Exchange): (Exchange, Option<Panic>)
  {
    var (y, end) := ChainFrom(v.handlers, 0, req.header, m, x);
    match end
    case AnsweredAt(_) => (y, None)
    case PanickedAt(_, p) => (y, Some(p))
    case Completed => Route(v, req, m, y)
  }

  /** One access-log entry: the status, its level, whether the access logger
      writes it, and the request's ids. */
  datatype AccessEntry = AccessEntry(
    status: int,
    level: Level,
    emitted: bool,
    requestId: string,
    apiVersion: string,
    sessionId: Option<string>)

  function Entry(config: Config, status: int, requestId: string, apiVersion: string, sessionId: string): (e: AccessEntry)
  {
    var level := Severity(status);
    var logger := AccessLoggerLevel(config.accessLogPath, config.serviceLogPath, ServiceLevel(config.serviceLogLevel));
    AccessEntry(status, level, Emits(logger, level), requestId, apiVersion,
      if sessionId != "" then Some(sessionId) else None)
  }

  /** What a request comes to: a CORS preflight answered before anything
      else, or a response with its access-log entry. */
  datatype Served = Preflight | Served(response: Exchange, entry: AccessEntry)

  /** The exchange a request starts with: the server's header map with the
      request id set, nothing written, no API version stored. */
  function Start(req: Request, generated: int, rwHeader: Header): Exchange
  {
    Exchange(Set(rwHeader, HeaderRequestId, RequestId(Get(req.header, HeaderRequestId), generated)), false, 0, NoBody, 0)
  }

  /** The deferred part of `ServeHTTP`: the fail-safe response to a panic and
      the access-log entry. The status logged is the recovered one even when
      a status had already been written. */
  function Finish(config: Config, req: Request, requestId: string, y: Exchange, p: Option<Panic>, stack: string): Served
  {
    var status := if p.None? then y.status else Recovered(p.value, config.debugStacks, config.stackSize, stack).0;
    var z := if p.None? then y else Written(y, status, Recovered(p.value, config.debugStacks, config.stackSize, stack).1);
    var requested := Get(req.header, HeaderSpirentApiVersion);
    var apiVersion := if requested != "" then requested else Get(z.header, HeaderSpirentApiVersion);
    Served(z, Entry(config, status, requestId, apiVersion, Get(req.header, HeaderSessionId)))
  }

  function Dispatch(v: View, req: Request, m: Negotiator.Matcher, generated: int, stack: string, rwHeader: Header): Served
  {
    if v.config.cors && req.verb == "OPTIONS" then Preflight
    else
      var outcome := Handle(v, req, m, Start(req, generated, rwHeader));
      Finish(v.config, req, RequestId(Get(req.header, HeaderRequestId), generated), outcome.0, outcome.1, stack)
  }

  // ---------------------------------------------------------------------------
  // Properties of the dispatcher.

  /** The middleware `NewService` installs, negotiator first. */
  predicate DefaultMiddleware(v: View)
  {
    v.handlers == [Negotiate(NegotiatedContentTypes), CheckVersion(v.config.min, v.config.max)]
  }

  /** There is a versioned router for exactly the versions in `[min, max]`. */
  ghost predicate RoutersCover(v: View)
  {
    forall k :: k in v.api <==> v.config.min <= k <= v.config.max
  }

  /** A service built by `NewService` dispatches with the default middleware
      and a router for every supported version. */
  lemma NewServiceView(s: Service)
    requires s.Valid()
    requires s.handlers == [Negotiate(NegotiatedContentTypes), CheckVersion(s.config.min, s.config.max)]
    ensures DefaultMiddleware(s.Snapshot()) && RoutersCover(s.Snapshot())
  {
  }

  lemma RouteKeepsRequestId(v: View, req: Request, m: Negotiator.Matcher, x: Exchange)
    ensures var y := Route(v, req, m, x).0;
            (HeaderRequestId in y.header <==> HeaderRequestId in x.header)
            && (HeaderRequestId in x.header ==> y.header[HeaderRequestId] == x.header[HeaderRequestId])
  {
    if req.path in v.global {
      ApplyKeepsRequestId(v.global[req.path], req.header, m, x);
    } else if x.apiVersion in v.api && req.path in v.api[x.apiVersion] {
      ApplyKeepsRequestId(v.api[x.apiVersion][req.path], req.header, m, x);
    }
  }

  /** Every response that is not a preflight carries the request id in
      `X-Request-Id`, the same id the access log records, and it is the
      decimal spelling of the trace id in use. */
  lemma RequestIdEchoed(v: View, req: Request, m: Negotiator.Matcher, generated: int, stack: string, rwHeader: Header)
    ensures var r := Dispatch(v, req, m, generated, stack, rwHeader);
            r.Served? ==>
              && HeaderRequestId in r.response.header
              && r.response.header[HeaderRequestId] == [r.entry.requestId]
              && r.entry.requestId == Itoa(TraceId(Get(req.header, HeaderRequestId), generated))
  {
    if !(v.config.cors && req.verb == "OPTIONS") {
      var x := Start(req, generated, rwHeader);
      ChainKeepsRequestId(v.handlers, 0, req.header, m, x);
      var (y, end) := ChainFrom(v.handlers, 0, req.header, m, x);
      if end.Completed? {
        RouteKeepsRequestId(v, req, m, y);
      }
    }
  }

  /** A CORS preflight is answered before anything else, and only a
      preflight is. */
  lemma PreflightIff(v: View, req: Request, m: Negotiator.Matcher, generated: int, stack: string, rwHeader: Header)
    ensures Dispatch(v, req, m, generated, stack, rwHeader).Preflight? <==> v.config.cors && req.verb == "OPTIONS"
  {
  }

  /** When a middleware answered (or panicked), routing is skipped: the
      routers' contents make no difference to the outcome. */
  lemma AnsweredSkipsRouting(v: View, req: Request, m: Negotiator.Matcher, generated: int, stack: string, rwHeader: Header,
                             global: map<string, Handler>, api: map<int, map<string, Handler>>)
    requires !ChainFrom(v.handlers, 0, req.header, m, Start(req, generated, rwHeader)).1.Completed?
    ensures Dispatch(v.(global := global, api := api), req, m, generated, stack, rwHeader)
         == Dispatch(v, req, m, generated, stack, rwHeader)
  {
  }

  /** When no middleware answered, the global router wins whenever it has the
      path, whatever the versioned routers hold; the versioned routers are
      consulted only on a global miss, where the global router's other routes
      make no difference. */
  lemma GlobalRouterFirst(v: View, req: Request, m: Negotiator.Matcher, generated: int, stack: string, rwHeader: Header,
                          global: map<string, Handler>, api: map<int, map<string, Handler>>)
    requires ChainFrom(v.handlers, 0, req.header, m, Start(req, generated, rwHeader)).1.Completed?
    ensures req.path in v.global ==>
      Dispatch(v.(api := api), req, m, generated, stack, rwHeader) == Dispatch(v, req, m, generated, stack, rwHeader)
    ensures req.path in v.global ==>
      Handle(v, req, m, Start(req, generated, rwHeader))
        == Apply(v.global[req.path], req.header, m, ChainFrom(v.handlers, 0, req.header, m, Start(req, generated, rwHeader)).0)
    ensures req.path !in v.global && req.path !in global ==>
      Dispatch(v.(global := global), req, m, generated, stack, rwHeader) == Dispatch(v, req, m, generated, stack, rwHeader)
  {
  }

  /** The default middleware never panics; it lets a request through exactly
      when its API version is accepted, storing that version, which then has
      a router; otherwise the version check (the second handler) answers with
      the rejection's status and error. The bounds are Go `int`s. */
  lemma DefaultChainOutcome(v: View, req: Request, m: Negotiator.Matcher, x: Exchange)
    requires DefaultMiddleware(v) && InInt64(v.config.min) && InInt64(v.config.max)
    requires !x.written
    ensures var (y, end) := ChainFrom(v.handlers, 0, req.header, m, x);
            var res := Version.Resolve(Get(req.header, HeaderSpirentApiVersion), v.config.min, v.config.max);
            && !end.PanickedAt?
            && (end.Completed? <==> res.Accepted?)
            && (end.Completed? ==> y.apiVersion == res.version && (RoutersCover(v) ==> y.apiVersion in v.api))
            && (end.AnsweredAt? ==>
                  end.index == 1 && y.status == Version.Status(res) && y.body == ErrorBody(Version.Error(res)))
  {
    var hs := v.handlers;
    var (x1, p1) := Apply(hs[0], req.header, m, x);
    assert p1.None? && !x1.written;
    var (x2, p2) := Apply(hs[1], req.header, m, x1);
    Version.StepEffect(x1, req.header, v.config.min, v.config.max);
    if !x2.written {
      assert ChainFrom(hs, 2, req.header, m, x2) == (x2, Completed);
    }
  }

  /** A service with the default middleware answers a request whose API
      version is rejected with the rejection's status and error, and logs it
      at error exactly when the version is too new (501). */
  lemma DefaultServiceRejects(v: View, req: Request, m: Negotiator.Matcher, generated: int, stack: string, rwHeader: Header)
    requires DefaultMiddleware(v) && InInt64(v.config.min) && InInt64(v.config.max)
    requires !(v.config.cors && req.verb == "OPTIONS")
    requires !Version.Resolve(Get(req.header, HeaderSpirentApiVersion), v.config.min, v.config.max).Accepted?
    ensures var res := Version.Resolve(Get(req.header, HeaderSpirentApiVersion), v.config.min, v.config.max);
            var r := Dispatch(v, req, m, generated, stack, rwHeader);
            && r.Served?
            && r.response.status == Version.Status(res) && r.entry.status == Version.Status(res)
            && r.response.body == ErrorBody(Version.Error(res))
            && (r.entry.level == ErrorLevel <==> res.TooNew?)
  {
    DefaultChainOutcome(v, req, m, Start(req, generated, rwHeader));
  }

  /** A handler keeps the first `X-Spirent-Api-Version` value of the response
      header: the version check only ever appends to it. */
  lemma ApplyKeepsFirstVersion(h: Handler, requestHeader: Header, m: Negotiator.Matcher, x: Exchange)
    requires HeaderSpirentApiVersion in x.header && |x.header[HeaderSpirentApiVersion]| > 0
    ensures Get(Apply(h, requestHeader, m, x).0.header, HeaderSpirentApiVersion) == Get(x.header, HeaderSpirentApiVersion)
  {
    match h
    case Negotiate(formats) =>
      if Get(requestHeader, HeaderAccept) != "" || |formats| > 0 {
        Negotiator.NegotiatedEffect(x.header, requestHeader, formats, m);
      }
    case _ =>
  }

  /** The access log records the API version the client sent, verbatim, or,
      when it sent none, the version the service chose, as the version check
      wrote it into the response header. */
  lemma LoggedApiVersion(v: View, req: Request, m: Negotiator.Matcher, generated: int, stack: string, rwHeader: Header)
    requires DefaultMiddleware(v) && InInt64(v.config.min) && InInt64(v.config.max)
    requires !(v.config.cors && req.verb == "OPTIONS")
    requires Version.Resolve(Get(req.header, HeaderSpirentApiVersion), v.config.min, v.config.max).Accepted?
    requires HeaderSpirentApiVersion !in rwHeader
    ensures var requested := Get(req.header, HeaderSpirentApiVersion);
            var res := Version.Resolve(requested, v.config.min, v.config.max);
            Dispatch(v, req, m, generated, stack, rwHeader).entry.apiVersion
              == if requested != "" then requested else Itoa(res.version)
  {
    var x := Start(req, generated, rwHeader);
    var hs := v.handlers;
    var (x1, p1) := Apply(hs[0], req.header, m, x);
    Negotiator.NegotiatedEffect(x.header, req.header, NegotiatedContentTypes, m);
    assert HeaderSpirentApiVersion !in x1.header;
    Version.StepEffect(x1, req.header, v.config.min, v.config.max);
    DefaultChainOutcome(v, req, m, x);
    var x2 := Version.Step(x1, req.header, v.config.min, v.config.max);
    assert x2.header[HeaderSpirentApiVersion] == [Itoa(x2.apiVersion)];
    assert ChainFrom(hs, 2, req.header, m, x2) == (x2, Completed);
    var (y, end) := ChainFrom(hs, 0, req.header, m, x);
    assert y == x2;
    if req.path in v.global {
      ApplyKeepsFirstVersion(v.global[req.path], req.header, m, y);
    } else if y.apiVersion in v.api && req.path in v.api[y.apiVersion] {
      ApplyKeepsFirstVersion(v.api[y.apiVersion][req.path], req.header, m, y);
    }
  }

  /** A recovered panic is logged with the recovery's status (418 at info for
      a cancelled request, 500 at error otherwise); the client gets that
      status and body only when nothing had been written yet, and otherwise
      keeps the status already sent, so the log and the response disagree. */
  lemma PanicResponse(v: View, req: Request, m: Negotiator.Matcher, generated: int, stack: string, rwHeader: Header)
    requires !(v.config.cors && req.verb == "OPTIONS")
    requires Handle(v, req, m, Start(req, generated, rwHeader)).1.Some?
    ensures var (y, p) := Handle(v, req, m, Start(req, generated, rwHeader));
            var (status, body) := Recovered(p.value, v.config.debugStacks, v.config.stackSize, stack);
            var r := Dispatch(v, req, m, generated, stack, rwHeader);
            && r.entry.status == status
            && r.entry.level == (if p.value.Canceled? then InfoLevel else ErrorLevel)
            && (!y.written ==> r.response.status == status && r.response.body == body)
            && (y.written ==> r.response.status == y.status && r.response.body == y.body)
  {
    var (y, p) := Handle(v, req, m, Start(req, generated, rwHeader));
    RecoveredSeverity(p.value, v.config.debugStacks, v.config.stackSize, stack);
  }

  /** For instance, an application handler that writes 200 and then panics:
      the client sees 200 while the access log records a 500 at error; a
      handler that panics with the cancellation sentinel before writing gives
      418 with no body, logged at info. */
  lemma PanicExamples(v: View, req: Request, m: Negotiator.Matcher, generated: int, stack: string, rwHeader: Header)
    requires !(v.config.cors && req.verb == "OPTIONS")
    ensures var r := Dispatch(v.(handlers := [Custom(None, Some(200), Some(Failure("boom")))]), req, m, generated, stack, rwHeader);
            r.response.status == 200 && r.entry.status == StatusInternalServerError && r.entry.level == ErrorLevel
    ensures var r := Dispatch(v.(handlers := [Custom(None, None, Some(Canceled))]), req, m, generated, stack, rwHeader);
            r.response.status == StatusTeapot && r.response.body == NoBody && r.entry.level == InfoLevel
  {
  }
}
