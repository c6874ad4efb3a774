/** The service's handlers and its middleware loop (service.go). A handler
    is one of the two built-in middlewares or an application handler, seen
    abstractly as a step that may store an API version, may write a status,
    and may then panic. The loop runs the middleware list in order and stops at the
    first handler that leaves the response written. */
module Middleware {
  import opened Optional
  import opened Http
  import Negotiator
  import Version

  /** A handler the service runs: the negotiator, the API-version check, or
      an application handler, which stores a version, writes a status and
      panics, each optionally and in that order. */
  datatype Handler =
    | Negotiate(formats: seq<string>)
    | CheckVersion(min: int, max: int)
    | Custom(setsVersion: Option<int>, writesStatus: Option<int>, raises: Option<Panic>)

  /** Whether the handler may change the stored API version. */
  predicate SetsVersion(h: Handler)
  {
    h.CheckVersion? || (h.Custom? && h.setsVersion.Some?)
  }

  /** The effect of one handler on the per-request state, and the panic it
      raises, if any. `m` is the Accept matcher the negotiator uses. */
  function Apply(h: Handler, requestHeader: Header, m: Negotiator.Matcher, x: Exchange): (r: (Exchange, Option<Panic>))
    ensures x.written ==> r.0.written && r.0.status == x.status && r.0.body == x.body
    ensures !SetsVersion(h) ==> r.0.apiVersion == x.apiVersion
  {
    match h
    case Negotiate(formats) =>
      var (header, p) := Negotiator.Step(x.header, requestHeader, formats, m);
      (x.(header := header), p)
    case CheckVersion(min, max) =>
      (Version.Step(x, requestHeader, min, max), None)
    case Custom(setsVersion, writesStatus, raises) =>
      var x1 := if setsVersion.Some? then x.(apiVersion := setsVersion.value) else x;
      var x2 := if writesStatus.Some? then Written(x1, writesStatus.value, NoBody) else x1;
      (x2, raises)
  }

  /** How the middleware loop ended. */
  datatype ChainEnd = Completed | AnsweredAt(index: nat) | PanickedAt(index: nat, panic: Panic)

  /** The middleware loop from handler `i` on: the final state and how the
      loop ended. */
  function ChainFrom(hs: seq<Handler>, i: nat, requestHeader: Header, m: Negotiator.Matcher, x: Exchange): (r: (Exchange, ChainEnd))
    requires i <= |hs|
    decreases |hs| - i
    ensures r.1.AnsweredAt? ==> i <= r.1.index < |hs| && r.0.written
    ensures r.1.PanickedAt? ==> i <= r.1.index < |hs|
    ensures r.1.Completed? && !x.written ==> !r.0.written
  {
    if i == |hs| then (x, Completed)
    else
      var (y, p) := Apply(hs[i], requestHeader, m, x);
      if p.Some? then (y, PanickedAt(i, p.value))
      else if y.written then (y, AnsweredAt(i))
      else ChainFrom(hs, i + 1, requestHeader, m, y)
  }

  /** Runs one handler on the request's response wrapper and details. */
  method ServeOne(h: Handler, rw: ResponseWriter, d: HandlerDetails, requestHeader: Header, m: Negotiator.Matcher)
    returns (p: Option<Panic>)
    modifies rw, d
    ensures (State(rw, d), p) == Apply(h, requestHeader, m, old(State(rw, d)))
  {
    match h
    case Negotiate(formats) =>
      p := Negotiator.ServeHTTP(rw, requestHeader, formats, m);
    case CheckVersion(min, max) =>
      Version.ServeHTTP(rw, d, requestHeader, min, max);
      p := None;
    case Custom(setsVersion, writesStatus, raises) =>
      if setsVersion.Some? {
        d.apiVersion := setsVersion.value;
      }
      if writesStatus.Some? {
        rw.WriteResponse(writesStatus.value, NoBody);
      }
      p := raises;
  }

  /** The loop over the middleware list: each handler in turn, stopping as
      soon as one panics or leaves the response written. */
  method RunChain(hs: seq<Handler>, rw: ResponseWriter, d: HandlerDetails, requestHeader: Header, m: Negotiator.Matcher)
    returns (end: ChainEnd)
    modifies rw, d
    ensures (State(rw, d), end) == ChainFrom(hs, 0, requestHeader, m, old(State(rw, d)))
  {
    var i := 0;
    end := Completed;
    while i < |hs|
      invariant 0 <= i <= |hs|
      invariant ChainFrom(hs, i, requestHeader, m, State(rw, d)) == ChainFrom(hs, 0, requestHeader, m, old(State(rw, d)))
      decreases |hs| - i
    {
      var p := ServeOne(hs[i], rw, d, requestHeader, m);
      if p.Some? {
        return PanickedAt(i, p.value);
      }
      if rw.written {
        return AnsweredAt(i);
      }
      i := i + 1;
    }
  }

  // ---------------------------------------------------------------------------
  // Properties.

  /** `AddHandler` appends, so a handler added last runs after all the others,
      and only when none of them panicked or answered. */
  lemma {:induction false} ChainAppend(hs: seq<Handler>, h: Handler, i: nat, requestHeader: Header, m: Negotiator.Matcher, x: Exchange)
    requires i <= |hs|
    ensures var (y, end) := ChainFrom(hs, i, requestHeader, m, x);
            ChainFrom(hs + [h], i, requestHeader, m, x) ==
              if end.Completed? then ChainFrom(hs + [h], |hs|, requestHeader, m, y) else (y, end)
    decreases |hs| - i
  {
    if i < |hs| {
      assert (hs + [h])[i] == hs[i];
      var (y, p) := Apply(hs[i], requestHeader, m, x);
      if p.None? && !y.written {
        ChainAppend(hs, h, i + 1, requestHeader, m, y);
      }
    }
  }

  /** The loop stops at the first handler that answers: every earlier handler
      left the response unwritten, and the later ones never run, so appending
      handlers cannot change an answered request. */
  lemma {:induction false} AnsweredIsFinal(hs: seq<Handler>, more: seq<Handler>, requestHeader: Header, m: Negotiator.Matcher, x: Exchange)
    requires ChainFrom(hs, 0, requestHeader, m, x).1.AnsweredAt?
    ensures ChainFrom(hs + more, 0, requestHeader, m, x) == ChainFrom(hs, 0, requestHeader, m, x)
  {
    AnsweredIsFinalFrom(hs, more, 0, requestHeader, m, x);
  }

  lemma {:induction false} AnsweredIsFinalFrom(hs: seq<Handler>, more: seq<Handler>, i: nat, requestHeader: Header, m: Negotiator.Matcher, x: Exchange)
    requires i <= |hs|
    requires !ChainFrom(hs, i, requestHeader, m, x).1.Completed?
    ensures ChainFrom(hs + more, i, requestHeader, m, x) == ChainFrom(hs, i, requestHeader, m, x)
    decreases |hs| - i
  {
    assert i < |hs|;
    assert (hs + more)[i] == hs[i];
    var (y, p) := Apply(hs[i], requestHeader, m, x);
    if p.None? && !y.written {
      AnsweredIsFinalFrom(hs, more, i + 1, requestHeader, m, y);
    }
  }

  /** No handler touches the `X-Request-Id` response header, so whatever the
      middleware does, the request id set before it survives. */
  lemma {:induction false} ChainKeepsRequestId(hs: seq<Handler>, i: nat, requestHeader: Header, m: Negotiator.Matcher, x: Exchange)
    requires i <= |hs|
    ensures var y := ChainFrom(hs, i, requestHeader, m, x).0;
            (HeaderRequestId in y.header <==> HeaderRequestId in x.header)
            && (HeaderRequestId in x.header ==> y.header[HeaderRequestId] == x.header[HeaderRequestId])
    decreases |hs| - i
  {
    if i < |hs| {
      var (y, p) := Apply(hs[i], requestHeader, m, x);
      ApplyKeepsRequestId(hs[i], requestHeader, m, x);
      if p.None? && !y.written {
        ChainKeepsRequestId(hs, i + 1, requestHeader, m, y);
      }
    }
  }

  lemma ApplyKeepsRequestId(h: Handler, requestHeader: Header, m: Negotiator.Matcher, x: Exchange)
    ensures var y := Apply(h, requestHeader, m, x).0;
            (HeaderRequestId in y.header <==> HeaderRequestId in x.header)
            && (HeaderRequestId in x.header ==> y.header[HeaderRequestId] == x.header[HeaderRequestId])
  {
    match h
    case Negotiate(formats) =>
      if Get(requestHeader, HeaderAccept) != "" || |formats| > 0 {
        Negotiator.NegotiatedEffect(x.header, requestHeader, formats, m);
      }
    case _ =>
  }

  /** A loop whose handlers never set the API version leaves it as it was. */
  lemma {:induction false} ChainKeepsVersion(hs: seq<Handler>, i: nat, requestHeader: Header, m: Negotiator.Matcher, x: Exchange)
    requires i <= |hs|
    requires forall j :: i <= j < |hs| ==> !SetsVersion(hs[j])
    ensures ChainFrom(hs, i, requestHeader, m, x).0.apiVersion == x.apiVersion
    decreases |hs| - i
  {
    if i < |hs| {
      var (y, p) := Apply(hs[i], requestHeader, m, x);
      if p.None? && !y.written {
        ChainKeepsVersion(hs, i + 1, requestHeader, m, y);
      }
    }
  }
}
