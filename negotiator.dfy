/** The content-negotiation middleware (negotiator.go). It picks a response
    representation from the request's Accept header, sets `Content-Type` only
    when one is found (a miss is a deliberate soft failure), and echoes the
    inhibit-response intent as "1" when the request asks for it. */
module Negotiator {
  import opened Optional
  import opened Strconv
  import opened Http

  /** The weighted Accept matching of section 5.3.2 of RFC 7231, which the
      source takes from a library: given an Accept value and the supported
      formats, the chosen format, if any. */
  type Matcher = (string, seq<string>) -> Option<string>

  /** A matcher only ever chooses one of the supported formats. */
  ghost predicate Sound(m: Matcher)
  {
    forall accept, formats :: m(accept, formats).Some? ==> m(accept, formats).value in formats
  }

  /** An Accept value that is exactly one of the supported formats selects it. */
  ghost predicate PicksExact(m: Matcher)
  {
    forall accept, formats :: accept in formats ==> m(accept, formats) == Some(accept)
  }

  /** The panic Go raises when an empty Accept meets an empty format list. */
  const IndexOutOfRange := Failure("runtime error: index out of range [0] with length 0")

  /** The Accept value negotiated on: the request's, or the first supported
      format when the request has none. */
  function EffectiveAccept(requestHeader: Header, formats: seq<string>): (a: string)
    requires Get(requestHeader, HeaderAccept) != "" || |formats| > 0
    ensures Get(requestHeader, HeaderAccept) == "" ==> a == formats[0]
    ensures Get(requestHeader, HeaderAccept) != "" ==> a == requestHeader[HeaderAccept][0]
  {
    var accept := Get(requestHeader, HeaderAccept);
    if accept == "" then formats[0] else accept
  }

  /** Whether the request asks for the inhibit-response echo. */
  predicate InhibitRequested(requestHeader: Header)
  {
    ParseBool(Get(requestHeader, HeaderSpirentInhibitResponse)) == Some(true)
  }

  /** The response header after negotiation. */
  function Negotiated(h: Header, requestHeader: Header, formats: seq<string>, m: Matcher): Header
    requires Get(requestHeader, HeaderAccept) != "" || |formats| > 0
  {
    var chosen := m(EffectiveAccept(requestHeader, formats), formats);
    var h1 := if chosen.Some? then Set(h, HeaderContentType, chosen.value) else h;
    if InhibitRequested(requestHeader) then Set(h1, HeaderSpirentInhibitResponse, "1") else h1
  }

  /** The response header after the middleware, and the panic it raises, if
      any. */
  function Step(h: Header, requestHeader: Header, formats: seq<string>, m: Matcher): (Header, Option<Panic>)
  {
    if Get(requestHeader, HeaderAccept) == "" && |formats| == 0 then (h, Some(IndexOutOfRange))
    else (Negotiated(h, requestHeader, formats, m), None)
  }

  /** `negotiator.ServeHTTP`; returns the panic it raises, if any. */
  method ServeHTTP(rw: ResponseWriter, requestHeader: Header, formats: seq<string>, m: Matcher)
    returns (p: Option<Panic>)
    modifies rw
    ensures (rw.header, p) == Step(old(rw.header), requestHeader, formats, m)
    ensures rw.written == old(rw.written) && rw.status == old(rw.status) && rw.body == old(rw.body)
  {
    var accept := Get(requestHeader, HeaderAccept);
    if accept == "" {
      if |formats| == 0 {
        return Some(IndexOutOfRange);
      }
      accept := formats[0];
    }
    var chosen := m(accept, formats);
    if chosen.Some? {
      rw.header := Set(rw.header, HeaderContentType, chosen.value);
    }
    if ParseBool(Get(requestHeader, HeaderSpirentInhibitResponse)) == Some(true) {
      rw.header := Set(rw.header, HeaderSpirentInhibitResponse, "1");
    }
    p := None;
  }

  // ---------------------------------------------------------------------------
  // Properties.

  /** `Content-Type` is set to the chosen format exactly when the matcher
      chooses one, and is otherwise left as it was (absent stays absent); the
      inhibit-response header becomes "1" exactly when the request's value
      reads as true under `ParseBool`, and is otherwise left as it was; no
      other header changes. A sound matcher only ever sets a supported format. */
  lemma NegotiatedEffect(h: Header, requestHeader: Header, formats: seq<string>, m: Matcher)
    requires Get(requestHeader, HeaderAccept) != "" || |formats| > 0
    ensures var chosen := m(EffectiveAccept(requestHeader, formats), formats);
            var y := Negotiated(h, requestHeader, formats, m);
            && (chosen.Some? ==> HeaderContentType in y && y[HeaderContentType] == [chosen.value])
            && (chosen.None? ==> Unchanged(h, y, HeaderContentType))
            && (Sound(m) && chosen.Some? ==> y[HeaderContentType][0] in formats)
            && (InhibitRequested(requestHeader) ==> HeaderSpirentInhibitResponse in y && y[HeaderSpirentInhibitResponse] == ["1"])
            && (!InhibitRequested(requestHeader) ==> Unchanged(h, y, HeaderSpirentInhibitResponse))
            && (forall k :: k != HeaderContentType && k != HeaderSpirentInhibitResponse ==> Unchanged(h, y, k))
  {
  }

  /** The key `k` is present in `y` exactly when it is in `h`, with the same values. */
  predicate Unchanged(h: Header, y: Header, k: string)
  {
    (k in y <==> k in h) && (k in h ==> y[k] == h[k])
  }

  /** The middleware writes no status and no body, whatever the request; it
      panics only when the Accept header is empty and no format is supported. */
  lemma NeverWrites(h: Header, requestHeader: Header, formats: seq<string>, m: Matcher)
    ensures Step(h, requestHeader, formats, m).1.Some? <==> Get(requestHeader, HeaderAccept) == "" && formats == []
  {
  }

  /** The cases exercised by negotiator_test.go, with formats [json, xml]: no
      Accept header gives json, an Accept of json gives json, and an
      unsupported Accept (csv) that the matcher does not place adds no
      `Content-Type`. */
  lemma NegotiatorTestCases(m: Matcher, h: Header)
    requires PicksExact(m)
    requires m(ContentTypeCsv, [ContentTypeJson, ContentTypeXml]) == None
    requires HeaderContentType !in h
    ensures var none := map[];
            Step(h, none, [ContentTypeJson, ContentTypeXml], m).0[HeaderContentType] == [ContentTypeJson]
    ensures var json := map[HeaderAccept := [ContentTypeJson]];
            Step(h, json, [ContentTypeJson, ContentTypeXml], m).0[HeaderContentType] == [ContentTypeJson]
    ensures var csv := map[HeaderAccept := [ContentTypeCsv]];
            HeaderContentType !in Step(h, csv, [ContentTypeJson, ContentTypeXml], m).0
  {
    var formats := [ContentTypeJson, ContentTypeXml];
    assert m(ContentTypeJson, formats) == Some(ContentTypeJson);
  }
}
