/** Request correlation (service.go): the `X-Request-Id` header of a request
    may carry "traceId:parentId"; the trace id is reused when both parts are
    positive, and a freshly generated one is used otherwise. The response
    always carries the trace id in decimal. Parse errors are discarded, so a
    part that overflows the 64-bit range reads as the clamped bound. */
module Correlation {
  import opened Optional
  import opened Strconv
  import opened Text

  /** The (traceId, parentId) pair read from the header; (0, 0) unless the
      header splits into exactly two parts around ':'. */
  function TraceIds(hdr: string): (ids: (int, int))
    ensures InInt64(ids.0) && InInt64(ids.1)
    ensures |Split(hdr, ':')| != 2 ==> ids == (0, 0)
    ensures |Split(hdr, ':')| == 2 ==>
      ids == (ValueIgnoringError(ParseInt64(Split(hdr, ':')[0])), ValueIgnoringError(ParseInt64(Split(hdr, ':')[1])))
  {
    if hdr == "" then (0, 0)
    else
      var parts := Split(hdr, ':');
      if |parts| == 2 then
        (Lenient(parts[0]), Lenient(parts[1]))
      else (0, 0)
  }

  /** `strconv.ParseInt(s, 10, 64)` with the error ignored. */
  function Lenient(s: string): (v: int)
    ensures InInt64(v)
    ensures v == ValueIgnoringError(ParseInt64(s))
    ensures Decimal(s) && InInt64(DecimalValue(s)) ==> v == DecimalValue(s)
  {
    ValueIgnoringError(ParseInt64(s))
  }

  /** The trace id of the request: reused when both parts are positive,
      `generated` otherwise. */
  function TraceId(hdr: string, generated: int): (t: int)
    ensures t == generated || (t > 0 && t == TraceIds(hdr).0 && TraceIds(hdr).1 > 0)
    ensures TraceIds(hdr).0 > 0 && TraceIds(hdr).1 > 0 ==> t == TraceIds(hdr).0
  {
    var ids := TraceIds(hdr);
    if ids.0 > 0 && ids.1 > 0 then ids.0 else generated
  }

  /** The value of the `X-Request-Id` response header. */
  function RequestId(hdr: string, generated: int): string
  {
    Itoa(TraceId(hdr, generated))
  }

  // ---------------------------------------------------------------------------
  // Properties.

  /** The decimal spelling of an integer holds no ':'. */
  lemma NoColonInDecimal(s: string)
    requires Decimal(s)
    ensures ':' !in s
  {
    var u := Unsigned(s);
    var off := |s| - |u|;
    assert off == 0 || (off == 1 && s[0] in {'+', '-'});
    assert forall i :: off <= i < |s| ==> s[i] == u[i - off];
  }

  /** An id written by a correlated caller as "traceId:parentId", both
      positive 64-bit integers, is reused, and echoed in the same spelling. */
  lemma CorrelationRoundTrip(traceId: int, parentId: int, generated: int)
    requires 0 < traceId <= MaxInt64 && 0 < parentId <= MaxInt64
    ensures TraceId(Itoa(traceId) + ":" + Itoa(parentId), generated) == traceId
    ensures RequestId(Itoa(traceId) + ":" + Itoa(parentId), generated) == Itoa(traceId)
  {
    NoColonInDecimal(Itoa(traceId));
    NoColonInDecimal(Itoa(parentId));
    SplitTwo(Itoa(traceId), Itoa(parentId), ':');
    assert Itoa(traceId) + [':'] + Itoa(parentId) == Itoa(traceId) + ":" + Itoa(parentId);
    ItoaRoundTrip(traceId);
    ItoaRoundTrip(parentId);
  }

  /** A header that does not split into exactly two parts, an empty one
      included, gets a generated id. */
  lemma {:induction false} WrongShapeRegenerates(hdr: string, generated: int)
    requires Count(hdr, ':') != 1
    ensures TraceId(hdr, generated) == generated
  {
  }

  /** So does one whose parent part is zero, negative, or text that does not
      start as a number (a syntax error). Text that starts with more digits
      than fit in 64 bits is a range error instead, and reads as positive. */
  lemma NonPositiveParentRegenerates(traceId: string, parent: string, generated: int)
    requires ':' !in traceId && ':' !in parent
    requires ParseInt64(parent).SyntaxError? || (Decimal(parent) && DecimalValue(parent) <= 0)
    ensures TraceId(traceId + ":" + parent, generated) == generated
  {
    SplitTwo(traceId, parent, ':');
    assert traceId + [':'] + parent == traceId + ":" + parent;
  }

  /** A trace id that is not a number, such as "abc" or "1x", is a syntax
      error and reads as 0, so the request gets the generated id. */
  lemma NonNumericTraceIdRegenerates(traceId: string, parent: string, generated: int)
    requires ':' !in traceId && ':' !in parent
    requires !Decimal(traceId) && !OverflowingPrefix(Unsigned(traceId))
    ensures TraceId(traceId + ":" + parent, generated) == generated
  {
    SyntaxUnlessEarlyOverflow(traceId);
    SplitTwo(traceId, parent, ':');
    assert traceId + [':'] + parent == traceId + ":" + parent;
  }

  /** "abc:5" and "1x:5" both get the generated id. */
  lemma NonNumericExamples(generated: int)
    ensures TraceId("abc:5", generated) == generated
    ensures TraceId("1x:5", generated) == generated
  {
    assert !OverflowingPrefix("abc") by {
      forall j | 0 < j <= 3 ensures !AllDigits("abc"[..j]) {
        assert "abc"[..j][0] == 'a';
      }
    }
    assert !Decimal("abc") by { assert !IsDigit("abc"[0]); }
    assert "abc:5" == "abc" + ":" + "5";
    NonNumericTraceIdRegenerates("abc", "5", generated);
    assert !OverflowingPrefix("1x") by {
      forall j | 0 < j <= 2 ensures !AllDigits("1x"[..j]) || Value("1x"[..j]) <= MaxUint64 {
        if j == 2 {
          assert "1x"[..j][1] == 'x';
        } else {
          assert "1x"[..j] == "1";
          assert Value("1") == 1 by { assert "1"[..0] == []; }
        }
      }
    }
    assert !Decimal("1x") by { assert !IsDigit("1x"[1]); }
    assert "1x:5" == "1x" + ":" + "5";
    NonNumericTraceIdRegenerates("1x", "5", generated);
  }

  /** A trace id past the 64-bit range is not rejected: it is reused as the
      largest 64-bit integer, because the parse error is discarded. */
  lemma OverflowingTraceIdIsClamped(traceId: string, parentId: int, generated: int)
    requires Decimal(traceId) && DecimalValue(traceId) > MaxInt64
    requires 0 < parentId <= MaxInt64
    ensures TraceId(traceId + ":" + Itoa(parentId), generated) == MaxInt64
  {
    NoColonInDecimal(traceId);
    NoColonInDecimal(Itoa(parentId));
    SplitTwo(traceId, Itoa(parentId), ':');
    assert traceId + [':'] + Itoa(parentId) == traceId + ":" + Itoa(parentId);
    ItoaRoundTrip(parentId);
    OverflowClamps(traceId);
  }

  /** Trailing junk after an overflowing trace id does not matter: the range
      error comes first, so "99999999999999999999x:5" reuses MaxInt64. */
  lemma TrailingJunkTraceIdIsClamped(digits: string, junk: string, parentId: int, generated: int)
    requires |digits| > 0 && AllDigits(digits) && Value(digits) > MaxUint64
    requires ':' !in junk
    requires 0 < parentId <= MaxInt64
    ensures TraceId(digits + junk + ":" + Itoa(parentId), generated) == MaxInt64
  {
    var trace := digits + junk;
    assert ':' !in digits by {
      forall i | 0 <= i < |digits| ensures digits[i] != ':' {
        assert IsDigit(digits[i]);
      }
    }
    assert ':' !in trace by {
      forall i | 0 <= i < |trace| ensures trace[i] != ':' {
        if i < |digits| {
          assert trace[i] == digits[i];
        } else {
          assert trace[i] == junk[i - |digits|];
        }
      }
    }
    NoColonInDecimal(Itoa(parentId));
    SplitTwo(trace, Itoa(parentId), ':');
    assert trace + [':'] + Itoa(parentId) == digits + junk + ":" + Itoa(parentId);
    ItoaRoundTrip(parentId);
    EarlyRangeError(digits, junk);
  }

  /** The echoed id always parses back to the trace id in use. */
  lemma RequestIdParses(hdr: string, generated: int)
    requires InInt64(generated)
    ensures Atoi(RequestId(hdr, generated)) == Some(TraceId(hdr, generated))
  {
    ItoaRoundTrip(TraceId(hdr, generated));
  }
}
