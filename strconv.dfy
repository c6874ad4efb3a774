/** Go's `strconv` conversions that the dispatch core relies on, for a 64-bit
    platform: `ParseInt(s, 10, 64)`, `Atoi`, `Itoa`/`FormatInt(v, 10)` and
    `ParseBool`. Strings are sequences of characters; every character the
    parsers accept is ASCII, so counting characters instead of bytes changes
    no answer (see `AtoiAgreesWithParseInt`). */
module Strconv {
  import opened Optional

  const MaxInt32: int := 0x7fff_ffff
  const MaxInt64: int := 0x7fff_ffff_ffff_ffff
  const MinInt64: int := -0x8000_0000_0000_0000
  const MaxUint64: int := 0xffff_ffff_ffff_ffff

  predicate InInt64(v: int) { MinInt64 <= v <= MaxInt64 }

  predicate IsDigit(c: char) { '0' <= c <= '9' }

  predicate AllDigits(s: string) { forall i :: 0 <= i < |s| ==> IsDigit(s[i]) }

  function DigitValue(c: char): (d: nat)
    requires IsDigit(c)
    ensures d < 10
  {
    (c as int) - ('0' as int)
  }

  function DigitChar(d: nat): (c: char)
    requires d < 10
    ensures IsDigit(c) && DigitValue(c) == d
  {
    (('0' as int) + d) as char
  }

  /** The number a run of decimal digits denotes, most significant digit first. */
  function Value(s: string): nat
    requires AllDigits(s)
  {
    if s == [] then 0 else 10 * Value(s[..|s| - 1]) + DigitValue(s[|s| - 1])
  }

  function Pow10(n: nat): (p: nat)
    ensures p >= 1
  {
    if n == 0 then 1 else 10 * Pow10(n - 1)
  }

  lemma {:induction false} ValueBelowPow10(s: string)
    requires AllDigits(s)
    ensures Value(s) < Pow10(|s|)
  {
    if s != [] {
      ValueBelowPow10(s[..|s| - 1]);
    }
  }

  lemma {:induction false} Pow10Monotonic(m: nat, n: nat)
    requires m <= n
    ensures Pow10(m) <= Pow10(n)
  {
    if m < n {
      Pow10Monotonic(m, n - 1);
    }
  }

  lemma {:induction false} ValueOfPrefixIsSmaller(s: string, i: nat)
    requires AllDigits(s) && i <= |s|
    ensures AllDigits(s[..i]) && Value(s[..i]) <= Value(s)
  {
    if i == |s| {
      assert s[..i] == s;
    } else {
      var t := s[..|s| - 1];
      assert t[..i] == s[..i];
      assert AllDigits(t);
      assert Value(s) == 10 * Value(t) + DigitValue(s[|s| - 1]);
      ValueOfPrefixIsSmaller(t, i);
      assert Value(s[..i]) <= Value(t) <= Value(s);
    }
  }

  lemma ValueOfNextPrefix(s: string, i: nat)
    requires i < |s| && AllDigits(s[..i + 1])
    ensures AllDigits(s[..i]) && Value(s[..i + 1]) == 10 * Value(s[..i]) + DigitValue(s[i])
  {
    assert s[..i + 1][..i] == s[..i];
  }

  // ---------------------------------------------------------------------------
  // ParseUint(s, 10, 64): the digit loop. It stops with a syntax error at the
  // first character that is not a digit, and with a range error as soon as the
  // digits read so far denote more than 2^64 - 1, whichever comes first.

  datatype UintScan = UintOk(n: nat) | UintSyntax | UintRange

  function ScanUint(s: string, i: nat, n: nat): UintScan
    requires i <= |s|
    decreases |s| - i
  {
    if i == |s| then UintOk(n)
    else if !IsDigit(s[i]) then UintSyntax
    else if 10 * n + DigitValue(s[i]) > MaxUint64 then UintRange
    else ScanUint(s, i + 1, 10 * n + DigitValue(s[i]))
  }

  lemma {:induction false} ScanUintFrom(s: string, i: nat)
    requires i <= |s| && AllDigits(s[..i]) && Value(s[..i]) <= MaxUint64
    ensures var r := ScanUint(s, i, Value(s[..i]));
            && (r.UintOk? <==> AllDigits(s) && Value(s) <= MaxUint64)
            && (r.UintOk? ==> r.n == Value(s))
            && (AllDigits(s) && Value(s) > MaxUint64 ==> r.UintRange?)
    decreases |s| - i
  {
    if i == |s| {
      assert s[..i] == s;
    } else if !IsDigit(s[i]) {
      assert !AllDigits(s);
    } else {
      assert AllDigits(s[..i + 1]) by {
        assert forall j :: 0 <= j < i ==> s[..i + 1][j] == s[..i][j];
      }
      ValueOfNextPrefix(s, i);
      if 10 * Value(s[..i]) + DigitValue(s[i]) > MaxUint64 {
        if AllDigits(s) {
          ValueOfPrefixIsSmaller(s, i + 1);
        }
      } else {
        ScanUintFrom(s, i + 1);
      }
    }
  }

  /** Once the digits read so far exceed 2^64 - 1 the scan stops with a range
      error, whatever follows. */
  lemma {:induction false} ScanUintOverflows(s: string, i: nat, j: nat)
    requires i <= j <= |s| && AllDigits(s[..j]) && Value(s[..j]) > MaxUint64
    requires AllDigits(s[..i]) && Value(s[..i]) <= MaxUint64
    ensures ScanUint(s, i, Value(s[..i])).UintRange?
    decreases j - i
  {
    if i == j {
      assert false;
    }
    assert s[..j][i] == s[i];
    assert AllDigits(s[..i + 1]) by {
      assert forall k :: 0 <= k <= i ==> s[..i + 1][k] == s[..j][k];
    }
    ValueOfNextPrefix(s, i);
    if 10 * Value(s[..i]) + DigitValue(s[i]) <= MaxUint64 {
      ScanUintOverflows(s, i + 1, j);
    }
  }

  function ParseUint64(s: string): (r: UintScan)
    ensures r.UintOk? <==> s != [] && AllDigits(s) && Value(s) <= MaxUint64
    ensures r.UintOk? ==> r.n == Value(s)
    ensures s != [] && AllDigits(s) && Value(s) > MaxUint64 ==> r.UintRange?
  {
    if s == [] then UintSyntax
    else
      assert s[..0] == [];
      ScanUintFrom(s, 0);
      ScanUint(s, 0, 0)
  }

  // ---------------------------------------------------------------------------
  // ParseInt(s, 10, 64).

  /** What `ParseInt` returns: a value, or an error together with the value Go
      returns beside it (0 for a syntax error, the nearer bound for a range
      error). */
  datatype IntParse = Parsed(value: int) | SyntaxError | RangeError(clamped: int)

  /** `s` without its leading sign, if it has one. */
  function Unsigned(s: string): (d: string)
    ensures |d| <= |s|
  {
    if |s| > 0 && (s[0] == '+' || s[0] == '-') then s[1..] else s
  }

  /** `s` is an optional sign followed by one or more decimal digits. */
  predicate Decimal(s: string)
  {
    |s| > 0 && |Unsigned(s)| > 0 && AllDigits(Unsigned(s))
  }

  function DecimalValue(s: string): int
    requires Decimal(s)
  {
    if s[0] == '-' then -(Value(Unsigned(s)) as int) else Value(Unsigned(s))
  }

  function ParseInt64(s: string): (r: IntParse)
    ensures r.Parsed? <==> Decimal(s) && InInt64(DecimalValue(s))
    ensures r.Parsed? ==> r.value == DecimalValue(s)
    ensures r.RangeError? ==> |s| > 0 && r.clamped == (if s[0] == '-' then MinInt64 else MaxInt64)
    ensures Decimal(s) && !InInt64(DecimalValue(s)) ==> r.RangeError?
  {
    if s == [] then SyntaxError
    else
      var neg := s[0] == '-';
      match ParseUint64(Unsigned(s))
      case UintSyntax => SyntaxError
      case UintRange => if neg then RangeError(MinInt64) else RangeError(MaxInt64)
      case UintOk(un) =>
        if !neg && un > MaxInt64 then RangeError(MaxInt64)
        else if neg && un > -MinInt64 then RangeError(MinInt64)
        else Parsed(if neg then -(un as int) else un)
  }

  /** The range error comes first: digits whose value already exceeds
      2^64 - 1 give a range error (clamped to MaxInt64) even when a character
      that is not a digit follows. */
  lemma EarlyRangeError(digits: string, rest: string)
    requires |digits| > 0 && AllDigits(digits) && Value(digits) > MaxUint64
    ensures ParseInt64(digits + rest) == RangeError(MaxInt64)
  {
    var s := digits + rest;
    assert IsDigit(s[0]);
    assert Unsigned(s) == s;
    assert s[..|digits|] == digits;
    assert s[..0] == [];
    ScanUintOverflows(s, 0, |digits|);
  }

  /** Some leading run of digits of `d` already exceeds 2^64 - 1. */
  ghost predicate OverflowingPrefix(d: string)
  {
    exists j :: 0 < j <= |d| && AllDigits(d[..j]) && Value(d[..j]) > MaxUint64
  }

  /** The scan ends in a range error only because some digit prefix overflows. */
  lemma {:induction false} ScanRangeMeansOverflow(s: string, i: nat)
    requires i <= |s| && AllDigits(s[..i]) && Value(s[..i]) <= MaxUint64
    requires ScanUint(s, i, Value(s[..i])).UintRange?
    ensures OverflowingPrefix(s)
    decreases |s| - i
  {
    assert i < |s| && IsDigit(s[i]);
    assert AllDigits(s[..i + 1]) by {
      assert forall k :: 0 <= k < i ==> s[..i + 1][k] == s[..i][k];
    }
    ValueOfNextPrefix(s, i);
    if 10 * Value(s[..i]) + DigitValue(s[i]) > MaxUint64 {
      assert 0 < i + 1 <= |s| && Value(s[..i + 1]) > MaxUint64;
    } else {
      ScanRangeMeansOverflow(s, i + 1);
    }
  }

  /** Every other malformed input is a syntax error (value 0): text that is
      not a sign and digits, and has no overflowing digit prefix. */
  lemma SyntaxUnlessEarlyOverflow(s: string)
    requires !Decimal(s) && !OverflowingPrefix(Unsigned(s))
    ensures ParseInt64(s) == SyntaxError
  {
    if s != [] {
      var u := Unsigned(s);
      if u != [] {
        assert u[..0] == [];
        ScanUintFrom(u, 0);
        if ScanUint(u, 0, 0).UintRange? {
          ScanRangeMeansOverflow(u, 0);
        }
      }
    }
  }

  /** The integer Go hands back when the caller discards the error. */
  function ValueIgnoringError(r: IntParse): int
  {
    match r
    case Parsed(v) => v
    case SyntaxError => 0
    case RangeError(c) => c
  }

  // ---------------------------------------------------------------------------
  // Atoi.

  /** The loop Go's `Atoi` runs for strings shorter than 19 bytes. */
  function AtoiFast(s: string): Option<int>
    requires |s| > 0
  {
    var d := Unsigned(s);
    if d == [] || !AllDigits(d) then None
    else if s[0] == '-' then Some(-(Value(d) as int))
    else Some(Value(d))
  }

  function AsOption(r: IntParse): Option<int>
  {
    if r.Parsed? then Some(r.value) else None
  }

  /** `strconv.Atoi` with a 64-bit `int`: `Some(v)` where Go returns a nil error. */
  function Atoi(s: string): (r: Option<int>)
    ensures r.Some? <==> Decimal(s) && InInt64(DecimalValue(s))
    ensures r.Some? ==> r.value == DecimalValue(s)
  {
    if 0 < |s| < 19 then AtoiAgreesWithParseInt(s); AtoiFast(s)
    else AsOption(ParseInt64(s))
  }

  /** The fast path gives the same answer as `ParseInt`: at most 18 digits
      never leave the 64-bit range. */
  lemma AtoiAgreesWithParseInt(s: string)
    requires 0 < |s| < 19
    ensures AtoiFast(s) == AsOption(ParseInt64(s))
  {
    var d := Unsigned(s);
    if d != [] && AllDigits(d) {
      ValueBelowPow10(d);
      Pow10Monotonic(|d|, 18);
      assert Pow10(18) == 1_000_000_000_000_000_000 by {
        assert Pow10(3) == 1000;
        assert Pow10(6) == 1000 * Pow10(3) by { assert Pow10(6) == 10 * 10 * 10 * Pow10(3); }
        assert Pow10(9) == 1000 * Pow10(6) by { assert Pow10(9) == 10 * 10 * 10 * Pow10(6); }
        assert Pow10(12) == 1000 * Pow10(9) by { assert Pow10(12) == 10 * 10 * 10 * Pow10(9); }
        assert Pow10(15) == 1000 * Pow10(12) by { assert Pow10(15) == 10 * 10 * 10 * Pow10(12); }
        assert Pow10(18) == 1000 * Pow10(15) by { assert Pow10(18) == 10 * 10 * 10 * Pow10(15); }
      }
      assert InInt64(DecimalValue(s));
    }
  }

  // ---------------------------------------------------------------------------
  // Itoa / FormatInt(v, 10).

  /** The decimal digits of `n`, without leading zeros. */
  function NatDigits(n: nat): (s: string)
    ensures |s| > 0 && AllDigits(s) && Value(s) == n
    ensures s[0] == '0' ==> n == 0 && s == "0"
  {
    if n < 10 then [DigitChar(n)]
    else
      var s := NatDigits(n / 10) + [DigitChar(n % 10)];
      assert s[..|s| - 1] == NatDigits(n / 10);
      assert s[0] == NatDigits(n / 10)[0];
      s
  }

  function Itoa(v: int): (s: string)
    ensures Decimal(s) && DecimalValue(s) == v
    ensures s[0] != '+' && (s[0] == '-' <==> v < 0)
    ensures Unsigned(s)[0] == '0' ==> s == "0"
  {
    if v < 0 then "-" + NatDigits(-v) else NatDigits(v)
  }

  /** Formatting and parsing back gives the same integer, for every 64-bit value. */
  lemma ItoaRoundTrip(v: int)
    requires InInt64(v)
    ensures Atoi(Itoa(v)) == Some(v)
    ensures ParseInt64(Itoa(v)) == Parsed(v)
  {
  }

  /** Parsing then formatting yields the canonical spelling: no `+`, no leading
      zeros; so "+01" and "1" stand for the same version. */
  lemma {:induction false} CanonicalSpelling()
    ensures Atoi("+01") == Some(1) && Itoa(1) == "1"
    ensures Atoi("-0") == Some(0) && Itoa(0) == "0"
    ensures Atoi("") == None && Atoi("+") == None && Atoi("1_000") == None && Atoi(" 1") == None
  {
    assert Value("01") == 1 by {
      assert "01"[..1] == "0";
      assert Value("0") == 0 by { assert "0"[..0] == []; }
    }
    assert Value("0") == 0 by { assert "0"[..0] == []; }
    assert !AllDigits("1_000") by { assert !IsDigit("1_000"[1]); }
    assert !AllDigits(" 1") by { assert !IsDigit(" 1"[0]); }
  }

  /** Values past the 64-bit range are errors for `Atoi`, and `ParseInt`
      clamps them to the nearer bound. */
  lemma OverflowClamps(s: string)
    requires Decimal(s) && DecimalValue(s) > MaxInt64
    ensures Atoi(s) == None
    ensures ValueIgnoringError(ParseInt64(s)) == MaxInt64
  {
  }

  // ---------------------------------------------------------------------------
  // ParseBool / FormatBool.

  function ParseBool(s: string): (r: Option<bool>)
    ensures r.Some? ==> 1 <= |s| <= 5
    ensures r == Some(true) ==> s[0] in {'1', 't', 'T'}
    ensures r == Some(false) ==> s[0] in {'0', 'f', 'F'}
    ensures r == Some(true) <==> s in {"1", "t", "T", "TRUE", "true", "True"}
    ensures r == Some(false) <==> s in {"0", "f", "F", "FALSE", "false", "False"}
    ensures r.None? <==> s !in {"1", "t", "T", "TRUE", "true", "True", "0", "f", "F", "FALSE", "false", "False"}
  {
    if s in {"1", "t", "T", "TRUE", "true", "True"} then Some(true)
    else if s in {"0", "f", "F", "FALSE", "false", "False"} then Some(false)
    else None
  }

  function FormatBool(b: bool): string
  {
    if b then "true" else "false"
  }

  /** `ParseBool` reads back what `FormatBool` writes, is case-sensitive past
      the three spellings it lists, and refuses the empty string. */
  lemma ParseBoolCases(b: bool)
    ensures ParseBool(FormatBool(b)) == Some(b)
    ensures ParseBool("") == None && ParseBool("tRUE") == None && ParseBool("yes") == None
    ensures ParseBool("1") == Some(true) && ParseBool("0") == Some(false)
  {
  }
}
