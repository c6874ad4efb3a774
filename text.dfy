/** The string helpers of Go's standard library the dispatch core calls:
    `strings.ToLower`, `strings.Split` with a one-character separator and
    `path.Ext`. */
module Text {

  // ---------------------------------------------------------------------------
  // strings.ToLower, on the letters that matter here.

  function LowerChar(c: char): char
  {
    if 'A' <= c <= 'Z' then ((c as int) + 32) as char else c
  }

  /** Lower-cases the ASCII letters of `s` and keeps every other character. */
  function ToLower(s: string): (r: string)
    ensures |r| == |s|
    ensures forall i :: 0 <= i < |s| ==> r[i] == LowerChar(s[i])
  {
    if s == [] then [] else [LowerChar(s[0])] + ToLower(s[1..])
  }

  /** Folding is idempotent and leaves no upper-case ASCII letter behind. */
  lemma ToLowerIdempotent(s: string)
    ensures ToLower(ToLower(s)) == ToLower(s)
    ensures forall i :: 0 <= i < |s| ==> !('A' <= ToLower(s)[i] <= 'Z')
  {
    var t := ToLower(s);
    forall i | 0 <= i < |t| ensures ToLower(t)[i] == t[i] && !('A' <= t[i] <= 'Z') {
      assert t[i] == LowerChar(s[i]);
    }
    assert ToLower(t) == t;
  }

  // ---------------------------------------------------------------------------
  // strings.Split(s, string(sep)).

  function Count(s: string, c: char): nat
  {
    if s == [] then 0 else (if s[0] == c then 1 else 0) + Count(s[1..], c)
  }

  function Split(s: string, sep: char): (parts: seq<string>)
    ensures |parts| == Count(s, sep) + 1
    ensures forall i :: 0 <= i < |parts| ==> sep !in parts[i]
  {
    if s == [] then [[]]
    else
      var rest := Split(s[1..], sep);
      if s[0] == sep then [[]] + rest
      else [[s[0]] + rest[0]] + rest[1..]
  }

  function Join(parts: seq<string>, sep: char): string
    requires |parts| > 0
  {
    if |parts| == 1 then parts[0] else parts[0] + [sep] + Join(parts[1..], sep)
  }

  /** Splitting loses nothing: joining the parts with the separator gives the
      string back. */
  lemma {:induction false} JoinSplit(s: string, sep: char)
    ensures Join(Split(s, sep), sep) == s
  {
    if s != [] {
      JoinSplit(s[1..], sep);
      var rest := Split(s[1..], sep);
      if s[0] != sep && |rest| > 1 {
        assert Join(rest, sep) == rest[0] + [sep] + Join(rest[1..], sep);
      }
    }
  }

  /** Splitting `a + [sep] + b`, where neither side holds the separator, gives
      exactly the two sides. */
  lemma {:induction false} SplitTwo(a: string, b: string, sep: char)
    requires sep !in a && sep !in b
    ensures Split(a + [sep] + b, sep) == [a, b]
  {
    if a == [] {
      assert [sep] + b == (a + [sep] + b);
      SplitNone(b, sep);
    } else {
      assert (a + [sep] + b)[1..] == a[1..] + [sep] + b;
      SplitTwo(a[1..], b, sep);
      assert [a[0]] + a[1..] == a;
    }
  }

  lemma {:induction false} SplitNone(s: string, sep: char)
    requires sep !in s
    ensures Split(s, sep) == [s]
  {
    if s != [] {
      SplitNone(s[1..], sep);
      assert [s[0]] + s[1..] == s;
    }
  }

  // ---------------------------------------------------------------------------
  // path.Ext: the suffix from the final dot of the final slash-separated
  // element, or "" when that element holds no dot.

  /** Scans `p[..i]` from its end, as `path.Ext`'s loop does. */
  function ExtBefore(p: string, i: nat): (e: string)
    requires i <= |p|
    ensures e == [] || (|e| <= i && e == p[i - |e|..i] && e[0] == '.')
    ensures e == [] ==> forall j :: 0 <= j < i && p[j] == '.' ==> exists k :: j < k < i && p[k] == '/'
    ensures e != [] ==> forall j :: i - |e| <= j < i ==> p[j] != '/'
    ensures e != [] ==> forall j :: i - |e| < j < i ==> p[j] != '.'
  {
    if i == 0 then []
    else if p[i - 1] == '/' then []
    else if p[i - 1] == '.' then p[i - 1..i]
    else
      var e := ExtBefore(p, i - 1);
      if e == [] then [] else e + [p[i - 1]]
  }

  /** The scan stops at the last dot when only letters other than '.' and '/'
      follow it: the extension of `p[..i]` is `p[j..i]`. */
  lemma {:induction false} ExtBeforeOfWord(p: string, j: nat, i: nat)
    requires j < i <= |p| && p[j] == '.'
    requires forall k :: j < k < i ==> p[k] != '.' && p[k] != '/'
    ensures ExtBefore(p, i) == p[j..i]
    decreases i - j
  {
    if i > j + 1 {
      ExtBeforeOfWord(p, j, i - 1);
      assert p[j..i] == p[j..i - 1] + [p[i - 1]];
    }
  }

  /** No extension when no dot follows the last slash before `i` (or, with
      `j == -1`, when `p[..i]` holds no dot at all). */
  lemma {:induction false} ExtBeforeNoDot(p: string, j: int, i: nat)
    requires -1 <= j < i <= |p|
    requires j >= 0 ==> p[j] == '/'
    requires forall k :: j < k < i ==> p[k] != '.'
    ensures ExtBefore(p, i) == []
    decreases i
  {
    if i > 0 && p[i - 1] != '/' {
      ExtBeforeNoDot(p, j, i - 1);
    }
  }

  /** `path.Ext(p)`; its contract: the result is a suffix of `p` that is empty
      exactly when no dot follows the last slash, and otherwise starts at that
      element's last dot. */
  function Ext(p: string): (e: string)
    ensures e == [] || (|e| <= |p| && e == p[|p| - |e|..] && e[0] == '.' && '/' !in e && '.' !in e[1..])
    ensures e == [] <==> forall j :: 0 <= j < |p| && p[j] == '.' ==> exists k :: j < k < |p| && p[k] == '/'
  {
    var e := ExtBefore(p, |p|);
    assert e != [] ==> '/' !in e && '.' !in e[1..] by {
      if e != [] {
        forall j | 0 <= j < |e| ensures e[j] == p[|p| - |e| + j] { }
      }
    }
    e
  }
}
