/**
 * String utilities with JavaScript's meaning: the whitespace class shared by
 * the regular expression `\s` and `String.prototype.trim`, trimming,
 * prefix tests, `split` on one character and `join`.
 */
module Text {
  /** ECMAScript WhiteSpace and LineTerminator code points. */
  predicate IsSpace(c: char)
  {
    c == '\t' || c == '\n' || c == '\U{000B}' || c == '\U{000C}' || c == '\r' || c == ' '
    || c == '\U{00A0}' || c == '\U{1680}' || ('\U{2000}' <= c <= '\U{200A}')
    || c == '\U{2028}' || c == '\U{2029}' || c == '\U{202F}' || c == '\U{205F}'
    || c == '\U{3000}' || c == '\U{FEFF}'
  }

  predicate AllSpace(s: string)
  {
    forall k :: 0 <= k < |s| ==> IsSpace(s[k])
  }

  /** Neither end of `s` is whitespace. */
  predicate IsTrimmed(s: string)
  {
    s == [] || (!IsSpace(s[0]) && !IsSpace(s[|s| - 1]))
  }

  /** Number of leading whitespace characters. */
  function LeadingSpace(s: string): (n: nat)
    ensures n <= |s|
    ensures AllSpace(s[..n])
    ensures n < |s| ==> !IsSpace(s[n])
  {
    if |s| > 0 && IsSpace(s[0]) then
      var n := 1 + LeadingSpace(s[1..]);
      assert s[..n] == [s[0]] + s[1..][..n - 1];
      n
    else 0
  }

  /** Number of trailing whitespace characters. */
  function TrailingSpace(s: string): (n: nat)
    ensures n <= |s|
    ensures AllSpace(s[|s| - n..])
    ensures n < |s| ==> !IsSpace(s[|s| - 1 - n])
  {
    if |s| > 0 && IsSpace(s[|s| - 1]) then
      var n := 1 + TrailingSpace(s[..|s| - 1]);
      assert s[|s| - n..] == s[..|s| - 1][|s| - n..] + [s[|s| - 1]];
      n
    else 0
  }

  /** `String.prototype.trim`. */
  function Trim(s: string): (r: string)
    ensures IsTrimmed(r)
    ensures |r| <= |s|
    ensures r == [] <==> AllSpace(s)
  {
    var i := LeadingSpace(s);
    if i == |s| then
      assert s[..i] == s;
      []
    else
      var j := TrailingSpace(s);
      assert !IsSpace(s[i]);
      assert i < |s| - j;
      s[i..|s| - j]
  }

  /** The trimmed text is a slice of the original. */
  lemma TrimSlice(s: string, t: string) returns (i: nat)
    requires Trim(s) == t
    ensures i + |t| <= |s| && s[i..i + |t|] == t
  {
    i := LeadingSpace(s);
  }

  /** The trimmed text is what is left after dropping whitespace, and only whitespace, at both ends. */
  lemma TrimDropsSpace(s: string, t: string) returns (i: nat)
    requires Trim(s) == t
    ensures i + |t| <= |s| && s[i..i + |t|] == t
    ensures AllSpace(s[..i]) && AllSpace(s[i + |t|..])
  {
    i := LeadingSpace(s);
  }

  /** The trimmed text of a slice is itself a slice, lying inside the first one. */
  lemma TrimInside(s: string, a: nat, b: nat, t: string) returns (i: nat)
    requires a <= b <= |s| && Trim(s[a..b]) == t
    ensures a <= i && i + |t| <= b && s[i..i + |t|] == t
  {
    var lead := TrimSlice(s[a..b], t);
    i := a + lead;
    SliceInside(s, a, b, lead, t);
  }

  lemma SliceInside<T>(s: seq<T>, a: nat, b: nat, c: nat, t: seq<T>)
    requires a <= b <= |s| && c + |t| <= b - a && s[a..b][c..c + |t|] == t
    ensures s[a + c..a + c + |t|] == t
  {
    SliceOfSlice(s, a, b, c, |t|);
  }

  lemma SliceOfSlice<T>(s: seq<T>, a: nat, b: nat, c: nat, n: nat)
    requires a <= b <= |s| && c + n <= b - a
    ensures s[a..b][c..c + n] == s[a + c..a + c + n]
  {
    var u, w := s[a..b][c..c + n], s[a + c..a + c + n];
    forall k | 0 <= k < n ensures u[k] == w[k] {
      assert u[k] == s[a..b][c + k] == s[a + c + k];
    }
    assert u == w;
  }

  lemma TrimTrimmed(s: string)
    requires IsTrimmed(s)
    ensures Trim(s) == s
  {
  }

  predicate StartsWith(s: string, prefix: string)
  {
    |prefix| <= |s| && s[..|prefix|] == prefix
  }

  /** `parts.join(sep)`. */
  function Join(parts: seq<string>, sep: string): string
  {
    if |parts| == 0 then ""
    else if |parts| == 1 then parts[0]
    else parts[0] + sep + Join(parts[1..], sep)
  }

  /** Index of the first `c` in `s`. */
  function IndexOf(s: string, c: char): (k: nat)
    requires c in s
    ensures k < |s| && s[k] == c && c !in s[..k]
  {
    if s[0] == c then 0 else 1 + IndexOf(s[1..], c)
  }

  /** `s.split(sep)` for a one-character separator. */
  function Split(s: string, sep: char): (parts: seq<string>)
    ensures |parts| >= 1
    ensures forall i :: 0 <= i < |parts| ==> sep !in parts[i]
    ensures Join(parts, [sep]) == s
    decreases |s|
  {
    if sep !in s then [s]
    else
      var k := IndexOf(s, sep);
      var rest := Split(s[k + 1..], sep);
      assert s == s[..k] + [sep] + s[k + 1..];
      [s[..k]] + rest
  }

  /** Decimal notation of an integer, as `String(n)` renders a safe integer. */
  function IntToString(n: int): string
  {
    if n < 0 then "-" + NatToString(-n) else NatToString(n)
  }

  function NatToString(n: nat): (s: string)
    ensures |s| >= 1
  {
    if n < 10 then [DigitChar(n)] else NatToString(n / 10) + [DigitChar(n % 10)]
  }

  function DigitChar(d: nat): char
    requires d < 10
  {
    "0123456789"[d]
  }
}
