/**
 * The pieces of JavaScript string semantics the application relies on:
 * `String.prototype.trim`, `slice` with its clamping of negative and
 * out-of-range indices, `split` on a one-character separator, decimal
 * rendering of integers in template literals, and truthiness of an
 * optional string.
 */
module JsText {
  import opened Wrappers

  /** The line terminators of ECMAScript (section 12.3 of ECMA-262). */
  predicate IsLineTerminator(c: char) {
    c == '\n' || c == '\r' || c == '\U{2028}' || c == '\U{2029}'
  }

  /** The white-space code points of ECMAScript (section 12.2 of ECMA-262): the
      listed controls plus every code point of the Unicode category Zs. */
  predicate IsWhiteSpace(c: char) {
    c == '\t' || c == '\U{000B}' || c == '\U{000C}' || c == ' ' || c == '\U{00A0}' || c == '\U{FEFF}'
    || c == '\U{1680}' || ('\U{2000}' <= c <= '\U{200A}') || c == '\U{202F}' || c == '\U{205F}'
    || c == '\U{3000}'
  }

  /** What `trim` removes from both ends. */
  predicate IsTrimmable(c: char) {
    IsWhiteSpace(c) || IsLineTerminator(c)
  }

  predicate AllTrimmable(s: string) {
    forall k :: 0 <= k < |s| ==> IsTrimmable(s[k])
  }

  /** `trimStart`: the longest suffix that does not begin with white space. */
  function TrimStart(s: string): (r: string)
    ensures |r| <= |s| && r == s[|s| - |r|..]
    ensures forall k :: 0 <= k < |s| - |r| ==> IsTrimmable(s[k])
    ensures r != [] ==> !IsTrimmable(r[0])
  {
    if s != [] && IsTrimmable(s[0]) then TrimStart(s[1..]) else s
  }

  /** `trimEnd`: the longest prefix that does not end with white space. */
  function TrimEnd(s: string): (r: string)
    ensures |r| <= |s| && r == s[..|r|]
    ensures forall k :: |r| <= k < |s| ==> IsTrimmable(s[k])
    ensures r != [] ==> !IsTrimmable(r[|r| - 1])
  {
    if s != [] && IsTrimmable(s[|s| - 1]) then TrimEnd(s[..|s| - 1]) else s
  }

  /** `trim`. */
  function Trim(s: string): string {
    TrimEnd(TrimStart(s))
  }

  /** `Trim(s)` is the slice `s[a..b]` whose outside is white space and whose ends
      are not, and it is the only slice of that shape. */
  lemma TrimIsUniqueCore(s: string, a: nat, b: nat)
    requires a <= b <= |s|
    requires forall k :: 0 <= k < a ==> IsTrimmable(s[k])
    requires forall k :: b <= k < |s| ==> IsTrimmable(s[k])
    requires a < b ==> !IsTrimmable(s[a]) && !IsTrimmable(s[b - 1])
    ensures Trim(s) == s[a..b]
  {
    if a < b {
      TrimStartAt(s, a);
      TrimEndOfSuffix(s, a, b);
    } else {
      assert AllTrimmable(s);
      TrimOfBlank(s);
    }
  }

  lemma TrimEndOfSuffix(s: string, a: nat, b: nat)
    requires a < b <= |s| && !IsTrimmable(s[b - 1])
    requires forall k :: b <= k < |s| ==> IsTrimmable(s[k])
    ensures TrimEnd(s[a..]) == s[a..b]
  {
    var t := s[a..];
    assert forall k :: b - a <= k < |t| ==> t[k] == s[a + k];
    TrimEndAt(t, b - a);
    assert t[..b - a] == s[a..b];
  }

  /** `trimStart` stops at the first character that is not white space. */
  lemma TrimStartAt(s: string, a: nat)
    requires a < |s| && !IsTrimmable(s[a])
    requires forall k :: 0 <= k < a ==> IsTrimmable(s[k])
    ensures TrimStart(s) == s[a..]
  {
    var r := TrimStart(s);
    var off := |s| - |r|;
    assert !IsTrimmable(s[a]);
    assert off <= a;
    assert r == s[off..] && r[0] == s[off];
    assert !IsTrimmable(s[off]);
  }

  /** `trimEnd` stops at the last character that is not white space. */
  lemma TrimEndAt(t: string, b: nat)
    requires 0 < b <= |t| && !IsTrimmable(t[b - 1])
    requires forall k :: b <= k < |t| ==> IsTrimmable(t[k])
    ensures TrimEnd(t) == t[..b]
  {
    var u := TrimEnd(t);
    assert |u| >= b;
    assert u[|u| - 1] == t[|u| - 1];
  }

  lemma TrimOfBlank(s: string)
    requires AllTrimmable(s)
    ensures Trim(s) == []
  {
  }

  /** `!s.trim()` holds exactly when every character of s is white space. */
  lemma TrimEmptyIff(s: string)
    ensures Trim(s) == [] <==> AllTrimmable(s)
  {
    if AllTrimmable(s) {
      TrimOfBlank(s);
    } else {
      var k :| 0 <= k < |s| && !IsTrimmable(s[k]);
      var t := TrimStart(s);
      var off := |s| - |t|;
      assert off <= k;
      assert t[0] == s[off];
      assert !IsTrimmable(t[0]);
    }
  }

  /** Trimming twice is trimming once. */
  lemma TrimIdempotent(s: string)
    ensures Trim(Trim(s)) == Trim(s)
  {
    var r := Trim(s);
    var t := TrimStart(s);
    assert r != [] ==> r[0] == t[0];
    TrimIsUniqueCore(r, 0, |r|);
  }

  /** `s.startsWith(p)`. */
  predicate StartsWith(s: string, p: string) {
    |p| <= |s| && s[..|p|] == p
  }

  /** How `slice` turns a relative index into a position: negative indices count
      from the end, and the result is clamped to `0..len`. */
  function RelativeIndex(len: nat, i: int): (k: nat)
    ensures k <= len
    ensures 0 <= i <= len ==> k == i
    ensures i > len ==> k == len
    ensures i < 0 ==> k == if len + i < 0 then 0 else len + i
  {
    if i < 0 then (if len + i < 0 then 0 else len + i) else if i > len then len else i
  }

  /** `s.slice(start, end)`. */
  function Slice(s: string, start: int, end: int): string {
    var from := RelativeIndex(|s|, start);
    var to := RelativeIndex(|s|, end);
    if from < to then s[from..to] else []
  }

  /** `s.slice(start)`: the end defaults to the length. */
  function SliceFrom(s: string, start: int): string {
    Slice(s, start, |s|)
  }

  /** Within range, `slice` is the plain subsequence; a negative start `-n`
      takes the last `n` characters, or the whole text when it is shorter;
      an empty or reversed range gives the empty string. */
  lemma SliceMeaning(s: string, a: int, b: int, n: int)
    ensures 0 <= a <= b <= |s| ==> Slice(s, a, b) == s[a..b]
    ensures 0 < n <= |s| ==> SliceFrom(s, -n) == s[|s| - n..]
    ensures n > |s| ==> SliceFrom(s, -n) == s
    ensures b <= a && 0 <= a && 0 <= b ==> Slice(s, a, b) == []
  {
    if n > |s| && s != [] {
      assert s[0..|s|] == s;
    }
  }

  /** `s.split(sep)` for a one-character separator. */
  function Split(s: string, sep: char): (parts: seq<string>)
    ensures |parts| >= 1
  {
    if s == [] then [[]]
    else
      var rest := Split(s[1..], sep);
      if s[0] == sep then [[]] + rest else [[s[0]] + rest[0]] + rest[1..]
  }

  /** `parts.join(sep)`, the inverse of `Split`. */
  function Join(parts: seq<string>, sep: char): string
    requires |parts| >= 1
  {
    if |parts| == 1 then parts[0] else parts[0] + [sep] + Join(parts[1..], sep)
  }

  /** Splitting loses nothing, and no piece contains the separator. */
  lemma {:induction false} SplitJoin(s: string, sep: char)
    ensures Join(Split(s, sep), sep) == s
    ensures forall i :: 0 <= i < |Split(s, sep)| ==> sep !in Split(s, sep)[i]
  {
    if s != [] {
      SplitJoin(s[1..], sep);
      var rest := Split(s[1..], sep);
      if s[0] == sep {
        assert Split(s, sep)[1..] == rest;
      } else {
        var parts := Split(s, sep);
        assert parts[0] == [s[0]] + rest[0];
        assert parts[1..] == rest[1..];
        if |rest| > 1 {
          assert rest == [rest[0]] + rest[1..];
        }
        assert forall i :: 1 <= i < |parts| ==> parts[i] == rest[i];
      }
    }
  }

  /** A prefix free of the separator comes out as the first piece. */
  lemma {:induction false} SplitAfter(a: string, sep: char, b: string)
    requires sep !in a
    ensures Split(a + [sep] + b, sep) == [a] + Split(b, sep)
  {
    if a != [] {
      SplitAfter(a[1..], sep, b);
      assert (a + [sep] + b)[0] == a[0];
      assert (a + [sep] + b)[1..] == a[1..] + [sep] + b;
      assert [a[0]] + a[1..] == a;
    } else {
      assert (a + [sep] + b)[1..] == b;
    }
  }

  /** A string free of the separator is a single piece. */
  lemma {:induction false} SplitWhole(a: string, sep: char)
    requires sep !in a
    ensures Split(a, sep) == [a]
  {
    if a != [] {
      SplitWhole(a[1..], sep);
      assert [a[0]] + a[1..] == a;
    }
  }

  function DigitChar(d: nat): (c: char)
    requires d < 10
    ensures '0' <= c <= '9'
  {
    ('0' as int + d) as char
  }

  predicate IsDigits(s: string) {
    forall k :: 0 <= k < |s| ==> '0' <= s[k] <= '9'
  }

  /** The decimal text of a natural number, as a template literal writes it. */
  function DecimalString(n: nat): (r: string)
    ensures |r| >= 1 && IsDigits(r)
    ensures r[0] == '0' ==> n == 0 && r == "0"
  {
    if n < 10 then [DigitChar(n)] else DecimalString(n / 10) + [DigitChar(n % 10)]
  }

  /** The decimal text of an integer: a minus sign before the digits when negative. */
  function IntString(n: int): string {
    if n < 0 then "-" + DecimalString(-n) else DecimalString(n)
  }

  /** Reading decimal digits back. */
  function ParseDecimal(s: string): nat
    requires IsDigits(s)
  {
    if s == [] then 0 else ParseDecimal(s[..|s| - 1]) * 10 + (s[|s| - 1] as int - '0' as int)
  }

  lemma {:induction false} DecimalRoundTrip(n: nat)
    ensures ParseDecimal(DecimalString(n)) == n
  {
    if n >= 10 {
      DecimalRoundTrip(n / 10);
      var r := DecimalString(n);
      assert r[..|r| - 1] == DecimalString(n / 10);
    }
  }

  /** JavaScript truthiness of a value that is a string or `undefined`. */
  predicate IsTruthy(s: Option<string>) {
    s.Some? && s.value != ""
  }
}
