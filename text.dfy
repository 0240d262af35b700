/** The handful of Python string operations the application relies on:
    `str.strip()` with no arguments, `str(int)`, `str.split('/')`, `in` and
    `str.endswith`. */
module Text {

  /** The characters Python's `str.isspace()` accepts, which are exactly the
      ones `str.strip()` removes when called without arguments. */
  predicate IsSpace(c: char) {
    || ('\t' <= c <= '\r')
    || ('\U{1C}' <= c <= '\U{1F}')
    || c == ' ' || c == '\U{85}' || c == '\U{A0}' || c == '\U{1680}'
    || ('\U{2000}' <= c <= '\U{200A}')
    || c == '\U{2028}' || c == '\U{2029}' || c == '\U{202F}' || c == '\U{205F}' || c == '\U{3000}'
  }

  /** How many whitespace characters `s` starts with: what `lstrip()` drops. */
  function LeadingSpace(s: string): (n: nat)
    ensures n <= |s|
    ensures forall i :: 0 <= i < n ==> IsSpace(s[i])
    ensures n < |s| ==> !IsSpace(s[n])
  {
    if s != [] && IsSpace(s[0]) then
      var m := LeadingSpace(s[1..]);
      assert forall i :: 1 <= i < m + 1 ==> s[i] == s[1..][i - 1];
      m + 1
    else 0
  }

  /** How many whitespace characters `s` ends with: what `rstrip()` drops. */
  function TrailingSpace(s: string): (n: nat)
    ensures n <= |s|
    ensures forall i :: |s| - n <= i < |s| ==> IsSpace(s[i])
    ensures n < |s| ==> !IsSpace(s[|s| - n - 1])
  {
    if s != [] && IsSpace(s[|s| - 1]) then
      var m := TrailingSpace(s[..|s| - 1]);
      assert forall i :: |s| - 1 - m <= i < |s| - 1 ==> s[i] == s[..|s| - 1][i];
      m + 1
    else 0
  }

  /** A string made of whitespace only (the empty string included). */
  predicate IsBlank(s: string) {
    forall i :: 0 <= i < |s| ==> IsSpace(s[i])
  }

  /** `s.strip()`: `lstrip()` then `rstrip()`. What is left is the slice of `s`
      that starts where the leading whitespace ends and is followed by
      whitespace only; it neither starts nor ends with whitespace, and it is
      empty, which is what `not s.strip()` tests, exactly when `s` is blank. */
  function Strip(s: string): (r: string)
    ensures var k := LeadingSpace(s);
            && k + |r| <= |s| && r == s[k..k + |r|]
            && (forall i :: k + |r| <= i < |s| ==> IsSpace(s[i]))
    ensures r != [] ==> !IsSpace(r[0]) && !IsSpace(r[|r| - 1])
    ensures r == [] <==> IsBlank(s)
  {
    var k := LeadingSpace(s);
    var t := s[k..];
    var n := |t| - TrailingSpace(t);
    assert forall i :: k + n <= i < |s| ==> s[i] == t[i - k];
    assert t[..n] == s[k..k + n];
    t[..n]
  }

  predicate IsDigit(c: char) {
    '0' <= c <= '9'
  }

  function DigitChar(d: nat): (c: char)
    requires d < 10
    ensures IsDigit(c) && c as int - '0' as int == d
  {
    ('0' as int + d) as char
  }

  /** `str(n)` for a non-negative integer: decimal digits, no leading zero. */
  function NatToDecimal(n: nat): (r: string)
    ensures |r| >= 1
    ensures forall i :: 0 <= i < |r| ==> IsDigit(r[i])
    ensures r[0] == '0' ==> n == 0 && r == "0"
  {
    if n < 10 then [DigitChar(n)] else NatToDecimal(n / 10) + [DigitChar(n % 10)]
  }

  /** The value of a string of decimal digits: the inverse of NatToDecimal. */
  function DecimalValue(s: string): nat
    requires forall i :: 0 <= i < |s| ==> IsDigit(s[i])
  {
    if s == [] then 0
    else
      assert IsDigit(s[|s| - 1]);
      10 * DecimalValue(s[..|s| - 1]) + (s[|s| - 1] as int - '0' as int)
  }

  lemma {:induction false} DecimalRoundTrip(n: nat)
    ensures DecimalValue(NatToDecimal(n)) == n
  {
    if n >= 10 {
      var r := NatToDecimal(n);
      assert r[..|r| - 1] == NatToDecimal(n / 10);
      DecimalRoundTrip(n / 10);
    }
  }

  /** Distinct numbers render as distinct strings. */
  lemma DecimalInjective(a: nat, b: nat)
    ensures NatToDecimal(a) == NatToDecimal(b) ==> a == b
  {
    DecimalRoundTrip(a);
    DecimalRoundTrip(b);
  }

  /** `str(i)` for any integer: a minus sign exactly for a negative number,
      then digits that read back as its magnitude. */
  function IntToDecimal(i: int): (r: string)
    ensures |r| >= 1 && (r[0] == '-' <==> i < 0)
    ensures var digits := if i < 0 then r[1..] else r;
            && |digits| >= 1 && (digits[0] == '0' ==> digits == "0")
            && (forall k :: 0 <= k < |digits| ==> IsDigit(digits[k]))
            && DecimalValue(digits) == if i < 0 then -i else i
  {
    var m := if i < 0 then -i else i;
    DecimalRoundTrip(m);
    var r := if i < 0 then "-" + NatToDecimal(m) else NatToDecimal(m);
    assert i < 0 ==> r[1..] == NatToDecimal(m);
    r
  }

  /** `s.split('/')`: the pieces between the slashes, in order; always at least one. */
  function SplitSlash(s: string): (parts: seq<string>)
    ensures |parts| >= 1
    ensures forall k :: 0 <= k < |parts| ==> '/' !in parts[k]
    ensures var last := parts[|parts| - 1];
            |last| <= |s| && last == s[|s| - |last|..] && (|last| < |s| ==> s[|s| - |last| - 1] == '/')
  {
    if s == [] then [""]
    else
      var init := SplitSlash(s[..|s| - 1]);
      if s[|s| - 1] == '/' then init + [""]
      else init[..|init| - 1] + [init[|init| - 1] + [s[|s| - 1]]]
  }

  /** `'/'.join(parts)`. */
  function JoinSlash(parts: seq<string>): string
    requires |parts| >= 1
  {
    if |parts| == 1 then parts[0] else JoinSlash(parts[..|parts| - 1]) + "/" + parts[|parts| - 1]
  }

  lemma {:induction false} JoinSnoc(parts: seq<string>, x: string)
    requires |parts| >= 1
    ensures JoinSlash(parts + [x]) == JoinSlash(parts) + "/" + x
  {
    assert (parts + [x])[..|parts|] == parts;
  }

  lemma {:induction false} JoinExtendLast(parts: seq<string>, c: char)
    requires |parts| >= 1
    ensures JoinSlash(parts[..|parts| - 1] + [parts[|parts| - 1] + [c]]) == JoinSlash(parts) + [c]
  {
    var n := |parts|;
    var front, last := parts[..n - 1], parts[n - 1];
    assert parts == front + [last];
    if n == 1 {
      assert front + [last + [c]] == [last + [c]];
    } else {
      var x := JoinSlash(front);
      JoinSnoc(front, last + [c]);
      JoinSnoc(front, last);
      assert x + "/" + (last + [c]) == (x + "/" + last) + [c];
    }
  }

  /** Splitting at slashes loses nothing: joining the pieces gives the string back. */
  lemma {:induction false} SplitJoin(s: string)
    ensures JoinSlash(SplitSlash(s)) == s
  {
    if s != [] {
      var t := s[..|s| - 1];
      var c := s[|s| - 1];
      assert s == t + [c];
      SplitJoin(t);
      if c == '/' {
        JoinSnoc(SplitSlash(t), "");
      } else {
        JoinExtendLast(SplitSlash(t), c);
      }
    }
  }

  /** `s.split('/')[-1]`: the text after the last slash, or all of `s` when it has none. */
  function LastSegment(s: string): (r: string)
    ensures '/' !in r
    ensures |r| <= |s| && r == s[|s| - |r|..]
    ensures |r| < |s| ==> s[|s| - |r| - 1] == '/'
  {
    var parts := SplitSlash(s);
    parts[|parts| - 1]
  }

  predicate OccursAt(hay: string, needle: string, i: int) {
    0 <= i <= |hay| - |needle| && hay[i..i + |needle|] == needle
  }

  /** `needle in hay` for strings: a contiguous occurrence. */
  ghost predicate Contains(hay: string, needle: string) {
    exists i :: OccursAt(hay, needle, i)
  }

  /** An occurrence inside `b` is still an occurrence inside `a + b + c`. */
  lemma ContainsWithin(a: string, b: string, c: string, needle: string)
    requires Contains(b, needle)
    ensures Contains(a + b + c, needle)
  {
    var i :| OccursAt(b, needle, i);
    assert (a + b + c)[|a| + i..|a| + i + |needle|] == needle;
    assert OccursAt(a + b + c, needle, |a| + i);
  }

  /** An occurrence inside `a` is still an occurrence inside `a + b`. */
  lemma ContainsExtended(a: string, b: string, needle: string)
    requires Contains(a, needle)
    ensures Contains(a + b, needle)
  {
    var i :| OccursAt(a, needle, i);
    assert (a + b)[i..i + |needle|] == needle;
    assert OccursAt(a + b, needle, i);
  }

  /** `hay.startswith(prefix)`. */
  predicate StartsWith(hay: string, prefix: string) {
    |prefix| <= |hay| && hay[..|prefix|] == prefix
  }

  /** `hay.endswith(suffix)`. */
  predicate EndsWith(hay: string, suffix: string) {
    |suffix| <= |hay| && hay[|hay| - |suffix|..] == suffix
  }

  lemma EndsWithAppend(a: string, b: string)
    ensures EndsWith(a + b, b)
  {
    assert (a + b)[|a|..] == b;
  }

  /** A text laid out as `a + b + c + d` starts with `a`, ends with `d`, and
      contains whatever `b` contains. */
  lemma Framed(a: string, b: string, c: string, d: string)
    ensures StartsWith(a + b + c + d, a)
    ensures EndsWith(a + b + c + d, d)
    ensures forall needle :: Contains(b, needle) ==> Contains(a + b + c + d, needle)
  {
    assert (a + b + c + d)[..|a|] == a;
    EndsWithAppend(a + b + c, d);
    forall needle | Contains(b, needle)
      ensures Contains(a + b + c + d, needle)
    {
      ContainsWithin(a, b, c, needle);
      ContainsExtended(a + b + c, d, needle);
    }
  }
}
