/** Text helpers shared by both programs: Rust's `char::is_whitespace` and `str::trim`,
    `join`, decimal formatting of integers, prefix and substring tests, and `str::replace`
    with an empty replacement. Strings are sequences of Unicode scalar values (Rust `char`s). */
module Strings {

  /** The Unicode White_Space property, which is what `char::is_whitespace` tests. */
  predicate IsWhitespace(c: char) {
    ('\t' <= c <= '\r') || c == ' ' || c == '\U{85}' || c == '\U{A0}' || c == '\U{1680}'
    || ('\U{2000}' <= c <= '\U{200A}') || c == '\U{2028}' || c == '\U{2029}'
    || c == '\U{202F}' || c == '\U{205F}' || c == '\U{3000}'
  }

  /** True when `s.trim().is_empty()` holds. */
  predicate IsBlank(s: string) {
    forall i | 0 <= i < |s| :: IsWhitespace(s[i])
  }

  predicate IsAsciiDigit(c: char) {
    '0' <= c <= '9'
  }

  predicate AllDigits(s: string) {
    forall i | 0 <= i < |s| :: IsAsciiDigit(s[i])
  }

  /** `str::trim_start` */
  function TrimStart(s: string): (r: string)
    ensures |r| <= |s| && r == s[|s| - |r|..]
    ensures IsBlank(s[..|s| - |r|])
    ensures r == [] || !IsWhitespace(r[0])
  {
    if |s| > 0 && IsWhitespace(s[0]) then
      var r := TrimStart(s[1..]);
      assert s[..|s| - |r|] == [s[0]] + s[1..][..|s| - 1 - |r|];
      r
    else
      s
  }

  /** `str::trim_end` */
  function TrimEnd(s: string): (r: string)
    ensures |r| <= |s| && r == s[..|r|]
    ensures IsBlank(s[|r|..])
    ensures r == [] || !IsWhitespace(r[|r| - 1])
  {
    if |s| > 0 && IsWhitespace(s[|s| - 1]) then
      var r := TrimEnd(s[..|s| - 1]);
      assert s[|r|..] == s[..|s| - 1][|r|..] + [s[|s| - 1]];
      r
    else
      s
  }

  /** `str::trim`: the result is the part of `s` between its leading and trailing
      whitespace, and it is empty exactly when `s` is blank. */
  function Trim(s: string): (r: string)
    ensures |r| <= |s|
    ensures r == [] <==> IsBlank(s)
    ensures r != [] ==> !IsWhitespace(r[0]) && !IsWhitespace(r[|r| - 1])
  {
    var t := TrimStart(s);
    var r := TrimEnd(t);
    if r == [] then
      assert IsBlank(t) by { assert t[|r|..] == t; }
      assert s == s[..|s| - |t|] + t;
      r
    else
      r
  }

  /** `starts_with` on a string prefix */
  predicate StartsWith(s: string, prefix: string) {
    |prefix| <= |s| && s[..|prefix|] == prefix
  }

  /** `str::contains` on a string pattern (the empty pattern is contained everywhere) */
  predicate Contains(s: string, pattern: string)
    decreases |s|
  {
    StartsWith(s, pattern) || (|s| > 0 && Contains(s[1..], pattern))
  }

  function TotalLength(parts: seq<string>): nat {
    if |parts| == 0 then 0 else |parts[0]| + TotalLength(parts[1..])
  }

  /** `[String]::join(sep)`: the result is at least as long as the first part. */
  function Join(parts: seq<string>, sep: string): (r: string)
    ensures |parts| == 0 ==> r == []
    ensures |parts| > 0 ==> |parts[0]| <= |r|
  {
    if |parts| == 0 then []
    else if |parts| == 1 then parts[0]
    else parts[0] + sep + Join(parts[1..], sep)
  }

  /** The joined string holds every part and one separator between each two. */
  lemma {:induction false} JoinLength(parts: seq<string>, sep: string)
    requires |parts| > 0
    ensures |Join(parts, sep)| == TotalLength(parts) + (|parts| - 1) * |sep|
  {
    if |parts| > 1 {
      JoinLength(parts[1..], sep);
    }
  }

  /** Joining two non-empty lists of parts is joining their joins. */
  lemma {:induction false} JoinAppend(a: seq<string>, b: seq<string>, sep: string)
    requires |a| > 0 && |b| > 0
    ensures Join(a + b, sep) == Join(a, sep) + sep + Join(b, sep)
    decreases |a|
  {
    if |a| == 1 {
      assert (a + b)[1..] == b;
    } else {
      assert (a + b)[1..] == a[1..] + b;
      JoinAppend(a[1..], b, sep);
    }
  }

  lemma JoinSnoc(a: seq<string>, x: string, sep: string)
    requires |a| > 0
    ensures Join(a + [x], sep) == Join(a, sep) + sep + x
  {
    JoinAppend(a, [x], sep);
  }

  function DigitChar(d: nat): (c: char)
    requires d < 10
    ensures IsAsciiDigit(c)
  {
    ('0' as int + d) as char
  }

  /** Rust's `{}` formatting of a non-negative integer: its decimal digits, no leading zeros. */
  function NatToString(n: nat): (r: string)
    ensures |r| > 0 && AllDigits(r)
    ensures r[0] != '0' || n == 0
  {
    if n < 10 then [DigitChar(n)] else NatToString(n / 10) + [DigitChar(n % 10)]
  }

  /** The value of a string of decimal digits (leading zeros allowed), as `str::parse` reads it. */
  function DigitsValue(s: string): nat
    requires AllDigits(s)
  {
    if |s| == 0 then 0 else DigitsValue(s[..|s| - 1]) * 10 + (s[|s| - 1] as int - '0' as int)
  }

  /** Reading back the decimal rendering of `n` gives `n`. */
  lemma {:induction false} DecimalRoundTrip(n: nat)
    ensures DigitsValue(NatToString(n)) == n
  {
    if n >= 10 {
      var s := NatToString(n);
      assert s[..|s| - 1] == NatToString(n / 10);
      DecimalRoundTrip(n / 10);
    }
  }

  lemma NatToStringInjective(a: nat, b: nat)
    requires NatToString(a) == NatToString(b)
    ensures a == b
  {
    DecimalRoundTrip(a);
    DecimalRoundTrip(b);
  }

  /** `s.trim_end_matches(c)` for a single character `c` */
  function TrimEndMatches(s: string, c: char): (r: string)
    ensures |r| <= |s| && r == s[..|r|]
    ensures r == [] || r[|r| - 1] != c
    ensures forall i | |r| <= i < |s| :: s[i] == c
  {
    if |s| > 0 && s[|s| - 1] == c then TrimEndMatches(s[..|s| - 1], c) else s
  }

  /** `s.replace(pattern, "")`: occurrences are found left to right and do not overlap. */
  function RemoveAll(s: string, pattern: string): (r: string)
    requires |pattern| > 0
    ensures |r| <= |s|
    ensures !Contains(s, pattern) ==> r == s
    decreases |s|
  {
    if |s| < |pattern| then s
    else if s[..|pattern|] == pattern then RemoveAll(s[|pattern|..], pattern)
    else [s[0]] + RemoveAll(s[1..], pattern)
  }

  /** Removal goes left to right: text before the first occurrence is kept as it is, the
      occurrence is dropped, and removal carries on after it. */
  lemma {:induction false} RemoveAllFirst(x: string, pattern: string, y: string)
    requires |pattern| > 0 && !Contains((x + pattern)[..|x| + |pattern| - 1], pattern)
    ensures RemoveAll(x + pattern + y, pattern) == x + RemoveAll(y, pattern)
    decreases |x|
  {
    var s := x + pattern + y;
    if |x| == 0 {
      assert s == pattern + y;
      assert s[..|pattern|] == pattern && s[|pattern|..] == y;
    } else {
      var t := (x + pattern)[..|x| + |pattern| - 1];
      assert s[..|pattern|] == t[..|pattern|];
      assert s[1..] == x[1..] + pattern + y;
      assert (x[1..] + pattern)[..|x| - 1 + |pattern| - 1] == t[1..];
      RemoveAllFirst(x[1..], pattern, y);
      KeepFirst(s, pattern, x, RemoveAll(y, pattern));
    }
  }

  /** One step of `RemoveAll` past a character that starts no occurrence. */
  lemma KeepFirst(s: string, pattern: string, x: string, rest: string)
    requires |pattern| > 0 && |s| >= |pattern| && s[..|pattern|] != pattern
    requires |x| > 0 && s[0] == x[0] && RemoveAll(s[1..], pattern) == x[1..] + rest
    ensures RemoveAll(s, pattern) == x + rest
  {
    assert RemoveAll(s, pattern) == [s[0]] + (x[1..] + rest);
    assert x == [x[0]] + x[1..];
    assert [x[0]] + (x[1..] + rest) == ([x[0]] + x[1..]) + rest;
  }

  /** How many occurrences `RemoveAll` takes out */
  function RemovedCount(s: string, pattern: string): nat
    requires |pattern| > 0
    decreases |s|
  {
    if |s| < |pattern| then 0
    else if s[..|pattern|] == pattern then 1 + RemovedCount(s[|pattern|..], pattern)
    else RemovedCount(s[1..], pattern)
  }

  /** Removal takes out whole occurrences: the length lost is a multiple of the pattern's. */
  lemma {:induction false} RemoveAllWhole(s: string, pattern: string)
    requires |pattern| > 0
    ensures |s| - |RemoveAll(s, pattern)| == RemovedCount(s, pattern) * |pattern|
    decreases |s|
  {
    if |s| < |pattern| {
    } else if s[..|pattern|] == pattern {
      RemoveAllWhole(s[|pattern|..], pattern);
      assert (RemovedCount(s[|pattern|..], pattern) + 1) * |pattern|
        == RemovedCount(s[|pattern|..], pattern) * |pattern| + |pattern|;
    } else {
      RemoveAllWhole(s[1..], pattern);
    }
  }

  /** An occurrence found by `Contains` sits at some index. */
  lemma {:induction false} ContainsAt(s: string, pattern: string) returns (i: nat)
    requires Contains(s, pattern)
    ensures i + |pattern| <= |s| && s[i..i + |pattern|] == pattern
    decreases |s|
  {
    if StartsWith(s, pattern) {
      i := 0;
    } else {
      var j := ContainsAt(s[1..], pattern);
      assert s[1..][j..j + |pattern|] == s[j + 1..j + 1 + |pattern|];
      i := j + 1;
    }
  }
}
