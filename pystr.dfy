/**
  The Python `str` builtins the application relies on: `strip()`, `lower()`,
  `isdigit()`, `int(s)`, `str(n)`, `endswith(...)`, the substring test
  `sub in s` and the idiom `x or ""`.
 */
module PyStr {
  import opened Wrappers

  /** `c.isspace()`: the characters Python's `strip()` removes. */
  predicate IsSpace(c: char) {
    || '\U{9}' <= c <= '\U{D}'
    || '\U{1C}' <= c <= '\U{20}'
    || c == '\U{85}' || c == '\U{A0}' || c == '\U{1680}'
    || '\U{2000}' <= c <= '\U{200A}'
    || c == '\U{2028}' || c == '\U{2029}' || c == '\U{202F}'
    || c == '\U{205F}' || c == '\U{3000}'
  }

  predicate AllSpace(s: string) {
    forall i :: 0 <= i < |s| ==> IsSpace(s[i])
  }

  /** A string with no whitespace at either end. */
  predicate IsStripped(s: string) {
    s == [] || (!IsSpace(s[0]) && !IsSpace(s[|s| - 1]))
  }

  /** The end of the run of whitespace that starts at `i`. */
  function SpaceRunEnd(s: string, i: nat): (r: nat)
    requires i <= |s|
    ensures i <= r <= |s|
    ensures r == |s| || !IsSpace(s[r])
    decreases |s| - i
  {
    if i < |s| && IsSpace(s[i]) then SpaceRunEnd(s, i + 1) else i
  }

  /** The run that `SpaceRunEnd` skips is all whitespace. */
  lemma {:induction false} SpaceRunEndSpaces(s: string, i: nat)
    requires i <= |s|
    ensures forall k :: i <= k < SpaceRunEnd(s, i) ==> IsSpace(s[k])
    decreases |s| - i
  {
    if i < |s| && IsSpace(s[i]) {
      SpaceRunEndSpaces(s, i + 1);
    }
  }

  /** The start of the run of whitespace that ends at `j`, not going below `lo`. */
  function SpaceRunStart(s: string, lo: nat, j: nat): (r: nat)
    requires lo <= j <= |s|
    ensures lo <= r <= j
    ensures r == lo || !IsSpace(s[r - 1])
  {
    if j > lo && IsSpace(s[j - 1]) then SpaceRunStart(s, lo, j - 1) else j
  }

  /** The run that `SpaceRunStart` skips is all whitespace. */
  lemma {:induction false} SpaceRunStartSpaces(s: string, lo: nat, j: nat)
    requires lo <= j <= |s|
    ensures forall k :: SpaceRunStart(s, lo, j) <= k < j ==> IsSpace(s[k])
  {
    if j > lo && IsSpace(s[j - 1]) {
      SpaceRunStartSpaces(s, lo, j - 1);
    }
  }

  /** `s` is `r` with whitespace added at either end. */
  ghost predicate Padded(s: string, r: string) {
    exists i, j :: 0 <= i <= j <= |s| && r == s[i..j] && AllSpace(s[..i]) && AllSpace(s[j..])
  }

  /** `s.strip()`. */
  function Strip(s: string): (r: string)
    ensures IsStripped(r)
  {
    var a := SpaceRunEnd(s, 0);
    s[a..SpaceRunStart(s, a, |s|)]
  }

  /** `strip()` removes whitespace at either end and nothing else. */
  lemma StripPadded(s: string)
    ensures Padded(s, Strip(s))
  {
    var a := SpaceRunEnd(s, 0);
    var b := SpaceRunStart(s, a, |s|);
    SpaceRunEndSpaces(s, 0);
    SpaceRunStartSpaces(s, a, |s|);
    assert AllSpace(s[..a]);
    assert AllSpace(s[b..]);
  }

  /** Stripping a string that has no whitespace at its ends changes nothing. */
  lemma StripOfStripped(s: string)
    requires IsStripped(s)
    ensures Strip(s) == s
  {
  }

  lemma StripIdempotent(s: string)
    ensures Strip(Strip(s)) == Strip(s)
  {
    StripOfStripped(Strip(s));
  }

  /** A run of whitespace from `i` up to a non-space at `j` ends at `j`. */
  lemma {:induction false} SpaceRunEndSkips(s: string, i: nat, j: nat)
    requires i <= j <= |s|
    requires forall k :: i <= k < j ==> IsSpace(s[k])
    requires j == |s| || !IsSpace(s[j])
    ensures SpaceRunEnd(s, i) == j
    decreases j - i
  {
    if i < j {
      SpaceRunEndSkips(s, i + 1, j);
    }
  }

  /** A run of whitespace from just after a non-space at `m - 1` up to `j` starts at `m`. */
  lemma {:induction false} SpaceRunStartSkips(s: string, lo: nat, m: nat, j: nat)
    requires lo <= m <= j <= |s|
    requires forall k :: m <= k < j ==> IsSpace(s[k])
    requires m == lo || !IsSpace(s[m - 1])
    ensures SpaceRunStart(s, lo, j) == m
    decreases j - m
  {
    if m < j {
      SpaceRunStartSkips(s, lo, m, j - 1);
    }
  }

  /** `strip()` removes exactly the whitespace padding around a non-empty stripped text. */
  lemma StripPadding(w1: string, t: string, w2: string)
    requires AllSpace(w1) && AllSpace(w2) && IsStripped(t) && t != []
    ensures Strip(w1 + t + w2) == t
  {
    var s := w1 + t + w2;
    assert s[|w1|] == t[0];
    assert s[|w1| + |t| - 1] == t[|t| - 1];
    SpaceRunEndSkips(s, 0, |w1|);
    SpaceRunStartSkips(s, |w1|, |w1| + |t|, |s|);
    assert s[|w1|..|w1| + |t|] == t;
  }

  /** `c.lower()` for ASCII and the Cyrillic block U+0400..U+042F. */
  function LowerChar(c: char): char {
    if 'A' <= c <= 'Z' || '\U{410}' <= c <= '\U{42F}' then (c as int + 32) as char
    else if '\U{400}' <= c <= '\U{40F}' then (c as int + 80) as char
    else c
  }

  /** `s.lower()`, character by character. */
  function Lower(s: string): string {
    seq(|s|, i requires 0 <= i < |s| => LowerChar(s[i]))
  }

  /** Lower-casing keeps the length and maps each character on its own. */
  lemma LowerPointwise(s: string)
    ensures |Lower(s)| == |s|
    ensures forall i :: 0 <= i < |s| ==> Lower(s)[i] == LowerChar(s[i])
  {
  }

  lemma LowerIdempotent(s: string)
    ensures Lower(Lower(s)) == Lower(s)
  {
    LowerPointwise(s);
    LowerPointwise(Lower(s));
  }

  /** Lower-casing maps whitespace to whitespace and nothing else to it. */
  lemma LowerCharSpace(c: char)
    ensures IsSpace(LowerChar(c)) <==> IsSpace(c)
  {
  }

  lemma {:induction false} SpaceRunEndLower(s: string, i: nat)
    requires i <= |s|
    ensures SpaceRunEnd(Lower(s), i) == SpaceRunEnd(s, i)
    decreases |s| - i
  {
    if i < |s| {
      LowerCharSpace(s[i]);
      SpaceRunEndLower(s, i + 1);
    }
  }

  lemma {:induction false} SpaceRunStartLower(s: string, lo: nat, j: nat)
    requires lo <= j <= |s|
    ensures SpaceRunStart(Lower(s), lo, j) == SpaceRunStart(s, lo, j)
  {
    if j > lo {
      LowerCharSpace(s[j - 1]);
      SpaceRunStartLower(s, lo, j - 1);
    }
  }

  /** Stripping and lower-casing commute. */
  lemma StripLower(s: string)
    ensures Strip(Lower(s)) == Lower(Strip(s))
  {
    var a := SpaceRunEnd(s, 0);
    var b := SpaceRunStart(s, a, |s|);
    SpaceRunEndLower(s, 0);
    SpaceRunStartLower(s, a, |s|);
    assert Strip(Lower(s)) == Lower(s)[a..b];
    assert Lower(s)[a..b] == Lower(s[a..b]);
  }

  /** Lower-casing neither creates nor removes whitespace. */
  lemma LowerKeepsStripped(s: string)
    requires IsStripped(s)
    ensures IsStripped(Lower(s))
  {
    LowerPointwise(s);
  }

  predicate IsDigit(c: char) {
    '0' <= c <= '9'
  }

  predicate AllDigits(s: string) {
    forall i :: 0 <= i < |s| ==> IsDigit(s[i])
  }

  /** `"".join(ch for ch in s if ch.isdigit())`. */
  function Digits(s: string): (r: string)
    ensures AllDigits(r) && |r| <= |s|
    ensures AllDigits(s) ==> r == s
  {
    if s == [] then []
    else (if IsDigit(s[0]) then [s[0]] else []) + Digits(s[1..])
  }

  lemma {:induction false} DigitsConcat(a: string, b: string)
    ensures Digits(a + b) == Digits(a) + Digits(b)
  {
    if a != [] {
      assert (a + b)[1..] == a[1..] + b;
      DigitsConcat(a[1..], b);
    } else {
      assert a + b == b;
    }
  }

  function DigitChar(d: nat): char
    requires d < 10
  {
    ('0' as int + d) as char
  }

  /** `str(n)` for a natural number: decimal, without leading zeros. */
  function NatToString(n: nat): (r: string)
    ensures |r| >= 1 && AllDigits(r)
  {
    if n < 10 then [DigitChar(n)] else NatToString(n / 10) + [DigitChar(n % 10)]
  }

  /** `str(i)` for any integer. */
  function IntToString(i: int): string {
    if i < 0 then "-" + NatToString(-i) else NatToString(i)
  }

  /** The number a string of decimal digits denotes. */
  function DigitsValue(s: string): nat
    requires AllDigits(s)
  {
    if s == [] then 0 else DigitsValue(s[..|s| - 1]) * 10 + (s[|s| - 1] as int - '0' as int)
  }

  /**
    `int(s)`: optional surrounding whitespace, an optional sign, then one or
    more decimal digits; anything else raises `ValueError` (here `None`).
   */
  function ParseInt(s: string): Option<int> {
    ParseSigned(Strip(s))
  }

  /** An optional sign followed by one or more decimal digits. */
  function ParseSigned(t: string): Option<int> {
    if |t| > 1 && (t[0] == '+' || t[0] == '-') && AllDigits(t[1..]) then
      var v: int := DigitsValue(t[1..]);
      Some(if t[0] == '-' then -v else v)
    else if t != [] && AllDigits(t) then
      Some(DigitsValue(t))
    else
      None
  }

  lemma {:induction false} NatToStringValue(n: nat)
    ensures DigitsValue(NatToString(n)) == n
  {
    if n >= 10 {
      NatToStringValue(n / 10);
      var s := NatToString(n);
      assert s[..|s| - 1] == NatToString(n / 10);
    }
  }

  /** `int(str(i)) == i`. */
  lemma IntToStringRoundTrip(i: int)
    ensures ParseInt(IntToString(i)) == Some(i)
  {
    if i < 0 {
      assert IntToString(i) == "-" + NatToString(-i);
      NegativeRoundTrip(i);
    } else {
      assert IntToString(i) == NatToString(i);
      NonNegativeRoundTrip(i);
    }
  }

  lemma NonNegativeRoundTrip(n: nat)
    ensures ParseInt(NatToString(n)) == Some(n)
  {
    var s := NatToString(n);
    NatToStringValue(n);
    assert IsDigit(s[0]) && IsDigit(s[|s| - 1]);
    StripOfStripped(s);
    assert s[0] != '+' && s[0] != '-';
  }

  lemma NegativeRoundTrip(i: int)
    requires i < 0
    ensures ParseInt("-" + NatToString(-i)) == Some(i)
  {
    var digits := NatToString(-i);
    var s := "-" + digits;
    assert s[1..] == digits;
    assert IsDigit(digits[|digits| - 1]) && s[|s| - 1] == digits[|digits| - 1];
    StripOfStripped(s);
    SignedValue(s, digits, -i);
  }

  /** A minus sign followed by the digits of `n` parses as `-n`. */
  lemma SignedValue(s: string, digits: string, n: nat)
    requires digits == NatToString(n) && s == "-" + digits && s[1..] == digits
    ensures ParseSigned(s) == Some(-(n as int))
  {
    NatToStringValue(n);
  }

  /** Distinct numbers print differently. */
  lemma NatToStringInjective(m: nat, n: nat)
    requires NatToString(m) == NatToString(n)
    ensures m == n
  {
    NatToStringValue(m);
    NatToStringValue(n);
  }

  /** `sub` occurs in `s` starting at position `i`. */
  predicate OccursAt(s: string, sub: string, i: int) {
    0 <= i <= |s| - |sub| && s[i..i + |sub|] == sub
  }

  /** `sub in s`. */
  predicate Contains(s: string, sub: string) {
    exists i :: 0 <= i <= |s| - |sub| && OccursAt(s, sub, i)
  }

  /** `s.startswith(prefix)`. */
  predicate StartsWith(s: string, prefix: string) {
    |prefix| <= |s| && s[..|prefix|] == prefix
  }

  /** `s.endswith(suffix)`. */
  predicate EndsWith(s: string, suffix: string) {
    |suffix| <= |s| && s[|s| - |suffix|..] == suffix
  }

  /** `x or ""` for an optional string. */
  function OrEmpty(x: Option<string>): string {
    x.GetOr("")
  }
}
