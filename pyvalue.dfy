/**
  A scalar JSON or worksheet value as Python sees it: `None`, a string or an
  integer, with Python's truthiness, `str(v)` and `int(v)`.
 */
module PyValue {
  import opened Wrappers
  import opened PyStr

  datatype Scalar = Null | Str(s: string) | Int(n: int)

  /** `bool(v)`. */
  predicate Truthy(v: Scalar) {
    match v
    case Null => false
    case Str(s) => s != ""
    case Int(n) => n != 0
  }

  /** `str(v)`; `None` prints as "None". */
  function StrOf(v: Scalar): string {
    match v
    case Null => "None"
    case Str(s) => s
    case Int(n) => IntToString(n)
  }

  /** `int(v)`, with `None` for the `TypeError` or `ValueError` it raises. */
  function ToInt(v: Scalar): Option<int> {
    match v
    case Null => None
    case Str(s) => ParseInt(s)
    case Int(n) => Some(n)
  }

  /** A number and its decimal string convert to the same integer. */
  lemma ToIntOfString(n: int)
    ensures ToInt(Str(IntToString(n))) == ToInt(Int(n)) == Some(n)
  {
    IntToStringRoundTrip(n);
  }

  /** `int()` accepts a decimal numeral with whitespace around it. */
  lemma ToIntPadded(w1: string, n: int, w2: string)
    requires AllSpace(w1) && AllSpace(w2)
    ensures ToInt(Str(w1 + IntToString(n) + w2)) == Some(n)
  {
    var t := IntToString(n);
    StripPadding(w1, t, w2);
    IntToStringRoundTrip(n);
    StripOfStripped(t);
  }

  predicate IsSign(c: char) {
    c == '+' || c == '-'
  }

  /** A text of digits, at least one, with at most a sign in front. */
  predicate IsNumeral(t: string) {
    (exists k :: 0 <= k < |t| && IsDigit(t[k])) &&
    forall k :: 0 <= k < |t| ==> IsDigit(t[k]) || (k == 0 && IsSign(t[k]))
  }

  /**
    `int(s)` succeeds exactly when `s.strip()` is a numeral: an empty text, a
    lone sign, or any other character raises `ValueError`.
   */
  lemma ToIntAccepts(s: string)
    ensures ToInt(Str(s)).Some? <==> IsNumeral(Strip(s))
  {
    var t := Strip(s);
    if IsNumeral(t) {
      var k :| 0 <= k < |t| && IsDigit(t[k]);
      if IsSign(t[0]) {
        assert forall m :: 0 <= m < |t| - 1 ==> t[1..][m] == t[m + 1];
      } else {
        assert AllDigits(t);
      }
    }
    if ToInt(Str(s)).Some? {
      if |t| > 1 && IsSign(t[0]) && AllDigits(t[1..]) {
        assert IsDigit(t[1..][0]);
        assert forall m :: 1 <= m < |t| ==> t[m] == t[1..][m - 1];
      } else {
        assert IsDigit(t[0]);
      }
    }
  }
}
