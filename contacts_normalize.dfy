/**
  The normalisation helpers of the contact exchange pipeline: `norm` for
  company titles, `norm_email` and `norm_phone` for the duplicate-detection
  keys. A Python `None` argument behaves exactly like "" in all three
  (`s or ""`, `if not raw`), so here they take a plain string.
 */
module ContactNormalize {
  import opened PyStr

  /** `norm(s)`: trimmed and lower-cased. */
  function Norm(s: string): string {
    Lower(Strip(s))
  }

  /** A normalised title has no whitespace at its ends and no upper-case letter. */
  lemma NormIsNormal(s: string)
    ensures IsStripped(Norm(s)) && Lower(Norm(s)) == Norm(s)
  {
    LowerKeepsStripped(Strip(s));
    LowerIdempotent(Strip(s));
  }

  lemma NormIdempotent(s: string)
    ensures Norm(Norm(s)) == Norm(s)
  {
    NormIsNormal(s);
    StripOfStripped(Norm(s));
  }

  /** `norm_email(raw)`: the same trim-and-lower-case as `norm`. */
  function NormEmail(raw: string): string {
    Lower(Strip(raw))
  }

  lemma NormEmailIdempotent(raw: string)
    ensures NormEmail(NormEmail(raw)) == NormEmail(raw)
  {
    NormIdempotent(raw);
  }

  /**
    `norm_phone(raw)`: the digits of `raw`, where an 11-digit number with
    trunk prefix 8 and a 10-digit national number both become the
    11-digit form with country code 7; any other digit string is kept as is.
   */
  function NormPhone(raw: string): string {
    NormalizeDigits(Digits(raw))
  }

  /**
    The result is digits only; the 10-digit and the 8-prefixed 11-digit
    forms become the 7-prefixed 11-digit form, and no result is left in
    either of those two forms.
   */
  lemma NormPhoneSpec(raw: string)
    ensures AllDigits(NormPhone(raw))
    ensures |Digits(raw)| != 10 && |Digits(raw)| != 11 ==> NormPhone(raw) == Digits(raw)
    ensures |Digits(raw)| == 11 && Digits(raw)[0] != '8' ==> NormPhone(raw) == Digits(raw)
    ensures |Digits(raw)| == 10 || (|Digits(raw)| == 11 && Digits(raw)[0] == '8') ==>
              |NormPhone(raw)| == 11 && NormPhone(raw)[0] == '7' &&
              NormPhone(raw)[1..] == Digits(raw)[|Digits(raw)| - 10..]
    ensures |NormPhone(raw)| != 10 && !(|NormPhone(raw)| == 11 && NormPhone(raw)[0] == '8')
  {
    var d := Digits(raw);
    if |d| == 11 && d[0] == '8' {
      assert ("7" + d[1..])[1..] == d[1..];
    }
  }

  /** The two rewrites of `norm_phone` (lines 23-26), on the digit string. */
  function NormalizeDigits(digits: string): string {
    var trunk := if |digits| == 11 && digits[0] == '8' then "7" + digits[1..] else digits;
    if |trunk| == 10 then "7" + trunk else trunk
  }

  lemma NormPhoneIdempotent(raw: string)
    ensures NormPhone(NormPhone(raw)) == NormPhone(raw)
  {
    var r := NormPhone(raw);
    NormPhoneSpec(raw);
    NormPhoneSpec(r);
    assert Digits(r) == r;
  }

  /**
    A ten-digit national number, the same number with trunk prefix 8 and
    with country code 7 all normalise to one key.
   */
  lemma NormPhoneSameNumber(national: string)
    requires |national| == 10 && AllDigits(national)
    ensures NormPhone(national) == "7" + national
    ensures NormPhone("8" + national) == "7" + national
    ensures NormPhone("7" + national) == "7" + national
  {
    assert AllDigits("8" + national) && AllDigits("7" + national);
    NormPhoneSpec(national);
    NormPhoneSpec("8" + national);
    NormPhoneSpec("7" + national);
    assert ("8" + national)[1..] == national;
    assert ("7" + national)[1..] == national;
  }

  /** Separators (spaces, brackets, dashes, a leading plus) do not change the key. */
  lemma NormPhoneIgnoresSeparator(a: string, c: char, b: string)
    requires !IsDigit(c)
    ensures NormPhone(a + [c] + b) == NormPhone(a + b)
  {
    DigitsConcat(a + [c], b);
    DigitsConcat(a, [c]);
    DigitsConcat(a, b);
    assert Digits([c]) == [];
    assert Digits(a + [c] + b) == Digits(a + b);
  }
}
