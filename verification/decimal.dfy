/**
 Decimal rendering of integers (JavaScript template-literal interpolation of a
 number, `${n}`) and the prefix parser `parseInt(s)` used to read page numbers
 back out of button custom ids.
 */
module Decimal {
  import opened Wrappers

  predicate IsDigit(c: char) {
    '0' <= c <= '9'
  }

  predicate AllDigits(s: string) {
    forall i :: 0 <= i < |s| ==> IsDigit(s[i])
  }

  function DigitChar(d: nat): (c: char)
    requires d < 10
    ensures IsDigit(c)
  {
    "0123456789"[d]
  }

  function DigitValue(c: char): nat
    requires IsDigit(c)
  {
    (c as int - '0' as int) as nat
  }

  /** The value of a string of decimal digits, most significant first. */
  function DigitsValue(s: string): nat
    requires AllDigits(s)
  {
    if |s| == 0 then 0 else DigitsValue(s[..|s| - 1]) * 10 + DigitValue(s[|s| - 1])
  }

  /** `${n}` for a non-negative integer: no sign, no leading zeros. */
  function NatToString(n: nat): (s: string)
    ensures |s| > 0 && AllDigits(s)
    ensures |s| > 1 ==> s[0] != '0'
  {
    if n < 10 then [DigitChar(n)] else NatToString(n / 10) + [DigitChar(n % 10)]
  }

  /** `${n}` for any integer. */
  function IntToString(n: int): (s: string)
    ensures |s| > 0
    ensures n < 0 <==> s[0] == '-'
  {
    if n < 0 then "-" + NatToString(-n) else NatToString(n)
  }

  /** The decimal rendering reads back as the number it renders. */
  lemma {:induction false} NatToStringValue(n: nat)
    ensures DigitsValue(NatToString(n)) == n
  {
    if n >= 10 {
      NatToStringValue(n / 10);
      var s := NatToString(n);
      assert s[..|s| - 1] == NatToString(n / 10);
    }
  }

  /** Distinct numbers render as distinct strings. */
  lemma NatToStringInjective(m: nat, n: nat)
    requires NatToString(m) == NatToString(n)
    ensures m == n
  {
    NatToStringValue(m);
    NatToStringValue(n);
  }

  /** The longest prefix of `s` made of decimal digits. */
  function LeadingDigits(s: string): (r: string)
    ensures AllDigits(r) && |r| <= |s| && r == s[..|r|]
    ensures |r| < |s| ==> !IsDigit(s[|r|])
  {
    if |s| == 0 || !IsDigit(s[0]) then "" else [s[0]] + LeadingDigits(s[1..])
  }

  /**
   `parseInt(s, 10)` without leading white space: an optional sign followed
   by the longest run of digits; `None` stands for `NaN` (no digits at all).
   */
  function ParseInt(s: string): (r: Option<int>)
    ensures r.Some? <==> |LeadingDigits(if |s| > 0 && (s[0] == '-' || s[0] == '+') then s[1..] else s)| > 0
  {
    var signed := |s| > 0 && (s[0] == '-' || s[0] == '+');
    var body := if signed then s[1..] else s;
    var digits := LeadingDigits(body);
    if |digits| == 0 then None
    else if signed && s[0] == '-' then Some(-(DigitsValue(digits) as int))
    else Some(DigitsValue(digits))
  }

  /** `parseInt` inverts the rendering of every integer. */
  lemma ParseIntOfIntToString(n: int)
    ensures ParseInt(IntToString(n)) == Some(n)
  {
    var m: nat := if n < 0 then -n else n;
    var digits := NatToString(m);
    AllDigitsAreLeading(digits);
    NatToStringValue(m);
    if n < 0 {
      assert IntToString(n)[1..] == digits;
    }
  }

  lemma {:induction false} AllDigitsAreLeading(s: string)
    requires AllDigits(s)
    ensures LeadingDigits(s) == s
  {
    if |s| > 0 {
      AllDigitsAreLeading(s[1..]);
    }
  }
}
