/**
 Decimal rendering and parsing of integers: Python's `str(n)` / f-string
 interpolation of an `int`, and `int(text)` on a string.
 */
module Decimal {
  import opened Wrappers
  import Text

  predicate IsDigit(c: char)
  {
    '0' <= c <= '9'
  }

  predicate AllDigits(s: string)
  {
    forall i :: 0 <= i < |s| ==> IsDigit(s[i])
  }

  function DigitChar(d: nat): char
    requires d < 10
  {
    ('0' as int + d) as char
  }

  function DigitValue(c: char): nat
    requires IsDigit(c)
  {
    c as int - '0' as int
  }

  /** Decimal digits of a natural number, most significant first, no leading zeros. */
  function NatToString(n: nat): (s: string)
    ensures |s| > 0 && AllDigits(s)
    ensures s[0] == '0' ==> n == 0
  {
    if n < 10 then [DigitChar(n)] else NatToString(n / 10) + [DigitChar(n % 10)]
  }

  /** `str(n)` for a Python `int`. */
  function IntToString(n: int): (s: string)
    ensures |s| > 0
    ensures IsDigit(s[0]) || s[0] == '-'
    ensures forall i :: 0 <= i < |s| ==> IsDigit(s[i]) || s[i] == '-'
  {
    if n < 0 then "-" + NatToString(-n) else NatToString(n)
  }

  /** Value of a string of decimal digits. */
  function DigitsValue(s: string): nat
    requires AllDigits(s)
  {
    if |s| == 0 then 0 else DigitsValue(s[..|s| - 1]) * 10 + DigitValue(s[|s| - 1])
  }

  /**
   `int(text)` for text made of an optional sign and ASCII digits, with
   surrounding whitespace ignored; `None` where Python raises `ValueError`.
   */
  function ParseInt(text: string): Option<int>
  {
    var t := Text.Strip(text);
    if |t| > 0 && (t[0] == '-' || t[0] == '+') then
      var digits := t[1..];
      if |digits| > 0 && AllDigits(digits) then
        Some(if t[0] == '-' then 0 - DigitsValue(digits) as int else DigitsValue(digits))
      else None
    else if |t| > 0 && AllDigits(t) then Some(DigitsValue(t))
    else None
  }

  lemma {:induction false} DigitsOfNat(n: nat)
    ensures DigitsValue(NatToString(n)) == n
  {
    var s := NatToString(n);
    if n >= 10 {
      DigitsOfNat(n / 10);
      assert s[..|s| - 1] == NatToString(n / 10);
    }
  }

  /** Parsing the rendering of an integer gives the integer back. */
  lemma ParseRendered(n: int)
    ensures ParseInt(IntToString(n)) == Some(n)
  {
    RenderedIsTrimmed(n);
    if n < 0 {
      ParseNegative(-n);
    } else {
      DigitsOfNat(n);
    }
  }

  /** A rendering has no surrounding whitespace for `int()` to strip. */
  lemma RenderedIsTrimmed(n: int)
    ensures Text.Strip(IntToString(n)) == IntToString(n)
  {
    var s := IntToString(n);
    assert !Text.IsSpace(s[0]) && !Text.IsSpace(s[|s| - 1]);
    Text.StripTrimmed(s);
  }

  lemma ParseNegative(m: nat)
    requires m > 0
    ensures var s := "-" + NatToString(m);
      && |s| > 1 && s[1..] == NatToString(m) && AllDigits(s[1..])
      && DigitsValue(s[1..]) == m
  {
    DigitsOfNat(m);
    assert ("-" + NatToString(m))[1..] == NatToString(m);
  }

  /** Distinct integers render to distinct strings. */
  lemma RenderInjective(a: int, b: int)
    requires IntToString(a) == IntToString(b)
    ensures a == b
  {
    ParseRendered(a);
    ParseRendered(b);
  }
}
