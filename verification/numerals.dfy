/**
 * Decimal numerals as Python renders them in f-strings (`f"{n}"` for a
 * non-negative int) and as Python's `int(text)` reads them, restricted to an
 * optional leading `-` followed by ASCII decimal digits.
 */
module Numerals {
  import opened Wrappers

  predicate IsDigit(c: char) {
    '0' <= c <= '9'
  }

  predicate AllDigits(s: string) {
    forall i :: 0 <= i < |s| ==> IsDigit(s[i])
  }

  function DigitChar(d: nat): (c: char)
    requires d < 10
    ensures IsDigit(c) && c as int - '0' as int == d
  {
    ('0' as int + d) as char
  }

  function DigitValue(c: char): (d: nat)
    requires IsDigit(c)
    ensures d < 10 && DigitChar(d) == c
  {
    c as int - '0' as int
  }

  /** The shortest decimal numeral of `n`: what `str(n)` gives for `n >= 0`. */
  function Decimal(n: nat): (s: string)
    ensures |s| > 0 && AllDigits(s)
    ensures |s| > 1 ==> s[0] != '0'
  {
    if n < 10 then [DigitChar(n)] else Decimal(n / 10) + [DigitChar(n % 10)]
  }

  /** The value of a string of digits, most significant first. */
  function DigitsValue(s: string): nat
    requires AllDigits(s)
  {
    if s == [] then 0 else DigitsValue(s[..|s| - 1]) * 10 + DigitValue(s[|s| - 1])
  }

  /** Reading back a rendered numeral gives the number it was rendered from. */
  lemma {:induction false} DigitsValueOfDecimal(n: nat)
    ensures DigitsValue(Decimal(n)) == n
  {
    if n >= 10 {
      var s := Decimal(n);
      assert s[..|s| - 1] == Decimal(n / 10);
      DigitsValueOfDecimal(n / 10);
    }
  }

  /** Distinct numbers are rendered as distinct numerals. */
  lemma DecimalInjective(m: nat, n: nat)
    requires Decimal(m) == Decimal(n)
    ensures m == n
  {
    DigitsValueOfDecimal(m);
    DigitsValueOfDecimal(n);
  }

  /**
   * CPython's default limit on the digits of a decimal string that `int()`
   * converts and that `str()` produces (sys.int_info.default_max_str_digits).
   */
  const MaxStrDigits: nat := 4300

  /** A digit string short enough for `int()` to accept. */
  predicate Convertible(digits: string) {
    digits != [] && AllDigits(digits) && |digits| <= MaxStrDigits
  }

  /**
   * Python's `int(text)` on a str, restricted to an optional `-` and one to
   * 4300 decimal digits; every other string is a ValueError (None here).
   */
  function ParseInt(s: string): (r: Option<int>)
    ensures r.Some? <==> Convertible(s) || (|s| > 1 && s[0] == '-' && Convertible(s[1..]))
    ensures r.Some? && s[0] == '-' ==> r.value <= 0
    ensures r.Some? && s[0] != '-' ==> r.value >= 0
  {
    if |s| > 1 && s[0] == '-' && Convertible(s[1..]) then Some(-(DigitsValue(s[1..]) as int))
    else if Convertible(s) then Some(DigitsValue(s))
    else None
  }

  /** `str(i)` for any int: a `-` in front of the magnitude's numeral. */
  function IntToString(i: int): string {
    if i < 0 then "-" + Decimal(-i) else Decimal(i)
  }

  /** `int(str(i)) == i`, for every `i` that `str()` itself accepts. */
  lemma ParseIntOfIntToString(i: int)
    requires |Decimal(if i < 0 then -i else i)| <= MaxStrDigits
    ensures ParseInt(IntToString(i)) == Some(i)
  {
    if i < 0 {
      var digits := Decimal(-i);
      var s := "-" + digits;
      assert s == IntToString(i);
      assert s[1..] == digits && Convertible(digits);
      DigitsValueOfDecimal(-i);
      assert ParseInt(s) == Some(-(DigitsValue(digits) as int));
    } else {
      var s := Decimal(i);
      assert s == IntToString(i) && Convertible(s) && IsDigit(s[0]);
      DigitsValueOfDecimal(i);
      assert ParseInt(s) == Some(DigitsValue(s));
    }
  }
}
