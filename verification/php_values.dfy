/**
 * The scalar values the plugin stores in PHP constants, and PHP's `(int)`
 * cast of a string, which the avatar-size options go through.
 */
module PhpValues {

  /** A value bound to a PHP constant or returned by a filter callback. */
  datatype Value = Int(i: int) | Str(s: string) | Bool(b: bool)

  predicate IsDigit(ch: char) {
    '0' <= ch <= '9'
  }

  /** The white space PHP skips in front of a numeric string: space, \t, \n, \r, \v and \f. */
  predicate IsSpace(ch: char) {
    ch == ' ' || ch == '\t' || ch == '\n' || ch == '\r' || ch == '\U{0B}' || ch == '\U{0C}'
  }

  predicate AllDigits(s: string) {
    forall i :: 0 <= i < |s| ==> IsDigit(s[i])
  }

  function DigitValue(ch: char): nat
    requires IsDigit(ch)
  {
    (ch as int) - ('0' as int)
  }

  function DigitChar(d: nat): (ch: char)
    requires d < 10
    ensures IsDigit(ch) && DigitValue(ch) == d
  {
    ('0' as int + d) as char
  }

  /** The number a string of decimal digits denotes ("" denotes 0). */
  function DigitsValue(s: string): nat
    requires AllDigits(s)
  {
    if s == [] then 0 else DigitsValue(s[..|s| - 1]) * 10 + DigitValue(s[|s| - 1])
  }

  /** The longest prefix of `s` made of decimal digits. */
  function LeadingDigits(s: string): (d: string)
    ensures AllDigits(d) && d <= s
    ensures |d| < |s| ==> !IsDigit(s[|d|])
  {
    if s != [] && IsDigit(s[0]) then [s[0]] + LeadingDigits(s[1..]) else []
  }

  function SkipSpaces(s: string): (t: string)
    ensures t == [] || !IsSpace(t[0])
  {
    if s != [] && IsSpace(s[0]) then SkipSpaces(s[1..]) else s
  }

  /**
   * PHP's `(int)` cast of a string: leading white space is skipped, an
   * optional sign is read, then the longest run of decimal digits; a string
   * with no such run casts to 0.
   */
  function ToInt(s: string): (r: int)
    ensures AllDigits(s) ==> r == DigitsValue(s)
  {
    var t := SkipSpaces(s);
    LeadingDigitsOfDigits(t);
    if t != [] && t[0] == '-' then 0 - DigitsValue(LeadingDigits(t[1..])) as int
    else if t != [] && t[0] == '+' then DigitsValue(LeadingDigits(t[1..]))
    else DigitsValue(LeadingDigits(t))
  }

  /** The canonical decimal spelling of a natural number, as PHP prints it. */
  function Decimal(n: nat): (s: string)
    ensures s != [] && AllDigits(s)
  {
    if n < 10 then [DigitChar(n)] else Decimal(n / 10) + [DigitChar(n % 10)]
  }

  lemma {:induction false} LeadingDigitsOfDigits(s: string)
    ensures AllDigits(s) ==> LeadingDigits(s) == s
  {
    if s != [] && AllDigits(s) {
      LeadingDigitsOfDigits(s[1..]);
    }
  }

  lemma {:induction false} DigitsValueOfDecimal(n: nat)
    ensures DigitsValue(Decimal(n)) == n
  {
    if n >= 10 {
      DigitsValueOfDecimal(n / 10);
      var s := Decimal(n);
      assert s[..|s| - 1] == Decimal(n / 10);
    }
  }

  /** Casting the decimal spelling of a number gives the number back. */
  lemma DecimalRoundTrip(n: nat)
    ensures ToInt(Decimal(n)) == n
  {
    var s := Decimal(n);
    assert !IsSpace(s[0]) && s[0] != '-' && s[0] != '+';
    LeadingDigitsOfDigits(s);
    DigitsValueOfDecimal(n);
  }

  /** A minus sign in front of the decimal spelling negates the cast. */
  lemma NegativeDecimalRoundTrip(n: nat)
    ensures ToInt("-" + Decimal(n)) == -(n as int)
  {
    var s := "-" + Decimal(n);
    assert SkipSpaces(s) == s;
    assert s[1..] == Decimal(n);
    LeadingDigitsOfDigits(Decimal(n));
    DigitsValueOfDecimal(n);
  }

  /** Only the leading digits count: whatever follows them is ignored. */
  lemma {:induction false} ToIntIgnoresTrailing(d: string, rest: string)
    requires d != [] && AllDigits(d)
    requires rest == [] || !IsDigit(rest[0])
    ensures ToInt(d + rest) == DigitsValue(d)
  {
    var s := d + rest;
    assert s[0] == d[0];
    assert SkipSpaces(s) == s;
    LeadingDigitsAppend(d, rest);
  }

  lemma {:induction false} LeadingDigitsAppend(d: string, rest: string)
    requires AllDigits(d)
    requires rest == [] || !IsDigit(rest[0])
    ensures LeadingDigits(d + rest) == d
  {
    if d == [] {
      assert d + rest == rest;
    } else {
      assert (d + rest)[1..] == d[1..] + rest;
      LeadingDigitsAppend(d[1..], rest);
    }
  }

  /** A string that does not start (after white space and a sign) with a digit casts to 0. */
  lemma NonNumericIsZero(s: string)
    requires s == [] || (!IsSpace(s[0]) && !IsDigit(s[0]) && s[0] != '-' && s[0] != '+')
    ensures ToInt(s) == 0
  {
  }
}
