/**
 * How Java renders a `Long` when it is concatenated to a string (`Long.toString`): an
 * optional minus sign followed by the decimal digits, without leading zeros.
 */
module JavaText {

  predicate IsDigit(c: char) {
    '0' <= c <= '9'
  }

  predicate AllDigits(s: string) {
    forall i :: 0 <= i < |s| ==> IsDigit(s[i])
  }

  function DigitChar(d: int): (c: char)
    requires 0 <= d < 10
  {
    (48 + d) as char
  }

  function DigitValue(c: char): int
    requires IsDigit(c)
  {
    c as int - 48
  }

  /** The decimal digits of a natural number. */
  function NaturalToString(n: nat): (s: string)
    ensures |s| > 0 && AllDigits(s)
    decreases n
  {
    if n < 10 then [DigitChar(n)] else NaturalToString(n / 10) + [DigitChar(n % 10)]
  }

  /** The number a string of decimal digits denotes. */
  function ParseNatural(s: string): nat
    requires AllDigits(s)
    decreases |s|
  {
    if s == [] then 0 else 10 * ParseNatural(s[..|s| - 1]) + DigitValue(s[|s| - 1])
  }

  lemma {:induction false} ParseNaturalToString(n: nat)
    ensures ParseNatural(NaturalToString(n)) == n
    decreases n
  {
    var s := NaturalToString(n);
    if n >= 10 {
      ParseNaturalToString(n / 10);
      assert s[..|s| - 1] == NaturalToString(n / 10);
    }
  }

  /** `Long.toString`. */
  function LongToString(n: int): (s: string)
    ensures |s| > 0
    ensures forall i :: 0 <= i < |s| ==> IsDigit(s[i]) || (i == 0 && s[i] == '-')
  {
    if n < 0 then "-" + NaturalToString(-n) else NaturalToString(n)
  }

  /** `Long.parseLong` on what `Long.toString` produces. */
  function ParseLong(s: string): int
    requires |s| > 0
    requires forall i :: 0 <= i < |s| ==> IsDigit(s[i]) || (i == 0 && s[i] == '-')
  {
    if s[0] == '-' then -(ParseNatural(s[1..]) as int) else ParseNatural(s)
  }

  /** Rendering a `Long` loses nothing: parsing the text gives the number back. */
  lemma ParseLongToString(n: int)
    ensures ParseLong(LongToString(n)) == n
  {
    if n < 0 {
      ParseNaturalToString(-n);
      assert LongToString(n)[1..] == NaturalToString(-n);
    } else {
      ParseNaturalToString(n);
    }
  }

  /** Different numbers render differently. */
  lemma LongToStringInjective(a: int, b: int)
    requires LongToString(a) == LongToString(b)
    ensures a == b
  {
    ParseLongToString(a);
    ParseLongToString(b);
  }
}
