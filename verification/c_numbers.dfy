/**
 * The two integer/text conversions the update tracker relies on: C's `atoi`
 * (reading the `progress` field) and `printf`'s `%d` (the simulator writing
 * it). Integers are unbounded here; see README for the overflow this omits.
 */
module CNumbers {

  predicate IsDigit(c: char)
  {
    '0' <= c <= '9'
  }

  predicate AllDigits(s: string)
  {
    forall i :: 0 <= i < |s| ==> IsDigit(s[i])
  }

  function DigitValue(c: char): (d: nat)
    requires IsDigit(c)
    ensures d < 10
  {
    (c as int) - ('0' as int)
  }

  function DigitChar(d: nat): (c: char)
    requires d < 10
    ensures IsDigit(c) && DigitValue(c) == d
  {
    (('0' as int) + d) as char
  }

  /** The characters C's `isspace` accepts in the "C" locale. */
  predicate IsCSpace(c: char)
  {
    c == ' ' || c == '\t' || c == '\n' || c == '\U{000B}' || c == '\U{000C}' || c == '\r'
  }

  /** `s` without its leading white space. */
  function SkipSpaces(s: string): (r: string)
    ensures |r| <= |s| && r == s[|s| - |r|..]
    ensures forall i :: 0 <= i < |s| - |r| ==> IsCSpace(s[i])
    ensures r != [] ==> !IsCSpace(r[0])
  {
    if s != [] && IsCSpace(s[0]) then SkipSpaces(s[1..]) else s
  }

  /** The longest prefix of `s` made of decimal digits. */
  function LeadingDigits(s: string): (d: string)
    ensures |d| <= |s| && d == s[..|d|] && AllDigits(d)
    ensures |d| < |s| ==> !IsDigit(s[|d|])
  {
    if s != [] && IsDigit(s[0]) then [s[0]] + LeadingDigits(s[1..]) else []
  }

  /** The number a string of decimal digits denotes. */
  function DigitsValue(d: string): nat
    requires AllDigits(d)
  {
    if d == [] then 0 else 10 * DigitsValue(d[..|d| - 1]) + DigitValue(d[|d| - 1])
  }

  /**
   * C's `atoi`: leading white space, an optional sign, then as many digits as
   * follow; anything else ends the number, and no digits at all give 0.
   */
  function Atoi(s: string): (n: int)
    ensures var u := SkipSpaces(s);
      u == [] || (!IsDigit(u[0]) && u[0] != '-' && u[0] != '+') ==> n == 0
    ensures n < 0 ==> SkipSpaces(s) != [] && SkipSpaces(s)[0] == '-'
  {
    var u := SkipSpaces(s);
    if u != [] && u[0] == '-' then -(DigitsValue(LeadingDigits(u[1..])) as int)
    else if u != [] && u[0] == '+' then DigitsValue(LeadingDigits(u[1..]))
    else DigitsValue(LeadingDigits(u))
  }

  /** `printf("%d")` of a non-negative number: its decimal digits, no leading zero. */
  function Decimal(n: nat): (s: string)
    ensures 1 <= |s| && AllDigits(s)
    ensures |s| > 1 ==> s[0] != '0'
    ensures DigitsValue(s) == n
  {
    if n < 10 then [DigitChar(n)]
    else
      var s := Decimal(n / 10) + [DigitChar(n % 10)];
      assert s[..|s| - 1] == Decimal(n / 10);
      s
  }

  /** `printf("%d")` of any int: a minus sign before the digits of a negative one. */
  function FormatInt(n: int): (s: string)
    ensures 1 <= |s|
    ensures n < 0 <==> s[0] == '-'
  {
    if n < 0 then "-" + Decimal(-n) else Decimal(n)
  }

  /** One digit below ten, at most two below a hundred. */
  lemma DecimalLength(n: nat)
    ensures n < 10 ==> |Decimal(n)| == 1
    ensures n < 100 ==> |Decimal(n)| <= 2
  {
    if n >= 10 {
      assert |Decimal(n)| == |Decimal(n / 10)| + 1;
    }
  }

  /** A digit string is read back in full. */
  lemma AtoiAllDigits(s: string)
    requires AllDigits(s)
    ensures Atoi(s) == DigitsValue(s)
  {
    if s != [] {
      assert !IsCSpace(s[0]) && s[0] != '-' && s[0] != '+';
    }
    assert SkipSpaces(s) == s;
    assert LeadingDigits(s) == s;
  }

  /** `atoi` reads back what `%d` wrote. */
  lemma AtoiFormatInt(n: int)
    ensures Atoi(FormatInt(n)) == n
  {
    if n < 0 {
      var s := FormatInt(n);
      assert SkipSpaces(s) == s;
      assert s[1..] == Decimal(-n);
      assert LeadingDigits(Decimal(-n)) == Decimal(-n);
    } else {
      AtoiAllDigits(Decimal(n));
    }
  }
}
