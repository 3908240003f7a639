/** Decimal text for integers, JavaScript template rendering of numbers, and the
    `parseInt(s, 10)` reading of a string. */
module Numbers {

  /** A JavaScript number as it occurs in this application: an integer, or the
      NaN that `parseInt` returns when there is nothing to read. */
  datatype Num = Finite(value: int) | NaN

  predicate IsDigit(c: char) { '0' <= c <= '9' }

  predicate AllDigits(s: string) { forall i :: 0 <= i < |s| ==> IsDigit(s[i]) }

  function DigitValue(c: char): (d: nat)
    requires IsDigit(c)
    ensures d < 10
  {
    c as int - '0' as int
  }

  function DigitChar(d: nat): (c: char)
    requires d < 10
    ensures IsDigit(c) && DigitValue(c) == d
  {
    ('0' as int + d) as char
  }

  /** The decimal numeral of `n`, as JavaScript renders a non-negative integer. */
  function NatToDecimal(n: nat): (s: string)
    ensures |s| > 0 && AllDigits(s)
    ensures s[0] == '0' ==> n == 0
    decreases n
  {
    if n < 10 then [DigitChar(n)] else NatToDecimal(n / 10) + [DigitChar(n % 10)]
  }

  /** `${i}` for an integer `i`. */
  function IntToDecimal(i: int): string
  {
    if i < 0 then "-" + NatToDecimal(-i) else NatToDecimal(i)
  }

  /** `${x}` for a number that may be NaN. */
  function NumToString(x: Num): string
  {
    match x
    case Finite(v) => IntToDecimal(v)
    case NaN => "NaN"
  }

  /** The value of a string of decimal digits, most significant digit first. */
  function DigitsValue(s: string): nat
    requires AllDigits(s)
  {
    if s == [] then 0 else DigitsValue(s[..|s| - 1]) * 10 + DigitValue(s[|s| - 1])
  }

  /** The longest prefix of `s` made of decimal digits. */
  function LeadingDigits(s: string): (d: string)
    ensures d <= s && AllDigits(d)
    ensures |d| < |s| ==> !IsDigit(s[|d|])
  {
    if s != [] && IsDigit(s[0]) then [s[0]] + LeadingDigits(s[1..]) else []
  }

  /** The unsigned part of `parseInt`: the value of the leading run of decimal
      digits, NaN when that run is empty. */
  function ParseDigits(s: string): Num
  {
    var d := LeadingDigits(s);
    if d == [] then NaN else Finite(DigitsValue(d))
  }

  /** Unary minus on a number; NaN stays NaN. */
  function Negate(x: Num): Num
  {
    match x
    case Finite(v) => Finite(-v)
    case NaN => NaN
  }

  /** `parseInt(s, 10)`: an optional sign, then the leading run of decimal digits;
      NaN when that run is empty. Leading white space is not skipped. */
  function ParseInt(s: string): Num
  {
    if |s| > 0 && s[0] == '-' then Negate(ParseDigits(s[1..]))
    else if |s| > 0 && s[0] == '+' then ParseDigits(s[1..])
    else ParseDigits(s)
  }

  lemma {:induction false} DigitsValueOfDecimal(n: nat)
    ensures DigitsValue(NatToDecimal(n)) == n
    decreases n
  {
    var s := NatToDecimal(n);
    if n >= 10 {
      DigitsValueOfDecimal(n / 10);
      assert s[..|s| - 1] == NatToDecimal(n / 10);
    } else {
      assert s[..|s| - 1] == [];
    }
  }

  /** Reading digits stops at the first character that is not a digit. */
  lemma {:induction false} LeadingDigitsOfDigitsThen(d: string, t: string)
    requires AllDigits(d)
    requires t == [] || !IsDigit(t[0])
    ensures LeadingDigits(d + t) == d
  {
    if d != [] {
      assert (d + t)[1..] == d[1..] + t;
      LeadingDigitsOfDigitsThen(d[1..], t);
    } else {
      assert d + t == t;
    }
  }

  /** `parseInt` of a digit run followed by anything that does not start with a
      digit is the value of the digit run (leading zeros allowed). */
  lemma ParseIntOfDigitsThen(d: string, t: string)
    requires |d| > 0 && AllDigits(d)
    requires t == [] || !IsDigit(t[0])
    ensures ParseInt(d + t) == Finite(DigitsValue(d))
  {
    ParseDigitsOfDigitsThen(d, t);
    assert (d + t)[0] == d[0];
  }

  /** The unsigned reading of a digit run followed by a non-digit is its value. */
  lemma ParseDigitsOfDigitsThen(d: string, t: string)
    requires |d| > 0 && AllDigits(d)
    requires t == [] || !IsDigit(t[0])
    ensures ParseDigits(d + t) == Finite(DigitsValue(d))
  {
    LeadingDigitsOfDigitsThen(d, t);
  }

  /** The unsigned reading of the decimal form of `n`, followed by text that does
      not start with a digit, is `n`. */
  lemma ParseDigitsOfDecimalThen(n: nat, t: string)
    requires t == [] || !IsDigit(t[0])
    ensures ParseDigits(NatToDecimal(n) + t) == Finite(n)
  {
    ParseDigitsOfDigitsThen(NatToDecimal(n), t);
    DigitsValueOfDecimal(n);
  }

  /** A leading minus sign negates the unsigned reading of the rest. */
  lemma ParseIntOfMinus(r: string)
    ensures ParseInt("-" + r) == Negate(ParseDigits(r))
  {
    var s := "-" + r;
    assert s[0] == '-' && s[1..] == r;
  }

  /** Without a sign, `parseInt` is the unsigned reading. */
  lemma ParseIntOfUnsigned(s: string)
    requires |s| > 0 && IsDigit(s[0])
    ensures ParseInt(s) == ParseDigits(s)
  {
  }

  /** `parseInt` inverts `${i}` for every integer, even when followed by text that
      does not start with a digit. */
  lemma ParseIntOfDecimalThen(i: int, t: string)
    requires t == [] || !IsDigit(t[0])
    ensures ParseInt(IntToDecimal(i) + t) == Finite(i)
  {
    if i < 0 {
      var r := NatToDecimal(-i) + t;
      assert IntToDecimal(i) + t == "-" + r;
      ParseDigitsOfDecimalThen(-i, t);
      ParseIntOfMinus(r);
    } else {
      var s := NatToDecimal(i) + t;
      assert IntToDecimal(i) + t == s && s[0] == NatToDecimal(i)[0];
      ParseDigitsOfDecimalThen(i, t);
      ParseIntOfUnsigned(s);
    }
  }

  lemma ParseIntOfDecimal(i: int)
    ensures ParseInt(IntToDecimal(i)) == Finite(i)
  {
    ParseIntOfDecimalThen(i, "");
    assert IntToDecimal(i) + "" == IntToDecimal(i);
  }

  /** Reading back a rendered number gives the number, NaN included. */
  lemma ParseIntOfNumToString(x: Num)
    ensures ParseInt(NumToString(x)) == x
  {
    if x.Finite? {
      ParseIntOfDecimal(x.value);
    }
  }

  /** A string with no leading digit after the optional sign reads as NaN. */
  lemma ParseIntNoDigits(s: string)
    requires s == [] || (!IsDigit(s[0]) && s[0] != '-' && s[0] != '+')
    ensures ParseInt(s) == NaN
  {
  }

  /** The rendered form of a number never contains a separator used around it. */
  lemma NumToStringHasNo(x: Num, c: char)
    requires !IsDigit(c) && c != '-' && c != 'N' && c != 'a'
    ensures c !in NumToString(x)
  {
    if x.Finite? && x.value < 0 {
      var digits := NatToDecimal(-x.value);
      assert NumToString(x) == "-" + digits;
      assert forall i :: 0 <= i < |digits| ==> IsDigit(digits[i]);
    }
  }
}
