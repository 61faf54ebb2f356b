/** The two JavaScript number conversions the forms rely on, restricted to integers:
    unary `+` on a string and `Number.prototype.toString`. */
module JsNumber {
  import opened JsText

  /** A JavaScript number as far as the forms see one: an integer, or `NaN`. */
  datatype Number = Int(value: int) | NaN

  predicate IsDigit(c: char) {
    '0' <= c <= '9'
  }

  /** A non-empty run of decimal digits. */
  predicate IsDigits(s: string) {
    s != [] && forall i :: 0 <= i < |s| ==> IsDigit(s[i])
  }

  function DigitValue(c: char): (d: nat)
    requires IsDigit(c)
    ensures d < 10
  {
    c as int - '0' as int
  }

  function DigitChar(d: nat): (c: char)
    requires d < 10
    ensures IsDigit(c) && DigitValue(c) == d
  {
    ('0' as int + d) as char
  }

  /** The value of a run of decimal digits, read most significant digit first. */
  function DigitsValue(s: string): (v: nat)
    requires forall i :: 0 <= i < |s| ==> IsDigit(s[i])
  {
    if s == [] then 0 else DigitsValue(s[..|s| - 1]) * 10 + DigitValue(s[|s| - 1])
  }

  /** An already trimmed, non-empty string read as an optionally signed decimal integer;
      anything else is `NaN`. */
  function ParseSigned(t: string): (r: Number)
    ensures r.Int? ==> IsDigits(t) || (|t| >= 2 && (t[0] == '-' || t[0] == '+') && IsDigits(t[1..]))
    ensures IsDigits(t) ==> r == Int(DigitsValue(t))
    ensures |t| >= 2 && t[0] == '+' && IsDigits(t[1..]) ==> r == Int(DigitsValue(t[1..]))
    ensures |t| >= 2 && t[0] == '-' && IsDigits(t[1..]) ==> r == Int(-(DigitsValue(t[1..]) as int))
  {
    if IsDigits(t) then Int(DigitsValue(t))
    else if |t| >= 2 && t[0] == '-' && IsDigits(t[1..]) then Int(-(DigitsValue(t[1..]) as int))
    else if |t| >= 2 && t[0] == '+' && IsDigits(t[1..]) then Int(DigitsValue(t[1..]))
    else NaN
  }

  /** `+s`: surrounding whitespace is ignored, a blank string is 0, and what remains must be
      an optionally signed decimal integer or the result is `NaN`. */
  function ToNumber(s: string): (r: Number)
    ensures IsBlank(s) ==> r == Int(0)
  {
    var t := Trim(s);
    if t == [] then Int(0) else ParseSigned(t)
  }

  /** `n.toString()` for a natural number: its decimal digits, without leading zeros. */
  function NatToString(n: nat): (r: string)
    ensures IsDigits(r)
    ensures r[0] == '0' ==> n == 0 && r == "0"
  {
    if n < 10 then [DigitChar(n)] else NatToString(n / 10) + [DigitChar(n % 10)]
  }

  /** `n.toString()`: a minus sign before the digits of a negative number. The text is
      canonical: a leading zero only in `"0"` itself, and no `"-0"`. */
  function IntToString(n: int): (r: string)
    ensures r != [] && (r[0] == '-' || IsDigit(r[0]))
    ensures forall i :: 0 < i < |r| ==> IsDigit(r[i])
    ensures r[0] == '-' <==> n < 0
    ensures r[0] == '0' ==> n == 0 && r == "0"
    ensures n < 0 ==> |r| >= 2 && r[1] != '0'
  {
    if n < 0 then "-" + NatToString(-n) else NatToString(n)
  }

  /** Reading back the digits `NatToString` writes gives the number. */
  lemma {:induction false} NatToStringRoundTrip(n: nat)
    ensures DigitsValue(NatToString(n)) == n
  {
    if n >= 10 {
      var s := NatToString(n);
      NatToStringRoundTrip(n / 10);
      assert s[..|s| - 1] == NatToString(n / 10);
    }
  }

  /** Reading back the text `IntToString` writes, sign included, gives the number. */
  lemma ParseSignedOfIntToString(n: int)
    ensures ParseSigned(IntToString(n)) == Int(n)
  {
    var s := IntToString(n);
    if n < 0 {
      NatToStringRoundTrip(-n);
      assert s[1..] == NatToString(-n);
      assert !IsDigits(s) by { assert !IsDigit(s[0]); }
    } else {
      NatToStringRoundTrip(n);
    }
  }

  /** `+(n.toString()) === n`: the decimal text of an integer converts back to it. */
  lemma IntToStringRoundTrip(n: int)
    ensures ToNumber(IntToString(n)) == Int(n)
  {
    var s := IntToString(n);
    assert !IsWhitespace(s[0]) && !IsWhitespace(s[|s| - 1]);
    TrimUnchanged(s);
    ParseSignedOfIntToString(n);
  }

  /** Distinct integers have distinct decimal texts. */
  lemma {:induction false} IntToStringInjective(m: int, n: int)
    requires IntToString(m) == IntToString(n)
    ensures m == n
  {
    IntToStringRoundTrip(m);
    IntToStringRoundTrip(n);
  }

  /** A digit run with a non-zero first digit has a non-zero value. */
  lemma {:induction false} LeadingDigitPositive(s: string)
    requires IsDigits(s) && s[0] != '0'
    ensures DigitsValue(s) >= 1
    decreases |s|
  {
    if |s| > 1 {
      var front := s[..|s| - 1];
      assert front[0] == s[0];
      LeadingDigitPositive(front);
    }
  }

  /** `NatToString` is the only way to write a natural number in digits without a leading
      zero: any such digit run is exactly what `toString` writes for its value. */
  lemma {:induction false} NatToStringUnique(s: string)
    requires IsDigits(s) && (s[0] == '0' ==> |s| == 1)
    ensures NatToString(DigitsValue(s)) == s
    decreases |s|
  {
    var v := DigitsValue(s);
    var last := s[|s| - 1];
    if |s| == 1 {
      assert DigitChar(DigitValue(last)) == last;
    } else {
      var front := s[..|s| - 1];
      assert front[0] == s[0];
      LeadingDigitPositive(front);
      NatToStringUnique(front);
      assert v / 10 == DigitsValue(front) && v % 10 == DigitValue(last);
      assert DigitChar(DigitValue(last)) == last;
      assert front + [last] == s;
    }
  }

  /** `toString` is canonical: a signed digit run without a leading zero and without `-0` that
      reads as `n` is exactly `n.toString()`. */
  lemma IntToStringUnique(s: string, n: int)
    requires
      || (IsDigits(s) && (s[0] == '0' ==> |s| == 1) && DigitsValue(s) == n)
      || (|s| >= 2 && s[0] == '-' && IsDigits(s[1..]) && s[1] != '0'
          && -(DigitsValue(s[1..]) as int) == n)
    ensures IntToString(n) == s
  {
    if s[0] == '-' {
      var digits := s[1..];
      NatToStringUnique(digits);
      LeadingDigitPositive(digits);
      assert n < 0 && -n == DigitsValue(digits);
      assert IntToString(n) == "-" + NatToString(-n);
      assert s == "-" + digits;
    } else {
      assert !IsDigit('-');
      NatToStringUnique(s);
    }
  }

  /** `+` reads an integer's text back whatever blank padding surrounds it. */
  lemma ToNumberOfPadded(a: string, n: int, b: string)
    requires IsBlank(a) && IsBlank(b)
    ensures ToNumber(a + IntToString(n) + b) == Int(n)
  {
    var s := IntToString(n);
    assert !IsWhitespace(s[0]) && !IsWhitespace(s[|s| - 1]);
    TrimPadded(a, s, b);
    ParseSignedOfIntToString(n);
  }

  /** `+" 5"` and `+"+5"` are 5. */
  lemma ToNumberOfSignedOrPadded()
    ensures ToNumber(" 5") == Int(5)
    ensures ToNumber("+5") == Int(5)
  {
    ToNumberOfPadded(" ", 5, "");
    assert " " + IntToString(5) + "" == " 5";
    TrimUnchanged("+5");
  }

  /** `+"007"` is 7 and `+"-0"` is 0. */
  lemma ToNumberOfLeadingZeros()
    ensures ToNumber("007") == Int(7)
    ensures ToNumber("-0") == Int(0)
  {
    TrimUnchanged("007");
    assert "007"[..2] == "00" && "00"[..1] == "0" && "0"[..0] == "";
    assert DigitsValue("0") == 0;
    assert DigitsValue("00") == 0;
    assert DigitsValue("007") == 7;
    TrimUnchanged("-0");
    assert "-0"[1..] == "0" && !IsDigit("-0"[0]);
  }

  /** `+"- 5"` and `+"1 2"` are `NaN`: inner spaces are not skipped. */
  lemma ToNumberOfInnerSpace()
    ensures ToNumber("- 5") == NaN
    ensures ToNumber("1 2") == NaN
  {
    TrimUnchanged("- 5");
    assert !IsDigit("- 5"[1]);
    TrimUnchanged("1 2");
    assert !IsDigit("1 2"[1]);
  }

  /** `+"1"` is 1. */
  lemma ToNumberOfOne()
    ensures ToNumber("1") == Int(1)
  {
    TrimUnchanged("1");
  }

  /** `+" "` is 0: a blank string converts to zero, not to `NaN`. */
  lemma ToNumberOfSpace()
    ensures ToNumber(" ") == Int(0)
  {
  }

  /** `+"invalid"` is `NaN`. */
  lemma ToNumberOfWord()
    ensures ToNumber("invalid") == NaN
  {
    NonDigitEndIsNaN("invalid");
  }

  /** A string ending in a character that is neither whitespace nor a digit converts
      to `NaN`. */
  lemma NonDigitEndIsNaN(s: string)
    requires s != [] && !IsWhitespace(s[|s| - 1]) && !IsDigit(s[|s| - 1])
    ensures ToNumber(s) == NaN
  {
  }
}
