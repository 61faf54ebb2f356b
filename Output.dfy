/** The text shown for a calculation result. */
module Output {
  import opened JsNumber

  /** The argument of `generateResultText`: a string, a number or a boolean. */
  datatype CalculationResult = Str(text: string) | Num(number: Number) | Bool(flag: bool)

  const InvalidResultText: string := "Invalid input. You must enter valid numbers."

  /** How `'Result: ' + value` writes the value: a string as it is, an integer by `toString`,
      `NaN` as `NaN`, a boolean as `true` or `false`. */
  function ValueText(value: CalculationResult): (r: string)
    ensures value.Str? ==> r == value.text
    ensures value.Num? && value.number.Int? ==>
              (r == IntToString(value.number.value) && ToNumber(r) == value.number)
    ensures value == Num(NaN) ==> r == "NaN"
    ensures value.Bool? ==> r == (if value.flag then "true" else "false")
  {
    match value
    case Str(s) => s
    case Num(Int(n)) => IntToStringRoundTrip(n); IntToString(n)
    case Num(NaN) => "NaN"
    case Bool(b) => if b then "true" else "false"
  }

  /** `generateResultText`: the sentinel string `'invalid'` becomes the invalid-input text,
      the sentinel string `'no-calc'` becomes the empty text, and any other value is shown
      after `Result: `. */
  function GenerateResultText(calculationResult: CalculationResult): (r: string)
    ensures calculationResult == Str("invalid") ==> r == InvalidResultText
    ensures calculationResult == Str("no-calc") ==> r == ""
    ensures calculationResult != Str("invalid") ==>
              (calculationResult != Str("no-calc") ==> r == "Result: " + ValueText(calculationResult))
  {
    if calculationResult == Str("invalid") then InvalidResultText
    else if calculationResult != Str("no-calc") then "Result: " + ValueText(calculationResult)
    else ""
  }

  /** The text is empty exactly for `'no-calc'`. */
  lemma EmptyOnlyForNoCalc(calculationResult: CalculationResult)
    ensures GenerateResultText(calculationResult) == "" <==> calculationResult == Str("no-calc")
  {
  }

  /** `generateResultText(NaN)` and `generateResultText(false)` show the value's own text. */
  lemma NonNumericValueTexts()
    ensures GenerateResultText(Num(NaN)) == "Result: NaN"
    ensures GenerateResultText(Bool(false)) == "Result: false"
    ensures GenerateResultText(Bool(true)) == "Result: true"
  {
  }

  /** The text for `'invalid'` contains the word `Invalid`. */
  lemma InvalidTextMentionsInvalid()
    ensures |GenerateResultText(Str("invalid"))| >= 7
    ensures GenerateResultText(Str("invalid"))[..7] == "Invalid"
  {
    assert InvalidResultText[..7] == "Invalid" by {
      assert forall i :: 0 <= i < 7 ==> InvalidResultText[i] == "Invalid"[i];
    }
  }

  /** The text for a number ends with that number's decimal text, which reads back as the
      number. */
  lemma NumberTextContainsNumber(n: int)
    ensures GenerateResultText(Num(Int(n))) == "Result: " + IntToString(n)
    ensures ToNumber(GenerateResultText(Num(Int(n)))[|"Result: "|..]) == Int(n)
  {
    var r := GenerateResultText(Num(Int(n)));
    assert r[|"Result: "|..] == IntToString(n);
  }
}
