/** The submit handler of the number form: `generateResultText(calculateResult(inputs))`. */
module Pipeline {
  import opened Wrappers
  import opened FormData
  import opened JsNumber
  import opened Validation
  import opened Numbers
  import opened MathOps
  import opened Output

  /** The text the handler displays for the entered values. Since `calculateResult` never
      returns a sentinel, it is always `Result: ` followed by that function's string. */
  function DisplayedText(numberInputs: seq<Option<FormEntry>>): (r: string)
    ensures r == "Result: " + CalculateResult(numberInputs)
  {
    CalculateResultIsNoSentinel(numberInputs);
    GenerateResultText(Str(CalculateResult(numberInputs)))
  }

  /** Because `calculateResult` reports failures by their own messages rather than by the
      `'invalid'` sentinel, the displayed text always starts with `Result: `: the sum's text
      on success, and the guard's message on failure. The invalid-input text and the empty
      text are never shown. */
  lemma DisplayedTextIsAlwaysResult(numberInputs: seq<Option<FormEntry>>)
    ensures DisplayedText(numberInputs) != InvalidResultText
    ensures DisplayedText(numberInputs) != ""
  {
    assert DisplayedText(numberInputs)[0] == 'R' != InvalidResultText[0];
  }

  /** On failure the displayed text is `Result: ` followed by a guard's message. */
  lemma DisplayedTextOfFailure(numberInputs: seq<Option<FormEntry>>, error: Error)
    requires Clean(numberInputs) == Err(error)
    ensures DisplayedText(numberInputs) == "Result: " + EmptyInputMessage
         || DisplayedText(numberInputs) == "Result: " + InvalidNumberMessage
  {
    CalculateResultOfFailure(numberInputs, error);
  }

  /** Entering `values` as decimal texts displays `Result: ` and the text of their sum. */
  lemma DisplayedTextOfNumerals(values: seq<int>)
    ensures DisplayedText(Numerals(values)) == "Result: " + IntToString(Add(values))
  {
    CalculateResultOfNumerals(values);
  }
}
