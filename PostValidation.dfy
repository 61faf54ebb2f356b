/** The guard of the post form, which throws a `ValidationError` with the caller's message. */
module PostValidation {
  import opened Wrappers
  import opened FormData
  import opened JsText

  /** The `ValidationError` class: a record of one message. */
  datatype ValidationError = ValidationError(message: string)

  /** `validateNotEmpty`: a file passes; a string fails, with `errorMessage` verbatim, exactly
      when it is empty or its trim is. */
  function ValidateNotEmpty(input: FormEntry, errorMessage: string): (r: Outcome<ValidationError>)
    ensures r.Fail? <==> input.Text? && IsBlank(input.text)
    ensures r.Fail? ==> r.error == ValidationError(errorMessage)
  {
    if !input.Text? then Pass
    else if input.text == "" || |Trim(input.text)| == 0 then Fail(ValidationError(errorMessage))
    else Pass
  }

  /** The outcome depends only on the trimmed string. */
  lemma ValidateNotEmptyIgnoresTrim(s: string, errorMessage: string)
    ensures ValidateNotEmpty(Text(s), errorMessage) == ValidateNotEmpty(Text(Trim(s)), errorMessage)
  {
    TrimIdempotent(s);
  }

  /** The empty string and `'  '` are both rejected, whatever the message. */
  lemma ValidateNotEmptyRejectsBlanks(errorMessage: string)
    ensures ValidateNotEmpty(Text(""), errorMessage) == Fail(ValidationError(errorMessage))
    ensures ValidateNotEmpty(Text("  "), errorMessage) == Fail(ValidationError(errorMessage))
  {
  }
}
