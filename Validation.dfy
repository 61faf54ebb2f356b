/** The two guards of the number form: a blank-string check and a `NaN` check. Each
    returns nothing on success and throws a plain `Error` on failure. */
module Validation {
  import opened Wrappers
  import opened FormData
  import opened JsText
  import opened JsNumber

  /** A plain JavaScript `Error`, known by its message. */
  datatype Error = Error(message: string)

  const EmptyInputMessage: string := "Invalid input - must not be empty."
  const InvalidNumberMessage: string := "Invalid number input."

  /** `validateStringNotEmpty`: a string whose trim is empty is rejected; a file passes. */
  function ValidateStringNotEmpty(value: FormEntry): (r: Outcome<Error>)
    ensures r.Fail? <==> value.Text? && IsBlank(value.text)
    ensures r.Fail? ==> r.error == Error(EmptyInputMessage)
  {
    match value
    case Text(s) => if |Trim(s)| == 0 then Fail(Error(EmptyInputMessage)) else Pass
    case File(_) => Pass
  }

  /** `validateNumber`: rejects `NaN` and nothing else. */
  function ValidateNumber(number: Number): (r: Outcome<Error>)
    ensures r.Fail? <==> number.NaN?
    ensures r.Fail? ==> r.error == Error(InvalidNumberMessage)
  {
    if number.NaN? then Fail(Error(InvalidNumberMessage)) else Pass
  }

  /** Neither message is one of the sentinels the result text recognises, and neither reads
      as a number, so neither can pass for a sum. */
  lemma MessagesAreNotResults()
    ensures EmptyInputMessage != "invalid" && EmptyInputMessage != "no-calc"
    ensures InvalidNumberMessage != "invalid" && InvalidNumberMessage != "no-calc"
    ensures ToNumber(EmptyInputMessage) == NaN
    ensures ToNumber(InvalidNumberMessage) == NaN
  {
    NonDigitEndIsNaN(EmptyInputMessage);
    NonDigitEndIsNaN(InvalidNumberMessage);
  }
}
