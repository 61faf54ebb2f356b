/** Adding the cleaned numbers and turning the outcome into the text to display. */
module MathOps {
  import opened Wrappers
  import opened FormData
  import opened JsNumber
  import opened Validation
  import opened Numbers

  /** `add(...args)`: the numbers are folded from the left into a running total that
      starts at 0. A sum of non-negative numbers is at least each of them. */
  function Add(args: seq<int>): (sum: int)
    ensures (forall i :: 0 <= i < |args| ==> args[i] >= 0) ==>
              sum >= 0 && forall i :: 0 <= i < |args| ==> args[i] <= sum
  {
    if args == [] then 0 else Add(args[..|args| - 1]) + args[|args| - 1]
  }

  /** Summing a concatenation sums the parts: the grouping of the fold does not matter. */
  lemma {:induction false} AddConcat(xs: seq<int>, ys: seq<int>)
    ensures Add(xs + ys) == Add(xs) + Add(ys)
    decreases |ys|
  {
    if ys != [] {
      var front := ys[..|ys| - 1];
      assert (xs + ys)[..|xs + ys| - 1] == xs + front;
      AddConcat(xs, front);
    } else {
      assert xs + ys == xs;
    }
  }

  /** The fold from the left agrees with peeling numbers off the front: `add(x, ...rest)` is
      `x + add(...rest)`. */
  lemma AddFirst(x: int, rest: seq<int>)
    ensures Add([x] + rest) == x + Add(rest)
  {
    AddConcat([x], rest);
  }

  /** `add()` and `add(...[])` are 0; `add(1, 3, 6)` and `add(1, 5, 4)` are 10. */
  lemma AddExamples()
    ensures Add([]) == 0
    ensures Add([1, 3, 6]) == 10
    ensures Add([1, 5, 4]) == 10
  {
  }

  /** `calculateResult`: the decimal text of the sum of the cleaned numbers, or the message
      of the error that cleaning threw. */
  function CalculateResult(numberInputs: seq<Option<FormEntry>>): (r: string)
    ensures Clean(numberInputs).Ok? ==> r == IntToString(Add(Clean(numberInputs).value))
    ensures Clean(numberInputs).Err? ==> r == EmptyInputMessage || r == InvalidNumberMessage
  {
    match Clean(numberInputs)
    case Ok(numbers) => IntToString(Add(numbers))
    case Err(error) => error.message
  }

  /** When cleaning succeeds the result is the text of the sum, and that text reads back as
      the sum. */
  lemma CalculateResultOfNumbers(numberInputs: seq<Option<FormEntry>>, numbers: seq<int>)
    requires Clean(numberInputs) == Ok(numbers)
    ensures CalculateResult(numberInputs) == IntToString(Add(numbers))
    ensures ToNumber(CalculateResult(numberInputs)) == Int(Add(numbers))
  {
    IntToStringRoundTrip(Add(numbers));
  }

  /** When cleaning fails the result is exactly that error's message, one of the two guard
      messages, and it does not read as a number: no partial sum leaks out. */
  lemma CalculateResultOfFailure(numberInputs: seq<Option<FormEntry>>, error: Error)
    requires Clean(numberInputs) == Err(error)
    ensures CalculateResult(numberInputs) == error.message
    ensures error.message == EmptyInputMessage || error.message == InvalidNumberMessage
    ensures ToNumber(CalculateResult(numberInputs)) == NaN
  {
    CleanFailure(numberInputs, error);
    MessagesAreNotResults();
  }

  /** The result reads as a number exactly when cleaning succeeded. */
  lemma CalculateResultIsNumberIff(numberInputs: seq<Option<FormEntry>>)
    ensures ToNumber(CalculateResult(numberInputs)).Int? <==> Clean(numberInputs).Ok?
  {
    match Clean(numberInputs)
    case Ok(numbers) => CalculateResultOfNumbers(numberInputs, numbers);
    case Err(error) => CalculateResultOfFailure(numberInputs, error);
  }

  /** With every entry absent or empty the result is "0". */
  lemma CalculateResultOfNothing(numberInputs: seq<Option<FormEntry>>)
    requires forall i :: 0 <= i < |numberInputs| ==> !IsTruthy(numberInputs[i])
    ensures CalculateResult(numberInputs) == "0"
  {
    CleanSkipsFalsy(numberInputs);
  }

  /** Typing the decimal texts of integers into the form gives the text of their sum. */
  lemma CalculateResultOfNumerals(values: seq<int>)
    ensures CalculateResult(Numerals(values)) == IntToString(Add(values))
  {
    CleanOfNumerals(values);
  }

  /** `calculateResult` never produces either sentinel that the result text treats specially. */
  lemma CalculateResultIsNoSentinel(numberInputs: seq<Option<FormEntry>>)
    ensures CalculateResult(numberInputs) != "invalid"
    ensures CalculateResult(numberInputs) != "no-calc"
  {
    match Clean(numberInputs)
    case Ok(numbers) =>
      var s := IntToString(Add(numbers));
      assert s[0] == '-' || IsDigit(s[0]);
    case Err(error) => CalculateResultOfFailure(numberInputs, error);
  }
}
