# Form-input pipeline: a verified Dafny model

This project models the logic of the form examples in `testing-jest-vitest-summary`.

- **Number form.** The raw values of the form (`FormDataEntryValue | null`) go through `cleanNumbers`. Absent and empty values are skipped. A whitespace-only string throws `'Invalid input - must not be empty.'`. A value that converts to `NaN` throws `'Invalid number input.'`. The numbers that remain are added by `add`. `calculateResult` turns the sum, or the message of the error that was thrown, into a string. `generateResultText` turns that string into the text on screen.
- **Post form.** `extractPostData` reads `title` and `content` from a `FormData`. It returns nothing when either is missing or empty. It checks each with `validateNotEmpty`, title first. A failed check throws a `ValidationError` with a field-specific message.

Exceptions become values: `Result<T, E>` is a return value or a thrown error, and `Outcome<E>` is a guard that returns nothing or throws. `null` and `undefined` become `Option`. A form value is `Text(string)` or `File(name)`, because the guards test `typeof`. A JavaScript number is `Int(n)` or `NaN`: the model covers integers and `NaN`.

Modules, one per source file or concern:

- `Wrappers`: `Option`, `Result` and `Outcome`.
- `FormData`: form values, `FormData.get`, and JavaScript truthiness of a looked-up value.
- `JsText`: `String.prototype.trim` and blank strings.
- `JsNumber`: unary `+` on a string and `Number.prototype.toString`, restricted to integers, with the round trip between them.
- `Validation`: `util/validation.ts` of the number form.
- `Numbers`: `util/numbers.ts`. `cleanNumbers` is a method with a loop, proved equal to the recursive specification `Clean`. The lemmas about `Clean` state what the function promises.
- `MathOps`: `math.ts` (`add` and `calculateResult`).
- `Output`: `generateResultText`.
- `Pipeline`: how the submit handler composes `calculateResult` with `generateResultText`.
- `PostValidation`: `validateNotEmpty` and the `ValidationError` record.
- `Posts`: `extractPostData`.

`generateResultText` has a branch for the `'invalid'` sentinel, but `calculateResult` never returns it: on failure it returns the thrown error's own message. So the handler always shows `Result: ` followed by either the sum or that message, and the invalid-input text and the empty text are never shown (`Pipeline.DisplayedText`, `Pipeline.DisplayedTextIsAlwaysResult`).

The two copies of the number form (`01_basic-testing-frontend` and `basic-testing-frontend`) are modelled once. The core cites whichever copy holds each function.

## Model

| member | source | states |
|---|---|---|
| FormData.IsTruthy | 01_projects/01_basic-testing-frontend/src/util/numbers.ts:9 | `null` and the empty string are falsy; every other string and every file object is truthy |
| JsText.Trim | 01_projects/basic-testing-frontend/src/util/validation.ts:3 | `s.trim()` is empty exactly when `s` is blank. Otherwise it neither starts nor ends with whitespace, and it keeps a non-whitespace last character of `s` |
| JsText.TrimUnchanged | 01_projects/basic-testing-frontend/src/util/validation.ts:3 | a string with no whitespace at either end is unchanged by `trim` |
| JsText.TrimIdempotent | 01_projects/07_mocking-frontend-example/src/util/validation.ts:6 | trimming twice equals trimming once; a string is blank exactly when its trim is |
| JsText.TrimIsSlice | 01_projects/basic-testing-frontend/src/util/validation.ts:3 | `s.trim()` is `s[i..j]` for cut points `i <= j` with `s[..i]` and `s[j..]` blank: trimming only removes whitespace at the ends |
| JsText.TrimPadded | 01_projects/basic-testing-frontend/src/util/validation.ts:3 | conversely, a text with non-whitespace ends surrounded by any blank padding trims to exactly that text |
| JsNumber.ToNumber | 01_projects/01_basic-testing-frontend/src/util/numbers.ts:3 | unary `+` on a blank string gives 0, not `NaN`; any other string is read by `ParseSigned` after `trim` |
| JsNumber.ParseSigned | 01_projects/01_basic-testing-frontend/src/util/numbers.ts:3 | a trimmed text is a number exactly when it is a digit run, or `+` or `-` followed by one; its value is the decimal value of the digits, negated after `-` |
| JsNumber.ToNumberOfPadded | 01_projects/01_basic-testing-frontend/src/util/numbers.ts:3 | `+` reads an integer's decimal text back as that integer whatever blank padding surrounds it |
| JsNumber.IntToString | 01_projects/01_basic-testing-frontend/src/math.ts:11 | `n.toString()` is a minus sign exactly for negative `n`, then digits; it has a leading zero only as `"0"` itself and never reads `"-0"` |
| JsNumber.NatToStringUnique | 01_projects/01_basic-testing-frontend/src/math.ts:11 | any digit run without a leading zero is exactly the text `toString` writes for its value |
| JsNumber.IntToStringUnique | 01_projects/01_basic-testing-frontend/src/math.ts:11 | `toString` is canonical: a signed digit run without a leading zero or `-0` that reads as `n` is exactly `n.toString()` |
| JsNumber.ParseSignedOfIntToString | 01_projects/01_basic-testing-frontend/src/math.ts:11 | reading back the signed decimal text that `toString` writes gives the same integer |
| JsNumber.IntToStringRoundTrip | 01_projects/01_basic-testing-frontend/src/math.ts:11 | `+(n.toString())` equals `n` for every integer `n` |
| JsNumber.IntToStringInjective | 01_projects/01_basic-testing-frontend/src/math.ts:11 | different sums produce different result texts |
| JsNumber.ToNumberOfOne | 01_projects/01_basic-testing-frontend/src/util/numbers.ts:3 | `+"1"` is 1 |
| JsNumber.ToNumberOfSpace | 01_projects/01_basic-testing-frontend/src/util/numbers.ts:3 | `+" "` is 0, which is why the blank check must come before the conversion |
| JsNumber.ToNumberOfWord | 01_projects/01_basic-testing-frontend/src/util/numbers.ts:3 | `+"invalid"` is `NaN` |
| JsNumber.NonDigitEndIsNaN | 01_projects/01_basic-testing-frontend/src/util/numbers.ts:3 | a string whose last character is neither whitespace nor a digit converts to `NaN` |
| JsNumber.ToNumberOfSignedOrPadded | 01_projects/01_basic-testing-frontend/src/util/numbers.ts:3 | `+" 5"` and `+"+5"` are 5 |
| JsNumber.ToNumberOfLeadingZeros | 01_projects/01_basic-testing-frontend/src/util/numbers.ts:3 | `+"007"` is 7 and `+"-0"` is 0 |
| JsNumber.ToNumberOfInnerSpace | 01_projects/01_basic-testing-frontend/src/util/numbers.ts:3 | `+"- 5"` and `+"1 2"` are `NaN` |
| Validation.ValidateStringNotEmpty | 01_projects/basic-testing-frontend/src/util/validation.ts:1-7 | fails exactly for a blank string, with exactly `'Invalid input - must not be empty.'`. A file always passes, and success carries nothing |
| Validation.ValidateNumber | 01_projects/basic-testing-frontend/src/util/validation.ts:9-13 | fails exactly for `NaN`, with exactly `'Invalid number input.'`; success carries nothing |
| Validation.MessagesAreNotResults | 01_projects/basic-testing-frontend/src/util/validation.ts:4-11 | neither message is `'invalid'` or `'no-calc'`, and neither converts to a number |
| Numbers.TransformStringToNumber | 01_projects/01_basic-testing-frontend/src/util/numbers.ts:3 | a file converts to `NaN`; a blank string converts to 0 |
| Numbers.CleanEntry | 01_projects/01_basic-testing-frontend/src/util/numbers.ts:9-13 | a truthy value passes exactly when it is not a blank string and does not convert to `NaN`, and yields its conversion. A blank string fails with the empty-input error; any other `NaN` fails with the invalid-number error |
| Numbers.Clean | 01_projects/01_basic-testing-frontend/src/util/numbers.ts:5-17 | on success there are at most as many numbers as values; a failure carries exactly one of the two guard errors |
| Numbers.CleanNumbers | 01_projects/01_basic-testing-frontend/src/util/numbers.ts:5-17 | the loop returns or throws exactly what the left-to-right specification `Clean` gives |
| Numbers.CleanAppendPassing | 01_projects/01_basic-testing-frontend/src/util/numbers.ts:11-13 | one more passing truthy value pushes its number at the end |
| Numbers.CleanStopsAtFailure | 01_projects/01_basic-testing-frontend/src/util/numbers.ts:8-15 | once a prefix throws, later values are never examined and the same error is thrown |
| Numbers.CleanSuccess | 01_projects/01_basic-testing-frontend/src/util/numbers.ts:8-16 | on success there is one number per truthy value, in input order, each the conversion of its value and none `NaN` |
| Numbers.CleanSucceedsIff | 01_projects/01_basic-testing-frontend/src/util/numbers.ts:8-15 | `cleanNumbers` succeeds exactly when every truthy value passes both guards |
| Numbers.CleanFailure | 01_projects/01_basic-testing-frontend/src/util/numbers.ts:8-15 | on failure the error is that of the first truthy value that fails, and all truthy values before it passed |
| Numbers.CleanSkipsFalsy | 01_projects/01_basic-testing-frontend/src/util/numbers.ts:9 | absent and empty values are skipped; if all values are like that, the result is the empty list |
| Numbers.CleanRejectsBlank | 01_projects/01_basic-testing-frontend/src/util/numbers.ts:10 | a whitespace-only value anywhere in the input makes `cleanNumbers` throw |
| Numbers.NumeralPasses | 01_projects/01_basic-testing-frontend/src/util/numbers.ts:9-13 | the decimal text of an integer is truthy, passes both guards and yields that integer |
| Numbers.CleanOfNumerals | 01_projects/01_basic-testing-frontend/src/util/numbers.ts:8-16 | the decimal texts of a list of integers are cleaned into exactly that list |
| Numbers.CleanBlankThenNumber | 01_projects/01_basic-testing-frontend/src/util/numbers.ts:8-12 | `[' ', '2']` throws the empty-input error |
| MathOps.Add | 01_projects/01_basic-testing-frontend/src/math.ts:3-5 | the fold from 0 of non-negative numbers is non-negative and at least each of them |
| MathOps.AddConcat | 01_projects/01_basic-testing-frontend/src/math.ts:4 | the sum of a concatenation is the sum of the parts |
| MathOps.AddFirst | 01_projects/01_basic-testing-frontend/src/math.ts:4 | the left fold from 0 equals the first number plus the sum of the rest |
| MathOps.AddExamples | 01_projects/01_basic-testing-frontend/src/math.ts:3-5 | `add()` is 0; `add(1, 3, 6)` and `add(1, 5, 4)` are 10 |
| MathOps.CalculateResult | 01_projects/01_basic-testing-frontend/src/math.ts:7-17 | when cleaning succeeds the result is the decimal text of the sum; when it throws, the result is one of the two guard messages |
| MathOps.CalculateResultOfNumbers | 01_projects/01_basic-testing-frontend/src/math.ts:10-11 | when cleaning succeeds, the result is the decimal text of the sum, and it converts back to the sum |
| MathOps.CalculateResultOfFailure | 01_projects/01_basic-testing-frontend/src/math.ts:12-14 | when cleaning throws, the result is exactly the error's message. That message is one of the two guard messages and does not convert to a number |
| MathOps.CalculateResultIsNumberIff | 01_projects/01_basic-testing-frontend/src/math.ts:9-14 | the result converts to a number exactly when cleaning succeeded: no partial sum is ever returned |
| MathOps.CalculateResultOfNothing | 01_projects/01_basic-testing-frontend/src/math.ts:10-11 | with every value absent or empty, the result is `"0"` |
| MathOps.CalculateResultOfNumerals | 01_projects/01_basic-testing-frontend/src/math.ts:7-17 | entering the decimal texts of integers yields the text of their sum |
| MathOps.CalculateResultIsNoSentinel | 01_projects/01_basic-testing-frontend/src/math.ts:9-14 | the result is never `'invalid'` or `'no-calc'` |
| Output.ValueText | 01_projects/basic-testing-frontend/src/output.ts:7 | a string is written as it is; an integer as its `toString` text, which converts back to it; `NaN` as `NaN`; a boolean as `true` or `false` |
| Output.GenerateResultText | 01_projects/basic-testing-frontend/src/output.ts:1-11 | `'invalid'` gives the invalid-input text and `'no-calc'` gives `""`. Every other string, number or boolean gives `'Result: '` followed by its text |
| Output.EmptyOnlyForNoCalc | 01_projects/basic-testing-frontend/src/output.ts:2-10 | the text is empty exactly for `'no-calc'` |
| Output.NonNumericValueTexts | 01_projects/basic-testing-frontend/src/output.ts:7 | `NaN`, `false` and `true` are shown as `Result: NaN`, `Result: false` and `Result: true` |
| Output.InvalidTextMentionsInvalid | 01_projects/basic-testing-frontend/src/output.ts:4-5 | the text for `'invalid'` starts with `Invalid` |
| Output.NumberTextContainsNumber | 01_projects/basic-testing-frontend/src/output.ts:7 | the text for an integer is `Result: ` followed by its decimal text, and that text converts back to the integer |
| Pipeline.DisplayedText | 01_projects/01_basic-testing-frontend/src/main.ts:13-14 | the handler's text is always `Result: ` followed by `calculateResult`'s string, because that string is never a sentinel |
| Pipeline.DisplayedTextIsAlwaysResult | 01_projects/01_basic-testing-frontend/src/main.ts:13-14 | the displayed text is never the invalid-input text and never empty |
| Pipeline.DisplayedTextOfFailure | 01_projects/01_basic-testing-frontend/src/main.ts:13-14 | on failure, the display shows `Result: ` followed by one of the two guard messages |
| Pipeline.DisplayedTextOfNumerals | 01_projects/01_basic-testing-frontend/src/main.ts:13-14 | entering integers displays `Result: ` and the text of their sum |
| PostValidation.ValidateNotEmpty | 01_projects/07_mocking-frontend-example/src/util/validation.ts:3-9 | a file passes. A string fails exactly when it is empty or blank, with a `ValidationError` carrying the caller's message verbatim |
| PostValidation.ValidateNotEmptyIgnoresTrim | 01_projects/07_mocking-frontend-example/src/util/validation.ts:6 | validating `s` and validating `trim(s)` give the same outcome |
| PostValidation.ValidateNotEmptyRejectsBlanks | 01_projects/07_mocking-frontend-example/src/util/validation.ts:6-8 | `""` and `"  "` are rejected with the given message |
| Posts.ExtractPostData | 01_projects/07_mocking-frontend-example/src/posts/posts.ts:9-19 | returns nothing exactly when title or content is missing or empty. A blank title fails with the title message, even if the content is blank too. A valid title with blank content fails with the content message. When both are present, non-empty and not blank, the result is exactly both values, unchanged |
| Posts.ExtractFooBar | 01_projects/07_mocking-frontend-example/src/posts/posts.ts:18 | `{title: 'Foo', content: 'Bar'}` is extracted as `{title: 'Foo', content: 'Bar'}` |
| FormData.Get | 01_projects/07_mocking-frontend-example/src/posts/posts.ts:10-11 | `form.get(name)` is absent exactly when no pair has that name; otherwise it is the value of the first such pair |

## Left out

- Network requests. `savePost` and `sendDataRequest` send the post over HTTP, and `savePost` stamps it with the wall clock. `http.ts` is not part of this model, and the `HttpError` record is only used there.
- DOM glue: `outputResult`, `showError`, `getFormInputs` and the submit handlers. They read forms from and write text into the document. The handler of the first number form is modelled only as the composition in `Pipeline`. The second handler inlines the same steps.
- File I/O (`writeData`), the async token example, the `User` class and all test files.
- ToNumber: it accepts only an optional sign and decimal digits after trimming. JavaScript's `+value` also accepts fractions, exponents, hexadecimal, binary and octal literals, and `Infinity`. A value such as `"1.5"` converts to `NaN` here but to 1.5 in JavaScript.
- MathOps.Add: integers are unbounded. The source adds IEEE-754 doubles, so rounding and loss of precision above 2^53 are not modelled.
- IntToString: it writes plain decimal digits. `Number.prototype.toString` switches to exponent notation from 10^21, which is not modelled.
- JsText.IsWhitespace: it lists ECMAScript's WhiteSpace and LineTerminator characters as fixed code points. It reads no Unicode tables.
- Numbers.CleanNumbers: the source's parameter type is `string[]`, but its caller passes `FormData.get` results. The model therefore accepts `null` values and file objects too. A file is truthy, passes the blank check and converts to `NaN`.
- Numbers.CleanNumbers: JavaScript exceptions are modelled as `Err` results. The early exit by `throw` is a `return` of that result.
- Output.ValueText: a number argument is an integer or `NaN`. Fractions, `Infinity` and `-0`, and the way `toString` writes them, are not modelled.
