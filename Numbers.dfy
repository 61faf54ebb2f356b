/** Turning the raw values of the number form into the numbers to add. */
module Numbers {
  import opened Wrappers
  import opened FormData
  import opened JsText
  import opened JsNumber
  import opened Validation

  /** `transformStringToNumber`: unary `+` on the entry. A file object converts to `NaN`. */
  function TransformStringToNumber(value: FormEntry): (r: Number)
    ensures value.File? ==> r == NaN
    ensures value.Text? && IsBlank(value.text) ==> r == Int(0)
  {
    match value
    case Text(s) => ToNumber(s)
    case File(_) => NaN
  }

  /** What one truthy entry goes through inside the loop of `cleanNumbers`: the blank check,
      the conversion and the `NaN` check, in that order. It passes exactly when it is not a
      blank string and converts to a number, and then yields that number; a blank string
      fails with the empty-input error, and any other entry that converts to `NaN` fails with
      the invalid-number error. */
  function CleanEntry(value: FormEntry): (r: Result<int, Error>)
    ensures r.Ok? <==> !(value.Text? && IsBlank(value.text)) && TransformStringToNumber(value).Int?
    ensures r.Ok? ==> TransformStringToNumber(value) == Int(r.value)
    ensures value.Text? && IsBlank(value.text) ==> r == Err(Error(EmptyInputMessage))
    ensures !(value.Text? && IsBlank(value.text)) ==>
              (TransformStringToNumber(value).NaN? ==> r == Err(Error(InvalidNumberMessage)))
  {
    match ValidateStringNotEmpty(value)
    case Fail(e) => Err(e)
    case Pass =>
      var number := TransformStringToNumber(value);
      match ValidateNumber(number)
      case Fail(e) => Err(e)
      case Pass => Ok(number.value)
  }

  /** The entries the loop does not skip, in input order. */
  function Provided(inputs: seq<Option<FormEntry>>): (r: seq<FormEntry>)
    ensures |r| <= |inputs|
  {
    if inputs == [] then []
    else
      var last := inputs[|inputs| - 1];
      Provided(inputs[..|inputs| - 1]) + (if IsTruthy(last) then [last.value] else [])
  }

  /** What `cleanNumbers` returns or throws for `inputs`, one entry at a time from the
      left, as its loop goes. */
  function Clean(inputs: seq<Option<FormEntry>>): (r: Result<seq<int>, Error>)
    ensures r.Ok? ==> |r.value| <= |inputs|
    ensures r.Err? ==> r.error == Error(EmptyInputMessage) || r.error == Error(InvalidNumberMessage)
  {
    if inputs == [] then Ok([])
    else
      match Clean(inputs[..|inputs| - 1])
      case Err(e) => Err(e)
      case Ok(numbers) =>
        var last := inputs[|inputs| - 1];
        if !IsTruthy(last) then Ok(numbers)
        else
          match CleanEntry(last.value)
          case Err(e) => Err(e)
          case Ok(n) => Ok(numbers + [n])
  }

  /** `cleanNumbers`: skips absent and empty entries, validates and converts the others,
      and stops at the first entry that fails. */
  method CleanNumbers(numberInputs: seq<Option<FormEntry>>) returns (r: Result<seq<int>, Error>)
    ensures r == Clean(numberInputs)
  {
    var numbers: seq<int> := [];
    for i := 0 to |numberInputs|
      invariant Clean(numberInputs[..i]) == Ok(numbers)
    {
      var numberInput := numberInputs[i];
      assert numberInputs[..i + 1][..i] == numberInputs[..i];
      if IsTruthy(numberInput) {
        var check := ValidateStringNotEmpty(numberInput.value);
        if check.Fail? {
          CleanStopsAtFailure(numberInputs, i + 1);
          return Err(check.error);
        }
        var number := TransformStringToNumber(numberInput.value);
        check := ValidateNumber(number);
        if check.Fail? {
          CleanStopsAtFailure(numberInputs, i + 1);
          return Err(check.error);
        }
        numbers := numbers + [number.value];
      }
    }
    assert numberInputs[..|numberInputs|] == numberInputs;
    return Ok(numbers);
  }

  /** One more truthy entry that passes adds its number at the end. */
  lemma CleanAppendPassing(front: seq<Option<FormEntry>>, numbers: seq<int>, entry: Option<FormEntry>, n: int)
    requires Clean(front) == Ok(numbers)
    requires IsTruthy(entry) && CleanEntry(entry.value) == Ok(n)
    ensures Clean(front + [entry]) == Ok(numbers + [n])
  {
    assert (front + [entry])[..|front|] == front;
  }

  /** Once a prefix of the input fails, the entries after it are never looked at. */
  lemma {:induction false} CleanStopsAtFailure(inputs: seq<Option<FormEntry>>, k: nat)
    requires k <= |inputs| && Clean(inputs[..k]).Err?
    ensures Clean(inputs) == Clean(inputs[..k])
    decreases |inputs| - k
  {
    if k < |inputs| {
      var front := inputs[..|inputs| - 1];
      assert front[..k] == inputs[..k];
      CleanStopsAtFailure(front, k);
    } else {
      assert inputs[..k] == inputs;
    }
  }

  /** On success, the numbers are the conversions of the truthy entries, one for one and
      in input order. */
  lemma {:induction false} CleanSuccess(inputs: seq<Option<FormEntry>>, numbers: seq<int>)
    requires Clean(inputs) == Ok(numbers)
    ensures |numbers| == |Provided(inputs)|
    ensures forall i :: 0 <= i < |numbers| ==>
              CleanEntry(Provided(inputs)[i]) == Ok(numbers[i])
              && TransformStringToNumber(Provided(inputs)[i]) == Int(numbers[i])
  {
    if inputs != [] {
      var front := inputs[..|inputs| - 1];
      var last := inputs[|inputs| - 1];
      var previous :| Clean(front) == Ok(previous);
      CleanSuccess(front, previous);
    }
  }

  /** Every one of `values` passes the checks of `CleanEntry`. */
  predicate AllPass(values: seq<FormEntry>) {
    forall i :: 0 <= i < |values| ==> CleanEntry(values[i]).Ok?
  }

  lemma AllPassAppend(values: seq<FormEntry>, more: seq<FormEntry>)
    ensures AllPass(values + more) <==> AllPass(values) && AllPass(more)
  {
    var all := values + more;
    if AllPass(values) && AllPass(more) {
      forall i | 0 <= i < |all| ensures CleanEntry(all[i]).Ok? {
        if i >= |values| { assert all[i] == more[i - |values|]; }
      }
    }
    if AllPass(all) {
      forall i | 0 <= i < |more| ensures CleanEntry(more[i]).Ok? {
        assert all[|values| + i] == more[i];
      }
      forall i | 0 <= i < |values| ensures CleanEntry(values[i]).Ok? {
        assert all[i] == values[i];
      }
    }
  }

  /** `cleanNumbers` succeeds exactly when every truthy entry passes both guards. */
  lemma {:induction false} CleanSucceedsIff(inputs: seq<Option<FormEntry>>)
    ensures Clean(inputs).Ok? <==> AllPass(Provided(inputs))
  {
    if inputs != [] {
      var front := inputs[..|inputs| - 1];
      var last := inputs[|inputs| - 1];
      CleanSucceedsIff(front);
      if IsTruthy(last) {
        AllPassAppend(Provided(front), [last.value]);
        var single := [last.value];
        assert single[0] == last.value;
        assert AllPass(single) <==> CleanEntry(single[0]).Ok?;
      } else {
        assert Provided(inputs) == Provided(front);
      }
    }
  }

  /** On failure, the error is the one of the first truthy entry that fails, and every
      truthy entry before it passed. */
  lemma {:induction false} CleanFailure(inputs: seq<Option<FormEntry>>, e: Error)
    requires Clean(inputs) == Err(e)
    ensures exists k :: 0 <= k < |Provided(inputs)|
              && CleanEntry(Provided(inputs)[k]) == Err(e)
              && AllPass(Provided(inputs)[..k])
  {
    var front := inputs[..|inputs| - 1];
    var last := inputs[|inputs| - 1];
    var p := Provided(front);
    var q := Provided(inputs);
    if Clean(front).Err? {
      CleanFailure(front, e);
      var k :| 0 <= k < |p| && CleanEntry(p[k]) == Err(e) && AllPass(p[..k]);
      assert q[..|p|] == p;
      assert q[k] == p[k] && q[..k] == p[..k];
    } else {
      CleanSucceedsIff(front);
      assert IsTruthy(last) && q == p + [last.value];
      assert q[|p|] == last.value && q[..|p|] == p;
    }
  }

  /** Absent and empty entries contribute nothing: with no truthy entry the result is an
      empty list of numbers. */
  lemma {:induction false} CleanSkipsFalsy(inputs: seq<Option<FormEntry>>)
    requires forall i :: 0 <= i < |inputs| ==> !IsTruthy(inputs[i])
    ensures Clean(inputs) == Ok([])
  {
    if inputs != [] {
      CleanSkipsFalsy(inputs[..|inputs| - 1]);
    }
  }

  /** A truthy whitespace-only entry makes `cleanNumbers` fail, whatever surrounds it. */
  lemma CleanRejectsBlank(inputs: seq<Option<FormEntry>>, i: nat)
    requires i < |inputs| && inputs[i].Some? && inputs[i].value.Text?
    requires inputs[i].value.text != "" && IsBlank(inputs[i].value.text)
    ensures Clean(inputs).Err?
  {
    CleanSucceedsIff(inputs);
    ProvidedContains(inputs, i);
  }

  /** Every truthy entry appears among the provided ones. */
  lemma {:induction false} ProvidedContains(inputs: seq<Option<FormEntry>>, i: nat)
    requires i < |inputs| && IsTruthy(inputs[i])
    ensures exists j :: 0 <= j < |Provided(inputs)| && Provided(inputs)[j] == inputs[i].value
  {
    var front := inputs[..|inputs| - 1];
    if i < |inputs| - 1 {
      ProvidedContains(front, i);
      var j :| 0 <= j < |Provided(front)| && Provided(front)[j] == front[i].value;
      assert Provided(inputs)[j] == Provided(front)[j];
    } else {
      assert Provided(inputs)[|Provided(front)|] == inputs[i].value;
    }
  }

  /** The decimal text of an integer passes both guards and yields that integer. */
  lemma NumeralPasses(n: int)
    ensures IsTruthy(Some(Text(IntToString(n))))
    ensures CleanEntry(Text(IntToString(n))) == Ok(n)
  {
    var s := IntToString(n);
    assert !IsBlank(s) by { assert !IsWhitespace(s[0]); }
    IntToStringRoundTrip(n);
  }

  /** The form values a user types for `values`: the decimal text of each. */
  function Numerals(values: seq<int>): (r: seq<Option<FormEntry>>)
    ensures |r| == |values|
  {
    if values == [] then []
    else Numerals(values[..|values| - 1]) + [Some(Text(IntToString(values[|values| - 1])))]
  }

  /** The decimal texts of integers are cleaned into those integers. */
  lemma {:induction false} CleanOfNumerals(values: seq<int>)
    ensures Clean(Numerals(values)) == Ok(values)
  {
    if values != [] {
      var front, last := values[..|values| - 1], values[|values| - 1];
      var entry := Some(Text(IntToString(last)));
      assert Numerals(values) == Numerals(front) + [entry];
      CleanOfNumerals(front);
      assert Clean(Numerals(front) + [entry]) == Ok(front + [last]) by {
        NumeralPasses(last);
        CleanAppendPassing(Numerals(front), front, entry, last);
      }
      assert front + [last] == values;
    }
  }

  /** `cleanNumbers([' ', '2'])` throws the empty-input error. */
  lemma CleanBlankThenNumber()
    ensures Clean([Some(Text(" ")), Some(Text("2"))]) == Err(Error(EmptyInputMessage))
  {
    var inputs := [Some(Text(" ")), Some(Text("2"))];
    assert inputs[..1] == [Some(Text(" "))];
    assert [Some(Text(" "))][..0] == [];
  }
}
