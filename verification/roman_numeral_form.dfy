/**
 * The input guard of the converter form in
 * frontend/src/features/RomanNumeral.tsx: the text field's value is read
 * with `parseInt(value, 10)` and accepted when the result is a number
 * strictly between 0 and 4000. Submitting stores the accepted number, which
 * the page then sends to the server; the button is disabled while the input
 * is not accepted or a request is in flight.
 */
module RomanNumeralForm {
  import opened Wrappers
  import opened JsParseInt
  import opened RomanService
  import opened RomanRoute

  /** `isValidInput`. */
  predicate IsValidInput(inputValue: string): (b: bool)
    ensures b <==> ParseInt(inputValue).Some? && 1 <= ParseInt(inputValue).value <= MaxNumeral
  {
    var parsed := ParseInt(inputValue);
    parsed.Some? && parsed.value > 0 && parsed.value < 4000
  }

  /** The component state the guard touches: the field's text and the number last submitted. */
  datatype FormState = FormState(inputValue: string, number: Option<int>)

  /** Every number the page has stored is one the server converts. */
  predicate NumberInRange(st: FormState) {
    st.number.None? || 1 <= st.number.value <= MaxNumeral
  }

  /**
   * `handleSubmit`: an accepted input replaces the stored number with its
   * value; any other input leaves the state as it was.
   */
  function HandleSubmit(st: FormState): (st': FormState)
    ensures st'.inputValue == st.inputValue
    ensures IsValidInput(st.inputValue) ==> st'.number == ParseInt(st.inputValue)
    ensures !IsValidInput(st.inputValue) ==> st' == st
    ensures NumberInRange(st) ==> NumberInRange(st')
  {
    var parsed := ParseInt(st.inputValue);
    if parsed.Some? && parsed.value > 0 && parsed.value < 4000 then st.(number := parsed) else st
  }

  /** The button's `isDisabled`: the input is not accepted, or a request is loading. */
  predicate ButtonDisabled(inputValue: string, isLoading: bool): (b: bool)
    ensures isLoading ==> b
    ensures !isLoading && IsValidInput(inputValue) ==> !b
    ensures !b ==> HandleSubmit(FormState(inputValue, None)).number == ParseInt(inputValue)
    ensures !b ==> ParseInt(inputValue).Some? && 1 <= ParseInt(inputValue).value <= MaxNumeral
  {
    !IsValidInput(inputValue) || isLoading
  }

  /**
   * The client guard and the server route accept the same strings: the
   * form's `0 < v < 4000` and the route's rejection of `v <= 0 || v > 3999`
   * are complements on integers.
   */
  lemma ClientAgreesWithServer(s: string)
    ensures IsValidInput(s) <==> HandleQuery(Some(s)).status == 200
  {
    OkExactlyWhenAccepted(s);
  }

  /**
   * Pressing the enabled button stores a number whose decimal spelling the
   * server converts, with status 200.
   */
  lemma EnabledSubmitIsConverted(st: FormState, isLoading: bool)
    requires !ButtonDisabled(st.inputValue, isLoading)
    ensures HandleSubmit(st).number.Some?
    ensures var n := HandleSubmit(st).number.value;
      1 <= n <= MaxNumeral
      && HandleQuery(Some(Show(n))) == Response(200, ResultBody(n, ToRoman(n)))
  {
    var n := ParseInt(st.inputValue).value;
    ConvertsQuery(n, Show(n), ToRoman(n));
  }

  /** The button is enabled exactly when nothing is loading and the server would convert the input. */
  lemma EnabledExactlyWhenServerAccepts(inputValue: string, isLoading: bool)
    ensures !ButtonDisabled(inputValue, isLoading) <==> !isLoading && HandleQuery(Some(inputValue)).status == 200
  {
    ClientAgreesWithServer(inputValue);
  }

  /** "42.75" is accepted as 42; "abc", "0", "-10" and "4000" are not. */
  lemma GuardOnTestedInputs()
    ensures IsValidInput("42.75")
    ensures !IsValidInput("abc") && !IsValidInput("0")
    ensures !IsValidInput("-10") && !IsValidInput("4000")
  {
    ParsesFraction();
    ParsesLetters();
    ParsesZero();
    ParsesMinusTen();
    ParsesFourThousand();
  }
}
