/**
 * The new-poll form (client/src/NewPoll.tsx): the field edits and the checks
 * doStartClick makes before it sends the poll to /api/add.
 */
module NewPoll {
  import opened Wrappers
  import opened JsString

  /** The form's state: the three text fields and the error shown under them. */
  datatype NewPollState = NewPollState(name: string, minutes: string, options: string, error: string)

  /** The state the form starts in: one hour, empty fields, no error. */
  const Initial: NewPollState := NewPollState("", "60", "", "")

  /** The three text fields of the form. */
  datatype Field = Name | Minutes | Options

  /** doNameChange, doMinutesChange, doOptionsChange: the field takes the text and the error clears. */
  function Edit(s: NewPollState, field: Field, text: string): (r: NewPollState)
    ensures r.error == ""
    ensures r.name == (if field == Name then text else s.name)
    ensures r.minutes == (if field == Minutes then text else s.minutes)
    ensures r.options == (if field == Options then text else s.options)
  {
    match field
    case Name => s.(name := text, error := "")
    case Minutes => s.(minutes := text, error := "")
    case Options => s.(options := text, error := "")
  }

  /** The body doStartClick sends to /api/add. */
  datatype AddArgs = AddArgs(name: string, minutes: real, options: seq<string>)

  const MissingField: string := "a required field is missing."
  const MinutesNotPositiveInteger: string := "minutes is not a positive integer"
  const TooFewOptions: string := "poll must contain at least two options"

  /** A number with no fractional part that is at least one. */
  predicate IsPositiveWhole(m: real)
  {
    1.0 <= m && m.Floor as real == m
  }

  /**
   * doStartClick: the error the form shows, or the body it sends.
   * `parsedMinutes` is what parseFloat makes of the minutes text, None for NaN.
   */
  function StartClick(s: NewPollState, parsedMinutes: Option<real>): (r: Result<AddArgs, string>)
    ensures r == Failure(MissingField) <==> Blank(s.name) || |s.options| == 0
    ensures r == Failure(MinutesNotPositiveInteger) <==>
      !Blank(s.name) && |s.options| != 0 && (parsedMinutes.None? || !IsPositiveWhole(parsedMinutes.value))
    ensures r == Failure(TooFewOptions) <==>
      !Blank(s.name) && |s.options| != 0 && parsedMinutes.Some? && IsPositiveWhole(parsedMinutes.value)
      && '\n' !in s.options
    ensures r.Success? <==>
      !Blank(s.name) && parsedMinutes.Some? && IsPositiveWhole(parsedMinutes.value) && '\n' in s.options
    ensures r.Success? ==>
      && r.value.name == s.name
      && r.value.minutes == parsedMinutes.value
      && |r.value.options| == Count(s.options, '\n') + 1 >= 2
      && Join(r.value.options, '\n') == s.options
      && (forall i :: 0 <= i < |r.value.options| ==> '\n' !in r.value.options[i])
  {
    TrimEmptyIffBlank(s.name);
    if |Trim(s.name)| == 0 || |s.options| == 0 then Failure(MissingField)
    else if parsedMinutes.None? || parsedMinutes.value < 1.0
         || parsedMinutes.value.Floor as real != parsedMinutes.value then
      Failure(MinutesNotPositiveInteger)
    else
      var options := Split(s.options, '\n');
      if |options| < 2 then Failure(TooFewOptions)
      else
        JoinSplit(s.options, '\n');
        Success(AddArgs(s.name, parsedMinutes.value, options))
  }

  /** Any text with a newline splits into at least two options, the empty lines among them. */
  lemma EmptyLinesKept()
    ensures Split("a\n\nb", '\n') == ["a", "", "b"]
    ensures Split("\n", '\n') == ["", ""]
  {
    assert "a\n\nb"[1..] == "\n\nb" && "\n\nb"[1..] == "\nb" && "\nb"[1..] == "b" && "b"[1..] == "";
    assert Split("", '\n') == [""];
    assert "b"[0] == 'b' && ['b'] + "" == "b";
    assert Split("b", '\n') == ["b"];
    assert Split("\nb", '\n') == ["", "b"];
    assert Split("\n\nb", '\n') == ["", "", "b"];
    assert "a\n\nb"[0] == 'a' && ['a'] + "" == "a";
    assert "\n"[1..] == "";
  }
}
