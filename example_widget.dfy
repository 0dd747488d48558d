/** The example widget, the template for new widgets: a text answer graded by
    exact string equality. */
module ExampleWidget {
  import opened Common

  const IncompleteMessage := "It looks like you haven't answered all of the question yet."

  /** `ExampleWidget.validate(value, rubric)`: an empty answer is not gradable
      yet; otherwise one point out of one exactly when the answer is the
      rubric's `correct` string (strict equality, so a `correct` that is not a
      string matches nothing), never with a message. */
  function Validate(value: string, correct: Value): (r: Score)
    ensures r.Invalid? <==> value == ""
    ensures r.Invalid? ==> r.message == Some(IncompleteMessage)
    ensures r.Points? ==> r.total == 1 && r.message.None? && r.earned <= 1
    ensures r.Points? ==> (r.earned == 1 <==> correct == Str(value))
  {
    if value == "" then Invalid(Some(IncompleteMessage))
    else if correct == Str(value) then Points(1, 1, None)
    else Points(0, 1, None)
  }

  /** The widget's props: the text typed so far. */
  datatype Props = Props(value: string)

  /** `getUserInput()`: the `value` prop. */
  function GetUserInput(props: Props): (r: string)
    ensures r == props.value
  {
    props.value
  }

  /** `simpleValidate(rubric)`: the widget's own input, graded against the
      rubric. */
  function SimpleValidate(props: Props, correct: Value): (r: Score)
    ensures r == Validate(GetUserInput(props), correct)
  {
    Validate(props.value, correct)
  }

  /** A widget holding the correct answer scores full marks, and only an empty
      one is ungradable. */
  lemma CorrectAnswerScoresFull(props: Props)
    requires props.value != ""
    ensures SimpleValidate(props, Str(props.value)) == Points(1, 1, None)
    ensures forall other :: other != Str(props.value) ==> SimpleValidate(props, other) == Points(0, 1, None)
  {
  }
}
