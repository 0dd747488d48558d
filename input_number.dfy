/** The number input widget: the answer-type table, the examples shown to the
    learner, and the mapping from the answer checker's verdict to a score. */
module InputNumber {
  import opened Common

  /** The keys of `answerTypes`. */
  datatype AnswerType =
    | NumberType | DecimalType | IntegerType | RationalType
    | ImproperType | MixedType | PercentType | PiType

  /** The answer forms an answer type lists. */
  datatype Form = IntegerForm | DecimalForm | ProperForm | ImproperForm | MixedForm | PercentForm | PiForm

  /** The key under which each answer type is stored in the rubric. */
  function AnswerTypeKey(t: AnswerType): string {
    match t
    case NumberType => "number"
    case DecimalType => "decimal"
    case IntegerType => "integer"
    case RationalType => "rational"
    case ImproperType => "improper"
    case MixedType => "mixed"
    case PercentType => "percent"
    case PiType => "pi"
  }

  /** `answerTypes[key]`: the entry for a key, if the table has one. */
  function AnswerTypeNamed(key: string): (r: Option<AnswerType>)
    ensures r.Some? ==> AnswerTypeKey(r.value) == key
  {
    if key == "number" then Some(NumberType)
    else if key == "decimal" then Some(DecimalType)
    else if key == "integer" then Some(IntegerType)
    else if key == "rational" then Some(RationalType)
    else if key == "improper" then Some(ImproperType)
    else if key == "mixed" then Some(MixedType)
    else if key == "percent" then Some(PercentType)
    else if key == "pi" then Some(PiType)
    else None
  }

  /** Every answer type is found again under its own key. */
  lemma AnswerTypeKeyRoundTrip(t: AnswerType)
    ensures AnswerTypeNamed(AnswerTypeKey(t)) == Some(t)
  {
    match t
    case NumberType =>
    case DecimalType => assert AnswerTypeKey(t) != "number";
    case IntegerType => assert AnswerTypeKey(t) !in {"number", "decimal"};
    case RationalType => assert AnswerTypeKey(t) !in {"number", "decimal", "integer"};
    case ImproperType => assert AnswerTypeKey(t) !in {"number", "decimal", "integer", "rational"};
    case MixedType => assert AnswerTypeKey(t) !in {"number", "decimal", "integer", "rational", "improper"};
    case PercentType =>
      assert AnswerTypeKey(t) !in {"number", "decimal", "integer", "rational", "improper", "mixed"};
    case PiType =>
      assert AnswerTypeKey(t) !in {"number", "decimal", "integer", "rational", "improper", "mixed", "percent"};
  }

  /** The name an answer type is shown under. */
  function DisplayName(t: AnswerType): string {
    match t
    case NumberType => "Numbers"
    case DecimalType => "Decimals"
    case IntegerType => "Integers"
    case RationalType => "Fractions and mixed numbers"
    case ImproperType => "Improper numbers (no mixed)"
    case MixedType => "Mixed numbers (no improper)"
    case PercentType => "Numbers or percents"
    case PiType => "Numbers with pi"
  }

  /** The forms an answer type accepts, in table order (the comma-separated
      `forms` string, split): at least one, none twice, percents only for
      "Numbers or percents" and pi only on its own. */
  function Forms(t: AnswerType): (r: seq<Form>)
    ensures |r| >= 1 && NoDuplicates(r)
    ensures PercentForm in r <==> t == PercentType
    ensures PiForm in r ==> r == [PiForm]
  {
    match t
    case NumberType => [IntegerForm, DecimalForm, ProperForm, ImproperForm, MixedForm]
    case DecimalType => [DecimalForm]
    case IntegerType => [IntegerForm]
    case RationalType => [IntegerForm, ProperForm, ImproperForm, MixedForm]
    case ImproperType => [IntegerForm, ProperForm, ImproperForm]
    case MixedType => [IntegerForm, ProperForm, MixedForm]
    case PercentType => [IntegerForm, DecimalForm, ProperForm, ImproperForm, MixedForm, PercentForm]
    case PiType => [PiForm]
  }

  /** The table's shape: "Numbers" accepts every form but percents and pi,
      "Numbers or percents" is exactly "Numbers" plus percents, and each
      narrower type accepts a subset of "Numbers". */
  lemma FormsNest(t: AnswerType)
    ensures Forms(PercentType) == Forms(NumberType) + [PercentForm]
    ensures t != PercentType && t != PiType ==> forall f :: f in Forms(t) ==> f in Forms(NumberType)
    ensures forall f :: f in Forms(NumberType) <==> f != PercentForm && f != PiForm
  {
  }

  /** Whether simplifying the fraction is optional (`simplify === "optional"`). */
  predicate OptionalSimplify(simplify: Option<string>)
  {
    simplify == Some("optional")
  }

  /** `formExamples[form](options)`: the proper and improper examples ask for a
      simplified fraction unless simplifying is optional. */
  function FormExample(f: Form, simplify: Option<string>): (r: string)
    ensures |r| > 0
  {
    match f
    case IntegerForm => "an integer, like $6$"
    case ProperForm =>
      if OptionalSimplify(simplify) then "a *proper* fraction, like $1/2$ or $6/10$"
      else "a *simplified proper* fraction, like $3/5$"
    case ImproperForm =>
      if OptionalSimplify(simplify) then "an *improper* fraction, like $10/7$ or $14/8$"
      else "a *simplified improper* fraction, like $7/4$"
    case MixedForm => "a mixed number, like $1\\ 3/4$"
    case DecimalForm => "an *exact* decimal, like $0.75$"
    case PercentForm => "a percent, like $12.34\\%$"
    case PiForm => "a multiple of pi, like $12\\ \\text{pi}$ or $2/3\\ \\text{pi}$"
  }

  /** Only the fraction examples depend on the simplify option, and they
      change exactly when simplifying becomes optional or stops being so. */
  lemma FormExampleSimplify(f: Form, s1: Option<string>, s2: Option<string>)
    ensures !(f.ProperForm? || f.ImproperForm?) ==> FormExample(f, s1) == FormExample(f, s2)
    ensures f.ProperForm? || f.ImproperForm? ==>
              (FormExample(f, s1) == FormExample(f, s2) <==> (OptionalSimplify(s1) <==> OptionalSimplify(s2)))
  {
    if (f.ProperForm? || f.ImproperForm?) && OptionalSimplify(s1) && !OptionalSimplify(s2) {
      FractionWordingDiffers(f, s1, s2);
    } else if (f.ProperForm? || f.ImproperForm?) && OptionalSimplify(s2) && !OptionalSimplify(s1) {
      FractionWordingDiffers(f, s2, s1);
    }
  }

  lemma FractionWordingDiffers(f: Form, s1: Option<string>, s2: Option<string>)
    requires f.ProperForm? || f.ImproperForm?
    requires OptionalSimplify(s1) && !OptionalSimplify(s2)
    ensures |FormExample(f, s1)| != |FormExample(f, s2)|
  {
  }

  const ExamplesHeader := "**Your answer should be** "

  /** One example per form, in the order given. */
  function FormExamples(forms: seq<Form>, simplify: Option<string>): (r: seq<string>)
    ensures |r| == |forms|
    ensures forall i :: 0 <= i < |forms| ==> r[i] == FormExample(forms[i], simplify)
  {
    seq(|forms|, i requires 0 <= i < |forms| => FormExample(forms[i], simplify))
  }

  /** `examples()`: the header, then one example per form of the answer type,
      in table order. */
  function Examples(t: AnswerType, simplify: Option<string>): (r: seq<string>)
    ensures |r| == |Forms(t)| + 1 && r[0] == ExamplesHeader
    ensures forall i :: 0 <= i < |Forms(t)| ==> r[i + 1] == FormExample(Forms(t)[i], simplify)
  {
    var forms := Forms(t);
    [ExamplesHeader] + FormExamples(forms, simplify)
  }

  /** `shouldShowExamples()`: every answer type but plain numbers explains its
      forms, except in a static render: so examples are shown for every known
      answer type but plain numbers whenever the render is not static. */
  function ShouldShowExamples(answerType: string, staticRender: bool): (r: bool)
    ensures answerType == "number" || staticRender ==> !r
    ensures !staticRender && AnswerTypeNamed(answerType).Some? && AnswerTypeNamed(answerType).value != NumberType ==> r
  {
    answerType != "number" && !staticRender
  }

  /** Examples are shown only for answer types narrower or wider than plain
      numbers, and then list the forms that set them apart. */
  lemma ShownExamplesDiffer(key: string, staticRender: bool, simplify: Option<string>)
    requires ShouldShowExamples(key, staticRender) && AnswerTypeNamed(key).Some?
    ensures Forms(AnswerTypeNamed(key).value) != Forms(NumberType)
    ensures Examples(AnswerTypeNamed(key).value, simplify) != Examples(NumberType, simplify)
  {
    var t := AnswerTypeNamed(key).value;
    assert |Forms(t)| != |Forms(NumberType)|;
    assert |Examples(t, simplify)| != |Examples(NumberType, simplify)|;
  }

  /** `getInputPaths()`: the widget is itself its only input, at the empty
      path. */
  function GetInputPaths(): (r: seq<seq<string>>)
    ensures |r| == 1 && r[0] == []
  {
    [[]]
  }

  /** The widget's props as far as grading sees them. */
  datatype Props = Props(currentValue: string, answerType: string, simplify: Option<string>, staticRender: bool)

  /** `getUserInputFromProps`: the user input is the current value alone. */
  function GetUserInputFromProps(props: Props): (r: string)
    ensures r == props.currentValue
  {
    props.currentValue
  }

  /** What the (external) answer checker reports for one input. */
  datatype CheckResult = CheckResult(empty: bool, correct: bool, message: Option<string>)

  /** The options the answer checker is built with. */
  datatype CheckerOptions = CheckerOptions(simplify: Option<string>, inexact: Value, maxError: Value, forms: seq<Form>)

  /** The external checker: built from the expected answer as a string and the
      options, then applied to the learner's input. */
  type Checker = (string, CheckerOptions, string) -> CheckResult

  /** The value `onInputError` returns, when the API options supply it. */
  type InputErrorHandler = (string, Option<string>) -> Value

  /** The grading rubric; `validate` fills in a missing answer type. */
  class Rubric {
    var answerType: Option<string>
    const value: Value
    const simplify: Option<string>
    const inexact: Value
    const maxError: Value

    constructor (answerType: Option<string>, value: Value, simplify: Option<string>, inexact: Value, maxError: Value)
      ensures this.answerType == answerType && this.value == value && this.simplify == simplify
      ensures this.inexact == inexact && this.maxError == maxError
    {
      this.answerType := answerType;
      this.value := value;
      this.simplify := simplify;
      this.inexact := inexact;
      this.maxError := maxError;
    }
  }

  /** What `onInputError?.(...)` evaluates to: `undefined` when there is no
      handler. */
  function InputErrorResult(onInputError: Option<InputErrorHandler>, currentValue: string, message: Option<string>): Value {
    if onInputError.Some? then onInputError.value(currentValue, message) else Undefined
  }

  /** The score for the checker's verdict: an empty answer is invalid, with the
      checker's message unless the error handler returned exactly `false`; any
      other answer is worth one point if correct and none otherwise, with the
      checker's message. */
  function ScoreOf(result: CheckResult, handlerResult: Value): (s: Score)
    ensures s.Invalid? <==> result.empty
    ensures result.empty ==> s.message == if handlerResult == Bool(false) then None else result.message
    ensures !result.empty ==>
              s.Points? && s.total == 1 && s.earned <= 1 && (s.earned == 1 <==> result.correct) &&
              s.message == result.message
  {
    if result.empty then Invalid(if handlerResult == Bool(false) then None else result.message)
    else Points(if result.correct then 1 else 0, 1, result.message)
  }

  /** `InputNumber.validate` once the answer type is settled: an answer type
      the table lacks makes the lookup of its forms fail; otherwise the checker
      is built from the rubric's value as a string and the type's forms, and
      applied to the parsed input. */
  function Grade(currentValue: string, answerType: string, value: Value, simplify: Option<string>,
                 inexact: Value, maxError: Value, checker: Checker, parseTex: string -> string,
                 onInputError: Option<InputErrorHandler>): (r: Result<Score, string>)
    ensures r.Err? <==> AnswerTypeNamed(answerType).None?
    ensures r.Ok? ==>
              var options := CheckerOptions(simplify, if Truthy(inexact) then inexact else Undefined, maxError,
                                            Forms(AnswerTypeNamed(answerType).value));
              var result := checker(ToString(value), options, parseTex(currentValue));
              r.value == ScoreOf(result, InputErrorResult(onInputError, currentValue, result.message))
  {
    match AnswerTypeNamed(answerType)
    case None => Err("TypeError: answerTypes[rubric.answerType] is undefined")
    case Some(t) =>
      var options := CheckerOptions(simplify, if Truthy(inexact) then inexact else Undefined, maxError, Forms(t));
      var result := checker(ToString(value), options, parseTex(currentValue));
      Ok(ScoreOf(result, InputErrorResult(onInputError, currentValue, result.message)))
  }

  /** `InputNumber.validate(state, rubric, onInputError)`: a missing answer type
      is set to "number" in the rubric itself, then the input is graded. */
  method Validate(currentValue: string, rubric: Rubric, checker: Checker, parseTex: string -> string,
                  onInputError: Option<InputErrorHandler>) returns (r: Result<Score, string>)
    modifies rubric`answerType
    ensures old(rubric.answerType).None? ==> rubric.answerType == Some("number")
    ensures old(rubric.answerType).Some? ==> rubric.answerType == old(rubric.answerType)
    ensures r == Grade(currentValue, rubric.answerType.value, rubric.value, rubric.simplify, rubric.inexact,
                       rubric.maxError, checker, parseTex, onInputError)
  {
    if rubric.answerType.None? {
      rubric.answerType := Some("number");
    }
    r := Grade(currentValue, rubric.answerType.value, rubric.value, rubric.simplify, rubric.inexact,
               rubric.maxError, checker, parseTex, onInputError);
  }

  /** `simpleValidate(rubric, onInputError)`: validates the widget's own input;
      a missing handler acts as one returning `undefined`, so the checker's
      message is kept. */
  method SimpleValidate(props: Props, rubric: Rubric, checker: Checker, parseTex: string -> string,
                        onInputError: Option<InputErrorHandler>) returns (r: Result<Score, string>)
    modifies rubric`answerType
    ensures rubric.answerType == if old(rubric.answerType).None? then Some("number") else old(rubric.answerType)
    ensures r == Grade(GetUserInputFromProps(props), rubric.answerType.value, rubric.value, rubric.simplify,
                       rubric.inexact, rubric.maxError, checker, parseTex, onInputError)
  {
    r := Validate(GetUserInputFromProps(props), rubric, checker, parseTex, onInputError);
  }

  /** Without an error handler an invalid answer always carries the checker's
      message. */
  lemma NoHandlerKeepsMessage(result: CheckResult, currentValue: string)
    requires result.empty
    ensures ScoreOf(result, InputErrorResult(None, currentValue, result.message)) == Invalid(result.message)
  {
  }

  /** `getOneCorrectAnswerFromRubric`: nothing when the rubric has no value;
      otherwise the value as a string, followed by " ± " and the allowed error
      exactly when the answer is inexact and an error is given. */
  function GetOneCorrectAnswerFromRubric(value: Value, inexact: Value, maxError: Value): (r: Option<string>)
    ensures r.None? <==> value.Null? || value.Undefined?
    ensures r.Some? ==> IsPrefix(ToString(value), r.value)
    ensures r.Some? ==> (r.value == ToString(value) <==> !(Truthy(inexact) && Truthy(maxError)))
    ensures r.Some? && Truthy(inexact) && Truthy(maxError) ==>
              r.value[|ToString(value)|..] == " \U{B1} " + ToString(maxError)
  {
    if value.Null? || value.Undefined? then None
    else
      var answer := ToString(value);
      if Truthy(inexact) && Truthy(maxError) then Some(answer + " \U{B1} " + ToString(maxError))
      else Some(answer)
  }
}
