/** The blur input: a text input that keeps what is typed to itself and reports
    it to its owner only when it loses focus. */
module BlurInput {

  /** The input's local value and the values passed to the owner's `onChange`,
      oldest first. */
  datatype State = State(value: string, reported: seq<string>)

  /** What can happen to the input: a keystroke that leaves the given text,
      loss of focus, or new props from the owner. */
  datatype Event = Typed(text: string) | Blurred | NewProps(propsValue: string)

  /** One event: typing changes only the local value; blurring reports the
      text in the input, which is the rendered local value, and changes nothing
      else; new props overwrite the local value. */
  function Step(s: State, e: Event): (r: State)
    ensures e.Typed? ==> r == State(e.text, s.reported)
    ensures e.Blurred? ==> r == State(s.value, s.reported + [s.value])
    ensures e.NewProps? ==> r == State(e.propsValue, s.reported)
  {
    match e
    case Typed(text) => State(text, s.reported)
    case Blurred => State(s.value, s.reported + [s.value])
    case NewProps(v) => State(v, s.reported)
  }

  /** A run of events, in order. */
  function Run(s: State, events: seq<Event>): State
    decreases |events|
  {
    if events == [] then s else Run(Step(s, events[0]), events[1..])
  }

  /** The number of times focus was lost. */
  function Blurs(events: seq<Event>): nat {
    if events == [] then 0 else (if events[0].Blurred? then 1 else 0) + Blurs(events[1..])
  }

  /** The owner hears from the input exactly once per loss of focus, and what
      it heard before stays as it was. */
  lemma {:induction false} OneReportPerBlur(s: State, events: seq<Event>)
    ensures |Run(s, events).reported| == |s.reported| + Blurs(events)
    ensures Run(s, events).reported[..|s.reported|] == s.reported
    decreases |events|
  {
    if events != [] {
      OneReportPerBlur(Step(s, events[0]), events[1..]);
    }
  }

  /** However much is typed, the owner hears nothing until focus is lost, and
      the input shows the last text typed. */
  lemma {:induction false} TypingIsLocal(s: State, events: seq<Event>)
    requires |events| > 0 && forall i :: 0 <= i < |events| ==> events[i].Typed?
    ensures Run(s, events) == State(events[|events| - 1].text, s.reported)
    decreases |events|
  {
    if |events| > 1 {
      TypingIsLocal(Step(s, events[0]), events[1..]);
    }
  }

  /** The mounted input. */
  class Input {
    /** `state.value`, which is also the value the input renders. */
    var value: string
    var reported: seq<string>

    /** The local value starts as the `value` prop. */
    constructor (propsValue: string)
      ensures value == propsValue && reported == []
    {
      value := propsValue;
      reported := [];
    }

    /** `handleChange(e)`. */
    method HandleChange(text: string)
      modifies this
      ensures State(value, reported) == Step(old(State(value, reported)), Typed(text))
    {
      value := text;
    }

    /** `handleBlur(e)`: `onChange` with the input's text. */
    method HandleBlur()
      modifies this
      ensures State(value, reported) == Step(old(State(value, reported)), Blurred)
    {
      reported := reported + [value];
    }

    /** `UNSAFE_componentWillReceiveProps(nextProps)`. */
    method ReceiveProps(propsValue: string)
      modifies this
      ensures State(value, reported) == Step(old(State(value, reported)), NewProps(propsValue))
    {
      value := propsValue;
    }
  }
}
