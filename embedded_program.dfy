/** What the iframe widget and the CS program widget share: grading by the status
    the embedded program reports, the message handler that sets that status,
    the program settings passed to the program, and the URL the frame loads. */
module EmbeddedProgram {
  import opened Common

  const KeepGoingMessage := "Keep going, you're not there yet!"

  /** `validate(state, rubric)`: the status the program reported decides the
      score; "correct" is one point out of one, "incorrect" none out of one,
      both with the program's message (an empty one counting as none); any
      other status is not gradable yet. */
  function Validate(status: string, message: Option<string>): (r: Score)
    ensures status == "correct" ==> r == Points(1, 1, MessageOrNull(message))
    ensures status == "incorrect" ==> r == Points(0, 1, MessageOrNull(message))
    ensures r.Invalid? <==> status != "correct" && status != "incorrect"
    ensures r.Invalid? ==> r.message == Some(KeepGoingMessage)
  {
    if status == "correct" then Points(1, 1, MessageOrNull(message))
    else if status == "incorrect" then Points(0, 1, MessageOrNull(message))
    else Invalid(Some(KeepGoingMessage))
  }

  /** The status and message a message event asks for. */
  datatype StatusChange = StatusChange(status: string, message: Option<string>)

  /** A message's text: only a string counts. */
  function MessageText(v: Value): Option<string> {
    if v.Str? then Some(v.s) else None
  }

  /** The rule of `handleMessageEvent` on the event's data, where `None` is data
      that is not JSON: such data, and data without `testsPassed`, are ignored;
      JSON `null` data makes reading `testsPassed` fail; otherwise the status
      becomes "correct" or "incorrect" by the truthiness of `testsPassed`, with
      the data's message. */
  function MessageRule(data: Option<Value>): (r: Result<Option<StatusChange>, string>)
    ensures r.Err? <==> data == Some(Null)
    ensures r == Ok(None) <==> data.None? || (data.value != Null && Get(data.value, "testsPassed").Undefined?)
    ensures r.Ok? && r.value.Some? ==>
              (r.value.value.status == "correct" <==> Truthy(Get(data.value, "testsPassed"))) &&
              (r.value.value.status == "correct" || r.value.value.status == "incorrect") &&
              r.value.value.message == MessageText(Get(data.value, "message"))
  {
    match data
    case None => Ok(None)
    case Some(v) =>
      if v.Null? then Err("TypeError: Cannot read properties of null (reading 'testsPassed')")
      else if Get(v, "testsPassed").Undefined? then Ok(None)
      else
        var status := if Truthy(Get(v, "testsPassed")) then "correct" else "incorrect";
        Ok(Some(StatusChange(status, MessageText(Get(v, "message")))))
  }

  /** Once a program has reported test results, the widget is always gradable,
      earning its point exactly when the tests passed. */
  lemma ReportedResultIsGraded(data: Value)
    requires data != Null && !Get(data, "testsPassed").Undefined?
    ensures MessageRule(Some(data)).Ok? && MessageRule(Some(data)).value.Some?
    ensures var c := MessageRule(Some(data)).value.value;
            var s := Validate(c.status, c.message);
            s.Points? && s.total == 1 && (s.earned == 1 <==> Truthy(Get(data, "testsPassed")))
  {
  }

  /** The mounted widget's status and message props, and the changes it has
      reported to its owner (who applies them). */
  class Program {
    var status: string
    var message: Option<string>
    var changes: seq<StatusChange>

    /** `defaultProps`: status "incomplete", no message. */
    constructor ()
      ensures status == "incomplete" && message.None? && changes == []
    {
      status := "incomplete";
      message := None;
      changes := [];
    }

    /** `handleMessageEvent(e)`: applies the message rule; an ignored message
        changes nothing. */
    method HandleMessageEvent(data: Option<Value>) returns (r: Result<(), string>)
      modifies this
      ensures r.Err? <==> MessageRule(data).Err?
      ensures MessageRule(data).Ok? && MessageRule(data).value.None? ==>
                status == old(status) && message == old(message) && changes == old(changes)
      ensures MessageRule(data).Ok? && MessageRule(data).value.Some? ==>
                var c := MessageRule(data).value.value;
                status == c.status && message == c.message && changes == old(changes) + [c]
      ensures r.Err? ==> status == old(status) && message == old(message) && changes == old(changes)
    {
      var rule := MessageRule(data);
      if rule.Err? {
        return Err(rule.error);
      }
      if rule.value.Some? {
        var c := rule.value.value;
        status, message := c.status, c.message;
        changes := changes + [c];
      }
      r := Ok(());
    }

    /** `simpleValidate`: grades the widget's own status and message. */
    method SimpleValidate() returns (r: Score)
      ensures r == Validate(status, message)
      ensures r.Points? <==> status == "correct" || status == "incorrect"
    {
      r := Validate(status, message);
    }
  }

  /** The settings object built from a settings list with no `null` or
      `undefined` entry (on such an entry `setting.name` throws, see
      `BuildSettings`): an entry whose name and value are both truthy sets
      that name, a later one overriding an earlier one; every other entry is
      skipped, so every value the object holds is truthy. */
  function SettingsOf(settings: seq<Value>): (r: map<string, Value>)
    ensures forall k :: k in r ==> Truthy(r[k])
    decreases |settings|
  {
    if settings == [] then map[]
    else
      var last := settings[|settings| - 1];
      var before := SettingsOf(settings[..|settings| - 1]);
      if Truthy(Get(last, "name")) && Truthy(Get(last, "value")) then before[ToString(Get(last, "name")) := Get(last, "value")]
      else before
  }

  /** An entry of the list that sets `key`. */
  predicate Sets(settings: seq<Value>, i: int, key: string) {
    0 <= i < |settings| && Truthy(Get(settings[i], "name")) && Truthy(Get(settings[i], "value")) &&
    ToString(Get(settings[i], "name")) == key
  }

  /** The index of the last entry that sets `key`, or -1 when none does. */
  function LastSetter(settings: seq<Value>, key: string): (i: int)
    ensures -1 <= i < |settings|
    ensures i >= 0 ==> Sets(settings, i, key)
    ensures forall j :: i < j < |settings| ==> !Sets(settings, j, key)
    decreases |settings|
  {
    if settings == [] then -1
    else if Sets(settings, |settings| - 1, key) then |settings| - 1
    else
      var init := settings[..|settings| - 1];
      assert forall j :: 0 <= j < |init| ==> Sets(init, j, key) == Sets(settings, j, key);
      LastSetter(init, key)
  }

  /** The settings object holds `key` exactly when some entry sets it, with
      the value of the last such entry. */
  lemma {:induction false} SettingsOfLastSetter(settings: seq<Value>, key: string)
    ensures key in SettingsOf(settings) <==> LastSetter(settings, key) >= 0
    ensures key in SettingsOf(settings) ==>
              SettingsOf(settings)[key] == Get(settings[LastSetter(settings, key)], "value")
    decreases |settings|
  {
    if settings != [] {
      SettingsOfLastSetter(settings[..|settings| - 1], key);
    }
  }

  /** The settings object has a key exactly when some entry sets it, and then
      holds the value of the last entry that does. */
  lemma SettingsOfLastWins(settings: seq<Value>, key: string)
    ensures key in SettingsOf(settings) <==> exists i :: Sets(settings, i, key)
    ensures key in SettingsOf(settings) ==>
              exists i :: Sets(settings, i, key) && SettingsOf(settings)[key] == Get(settings[i], "value") &&
                          forall j :: i < j < |settings| ==> !Sets(settings, j, key)
  {
    SettingsOfLastSetter(settings, key);
    var i := LastSetter(settings, key);
    if i >= 0 {
      assert Sets(settings, i, key);
    }
  }

  /** An entry on which reading `setting.name` throws. */
  predicate Nullish(setting: Value) {
    setting.Null? || setting.Undefined?
  }

  /** Some entry of the list is `null` or `undefined`. */
  predicate HasNullishEntry(settings: seq<Value>) {
    exists i :: 0 <= i < |settings| && Nullish(settings[i])
  }

  /** The TypeError `setting.name` throws on a `null` or `undefined` entry. */
  function NameReadError(setting: Value): string {
    if setting.Null? then "TypeError: Cannot read properties of null (reading 'name')"
    else "TypeError: Cannot read properties of undefined (reading 'name')"
  }

  /** The loop of `render` that fills the settings object entry by entry. It
      throws at the first `null` or `undefined` entry; otherwise it builds the
      settings object of the whole list. */
  method BuildSettings(settings: seq<Value>) returns (r: Result<map<string, Value>, string>)
    ensures r.Ok? <==> !HasNullishEntry(settings)
    ensures r.Ok? ==> r.value == SettingsOf(settings)
    ensures r.Err? ==> exists i :: 0 <= i < |settings| && Nullish(settings[i]) &&
                                   (forall j :: 0 <= j < i ==> !Nullish(settings[j])) &&
                                   r.error == NameReadError(settings[i])
  {
    var built := map[];
    var i := 0;
    while i < |settings|
      invariant 0 <= i <= |settings|
      invariant forall j :: 0 <= j < i ==> !Nullish(settings[j])
      invariant built == SettingsOf(settings[..i])
    {
      assert settings[..i + 1][..i] == settings[..i];
      var setting := settings[i];
      if Nullish(setting) {
        return Err(NameReadError(setting));
      }
      if Truthy(Get(setting, "name")) && Truthy(Get(setting, "value")) {
        built := built[ToString(Get(setting, "name")) := Get(setting, "value")];
      }
      i := i + 1;
    }
    assert settings[..|settings|] == settings;
    r := Ok(built);
  }

  /** A URL: its text, and the query parameters set on it afterwards (by a
      query-string helper not part of this model), in order. */
  datatype Url = Url(base: Value, query: seq<(string, Value)>)

  /** `updateQueryString(url, key, value)`, recorded. */
  function UpdateQuery(url: Url, key: string, value: Value): (r: Url)
    ensures r.base == url.base && r.query == url.query + [(key, value)]
  {
    Url(url.base, url.query + [(key, value)])
  }

  /** The settings step of `render`: when there is a settings list, the URL's
      "settings" parameter is set to the settings object; a `null` or
      `undefined` entry in the list makes the step throw. */
  method AddSettings(url: Url, settings: Option<seq<Value>>) returns (r: Result<Url, string>)
    ensures settings.None? ==> r == Ok(url)
    ensures r.Err? <==> settings.Some? && HasNullishEntry(settings.value)
    ensures r.Ok? && settings.Some? ==> r.value == UpdateQuery(url, "settings", Obj(SettingsOf(settings.value)))
  {
    r := Ok(url);
    if settings.Some? {
      var built := BuildSettings(settings.value);
      if built.Err? {
        return Err(built.error);
      }
      r := Ok(UpdateQuery(url, "settings", Obj(built.value)));
    }
  }
}
