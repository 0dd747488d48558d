/** The renderer: the widget information it keeps, the widgets it asks for
    scores, answers, input paths and examples, the focus it tracks across its
    widgets, the props updates widgets send it, the restoring of serialized
    widget state, and the walk over the content that records the rendered
    widget IDs. Widget instances are given as records of what each one
    offers; calls into them are recorded or passed in as functions. */
module Renderer {
  import opened Common
  import opened RendererOutput

  /** A widget ID followed by a path inside the widget. */
  type Path = seq<string>
  /** `null` is no focus. */
  type FocusPath = Option<Path>

  /** What a mounted widget offers the renderer. A missing method is `None`. */
  datatype Widget = Widget(
    /** The truthy result of `focus()`; `None` when the widget has no
        `focus` method or it returns something falsy. */
    focus: Option<FocusResult>,
    focusInputPath: bool,
    blurInputPath: bool,
    inputPaths: Option<seq<Path>>,
    userInput: Option<Value>,
    serializedState: Option<Value>,
    /** `restoreSerializedState(props, callback)`: the props it returns. */
    restore: Option<Value -> Value>,
    /** `simpleValidate(options, onInputError)`. */
    simpleValidate: Option<Value -> Score>,
    examples: Option<seq<string>>)

  /** A truthy focus result: an object result carries a path inside the
      widget (empty when it has none). */
  datatype FocusResult = FocusTrue | FocusObject(path: Path)

  /** `getWidgetInstance(id)`. */
  function Instance(instances: map<string, Widget>, id: string): Option<Widget> {
    if id in instances then Some(instances[id]) else None
  }

  // ---------------------------------------------------------------------------
  // Focus paths

  /** `isIdPathPrefix`: no focus is a prefix only of no focus; otherwise every
      element of the prefix is at the same position in the whole path. */
  function IsIdPathPrefix(prefix: FocusPath, whole: FocusPath): (r: bool)
    ensures prefix.None? || whole.None? ==> (r <==> prefix == whole)
    ensures prefix.Some? && whole.Some? ==> (r <==> IsPrefix(prefix.value, whole.value))
  {
    if prefix.None? || whole.None? then prefix == whole
    else
      ElementwisePrefix(prefix.value, whole.value);
      EveryElementMatches(prefix.value, whole.value)
  }

  /** `_.every(prefix, (elem, i) => _.isEqual(elem, whole[i]))`: an element
      past the end of the whole path is undefined and matches nothing. */
  predicate EveryElementMatches(prefix: Path, whole: Path) {
    forall i :: 0 <= i < |prefix| ==> i < |whole| && prefix[i] == whole[i]
  }

  /** Comparing element by element is being a prefix. */
  lemma ElementwisePrefix(p: Path, w: Path)
    ensures EveryElementMatches(p, w) <==> IsPrefix(p, w)
  {
    if EveryElementMatches(p, w) && |p| > 0 {
      var last := |p| - 1;
      assert p[last] == p[last];
    }
  }

  /** Being a prefix is a partial order on focus paths whose least element
      among the focused ones is the empty path. */
  lemma IdPathPrefixOrder(a: FocusPath, b: FocusPath, c: FocusPath)
    ensures IsIdPathPrefix(a, a)
    ensures b.Some? ==> IsIdPathPrefix(Some([]), b)
    ensures IsIdPathPrefix(a, b) && IsIdPathPrefix(b, c) ==> IsIdPathPrefix(a, c)
    ensures IsIdPathPrefix(a, b) && IsIdPathPrefix(b, a) ==> a == b
  {
    if IsIdPathPrefix(a, b) && IsIdPathPrefix(b, a) && a.Some? && b.Some? {
      assert a.value == b.value[..|a.value|];
      assert b.value[..|b.value|] == b.value;
    }
  }

  /** A call the renderer makes on a widget's input path methods. */
  datatype InputPathCall = BlurInputPath(id: string, path: Path) | FocusInputPath(id: string, path: Path)

  /** The call `blurPath(path)` makes once `path` is the focus: the widget
      the path starts at, if it has `blurInputPath`, is asked to blur the rest
      of the path. */
  function BlurCalls(instances: map<string, Widget>, path: FocusPath): (r: seq<InputPathCall>)
    ensures |r| <= 1
    ensures |r| == 1 <==> path.Some? && |path.value| > 0 && path.value[0] in instances && instances[path.value[0]].blurInputPath
    ensures |r| == 1 ==> r[0] == BlurInputPath(path.value[0], path.value[1..])
  {
    if path.Some? && |path.value| > 0 && path.value[0] in instances && instances[path.value[0]].blurInputPath then
      [BlurInputPath(path.value[0], path.value[1..])]
    else []
  }

  /** The call the focusing step of `focusPath(path)` makes. */
  function FocusCalls(instances: map<string, Widget>, path: FocusPath): (r: seq<InputPathCall>)
    ensures |r| <= 1
    ensures |r| == 1 <==> path.Some? && |path.value| > 0 && path.value[0] in instances && instances[path.value[0]].focusInputPath
    ensures |r| == 1 ==> r[0] == FocusInputPath(path.value[0], path.value[1..])
  {
    if path.Some? && |path.value| > 0 && path.value[0] in instances && instances[path.value[0]].focusInputPath then
      [FocusInputPath(path.value[0], path.value[1..])]
    else []
  }

  /** The first widget, in rendered order, whose `focus()` result is truthy. */
  function FirstFocusable(ids: seq<string>, instances: map<string, Widget>): (r: Option<nat>)
    ensures r.Some? ==> r.value < |ids| && ids[r.value] in instances && instances[ids[r.value]].focus.Some?
    ensures r.Some? ==> forall j :: 0 <= j < r.value ==> !(ids[j] in instances && instances[ids[j]].focus.Some?)
    ensures r.None? ==> forall j :: 0 <= j < |ids| ==> !(ids[j] in instances && instances[ids[j]].focus.Some?)
    decreases |ids|
  {
    if ids == [] then None
    else if ids[0] in instances && instances[ids[0]].focus.Some? then Some(0)
    else
      var rest := FirstFocusable(ids[1..], instances);
      if rest.Some? then Some(rest.value + 1) else None
  }

  /** The focus path `focus()` builds from the widget's result. */
  function FocusedPath(id: string, result: FocusResult): (r: Path)
    ensures |r| >= 1 && r[0] == id
    ensures result.FocusTrue? ==> r == [id]
    ensures result.FocusObject? ==> r[1..] == result.path
  {
    match result
    case FocusTrue => [id]
    case FocusObject(path) => [id] + path
  }

  const FocusObjectError := "Renderer received a focus result of type 'object' instead of the expected type 'boolean'"
  const RestoreRefusedError := "Refusing to restore bad serialized state:"

  // ---------------------------------------------------------------------------
  // Widget information

  /** `widgetId.split(" ")[0]`: the ID up to its first space. */
  function FirstWord(id: string): (r: string)
    ensures IsPrefix(r, id) && ' ' !in r
    ensures |r| == |id| || id[|r|] == ' '
    decreases |id|
  {
    if id == [] || id[0] == ' ' then [] else [id[0]] + FirstWord(id[1..])
  }

  /** The defaults `_getAllWidgetsInfo` fills in before upgrading a widget's
      info: a missing type is the first word of the ID, a missing alignment is
      "default"; info that has both is kept as it is. */
  function FillDefaults(id: string, info: Value): (r: Value)
    ensures Truthy(Get(info, "type")) && Truthy(Get(info, "alignment")) ==> r == info
    ensures !(Truthy(Get(info, "type")) && Truthy(Get(info, "alignment"))) ==>
              r.Obj? &&
              Get(r, "type") == (if Truthy(Get(info, "type")) then Get(info, "type") else Str(FirstWord(id))) &&
              Get(r, "alignment") == (if Truthy(Get(info, "alignment")) then Get(info, "alignment") else Str("default")) &&
              forall k :: k in Fields(info) && k != "type" && k != "alignment" ==> k in r.fields && r.fields[k] == Fields(info)[k]
  {
    if Truthy(Get(info, "type")) && Truthy(Get(info, "alignment")) then info
    else
      var withType := if Truthy(Get(info, "type")) then map[] else map["type" := Str(FirstWord(id))];
      var newValues := if Truthy(Get(info, "alignment")) then withType else withType["alignment" := Str("default")];
      Extend(Extend(Obj(map[]), info), Obj(newValues))
  }

  /** `_getAllWidgetsInfo`: every widget's info with its defaults filled in,
      then upgraded to the latest version of its widget type (the upgrade is
      a function of the widget registry, passed in). */
  function AllWidgetsInfo(widgets: map<string, Value>, upgrade: Value -> Value): (r: map<string, Value>)
    ensures r.Keys == widgets.Keys
    ensures forall id :: id in widgets ==> r[id] == upgrade(FillDefaults(id, widgets[id]))
  {
    map id | id in widgets :: upgrade(FillDefaults(id, widgets[id]))
  }

  /** `_getDefaultWidgetInfo`: an ID that looks like a widget ID (by the
      widget-ID pattern of the utility module, passed in) gets a graded widget
      of its type with no options; any other ID gets empty info. */
  function DefaultWidgetInfo(id: string, typeFromWidgetId: string -> Option<string>): (r: Value)
    ensures r.Obj?
    ensures typeFromWidgetId(id).None? ==> r.fields == map[]
    ensures typeFromWidgetId(id).Some? ==>
              r.fields.Keys == {"type", "graded", "options"} &&
              Get(r, "type") == Str(typeFromWidgetId(id).value) && Get(r, "graded") == Bool(true) &&
              Get(r, "options") == Obj(map[])
  {
    match typeFromWidgetId(id)
    case None => Obj(map[])
    case Some(t) => Obj(map["type" := Str(t), "graded" := Bool(true), "options" := Obj(map[])])
  }

  /** `_getWidgetInfo`: the widget's own info when it is truthy, else the
      default info of its ID. */
  function GetWidgetInfo(info: map<string, Value>, id: string, typeFromWidgetId: string -> Option<string>): (r: Value)
    ensures id in info && Truthy(info[id]) ==> r == info[id]
    ensures !(id in info && Truthy(info[id])) ==> r == DefaultWidgetInfo(id, typeFromWidgetId)
  {
    if id in info && Truthy(info[id]) then info[id] else DefaultWidgetInfo(id, typeFromWidgetId)
  }

  // ---------------------------------------------------------------------------
  // Questions put to every rendered widget

  /** `getSerializedState(widgetProps)`: each widget's own serialized state
      when it offers one, else its props. */
  function SerializedState(props: map<string, Value>, instances: map<string, Widget>): (r: map<string, Value>)
    ensures r.Keys == props.Keys
    ensures forall id :: id in props && id in instances && instances[id].serializedState.Some? ==>
              r[id] == instances[id].serializedState.value
    ensures forall id :: id in props && !(id in instances && instances[id].serializedState.Some?) ==> r[id] == props[id]
  {
    map id | id in props ::
      if id in instances && instances[id].serializedState.Some? then instances[id].serializedState.value else props[id]
  }

  /** The input paths of one widget, each prefixed with its ID. */
  function Prefixed(id: string, paths: seq<Path>): (r: seq<Path>)
    ensures |r| == |paths|
    ensures forall k :: 0 <= k < |r| ==> r[k] == [id] + paths[k]
  {
    seq(|paths|, k requires 0 <= k < |paths| => [id] + paths[k])
  }

  /** `getInputPaths`: the input paths of every rendered widget that offers
      them, in rendered order, each prefixed with its widget's ID. Every path
      starts with the ID of a rendered widget that offers input paths. */
  function InputPaths(ids: seq<string>, instances: map<string, Widget>): (r: seq<Path>)
    ensures forall p :: p in r ==> |p| >= 1 && p[0] in ids && p[0] in instances && instances[p[0]].inputPaths.Some?
    decreases |ids|
  {
    if ids == [] then []
    else
      var id := ids[|ids| - 1];
      InputPaths(ids[..|ids| - 1], instances) +
        (if id in instances && instances[id].inputPaths.Some? then Prefixed(id, instances[id].inputPaths.value) else [])
  }

  /** The renderer's input paths are exactly the widgets' own, each behind the
      ID of a rendered widget that offers it. */
  lemma {:induction false} InputPathsAreWidgets(ids: seq<string>, instances: map<string, Widget>, p: Path)
    ensures p in InputPaths(ids, instances) <==>
              |p| >= 1 && p[0] in ids && p[0] in instances && instances[p[0]].inputPaths.Some? &&
              p[1..] in instances[p[0]].inputPaths.value
    decreases |ids|
  {
    if ids != [] {
      var init := ids[..|ids| - 1];
      var id := ids[|ids| - 1];
      InputPathsAreWidgets(init, instances, p);
      assert forall x :: x in ids <==> x in init || x == id;
      if id in instances && instances[id].inputPaths.Some? {
        PrefixedMember(id, instances[id].inputPaths.value, p);
      }
    }
  }

  /** A path is among one widget's prefixed paths exactly when it is the
      widget's ID followed by one of its paths. */
  lemma PrefixedMember(id: string, paths: seq<Path>, p: Path)
    ensures p in Prefixed(id, paths) <==> |p| >= 1 && p[0] == id && p[1..] in paths
  {
    var own := Prefixed(id, paths);
    if p in own {
      var k :| 0 <= k < |own| && own[k] == p;
      assert p[1..] == paths[k];
    }
    if |p| >= 1 && p[0] == id && p[1..] in paths {
      var k :| 0 <= k < |paths| && paths[k] == p[1..];
      assert own[k] == p;
    }
  }

  /** `getUserInput`: each rendered widget's user input, in rendered order;
      `None` for a widget that offers none. */
  function GetUserInput(ids: seq<string>, instances: map<string, Widget>): (r: seq<Option<Value>>)
    ensures |r| == |ids|
    ensures forall k :: 0 <= k < |ids| ==>
              r[k] == (if ids[k] in instances then instances[ids[k]].userInput else None)
  {
    seq(|ids|, k requires 0 <= k < |ids| => if ids[k] in instances then instances[ids[k]].userInput else None)
  }

  /** `getUserInputForWidgets`: the same answers, by widget ID. */
  function GetUserInputForWidgets(ids: seq<string>, instances: map<string, Widget>): (r: map<string, Option<Value>>)
    ensures r.Keys == set id | id in ids
  {
    map id | id in ids :: if id in instances then instances[id].userInput else None
  }

  /** The list and the map of user inputs say the same thing. */
  lemma UserInputAgree(ids: seq<string>, instances: map<string, Widget>, k: nat)
    requires k < |ids|
    ensures GetUserInputForWidgets(ids, instances)[ids[k]] == GetUserInput(ids, instances)[k]
  {
  }

  /** Whether `scoreWidgets` grades a widget, by its info: a graded flag that
      is null, missing or truthy, and no truthy static flag. So a widget
      without info is graded, and one marked `graded: false` or static is
      not. */
  function IsGraded(info: map<string, Value>, id: string): (r: bool)
    ensures id !in info ==> r
    ensures id in info && Get(info[id], "graded") == Bool(false) ==> !r
    ensures id in info && Truthy(Get(info[id], "static")) ==> !r
    ensures id in info && info[id].Obj? && info[id].fields.Keys == {"type"} ==> r
  {
    var props := if id in info then info[id] else Undefined;
    (Get(props, "graded").Null? || Get(props, "graded").Undefined? || Truthy(Get(props, "graded"))) &&
    !Truthy(Get(props, "static"))
  }

  /** `scoreWidgets`: the score of every rendered, graded, non-static widget
      that can validate itself, each validated with the options of its info. */
  function ScoreWidgets(ids: seq<string>, info: map<string, Value>, instances: map<string, Widget>): (r: map<string, Score>)
    ensures forall id :: id in r <==>
              id in ids && IsGraded(info, id) && id in instances && instances[id].simpleValidate.Some?
    ensures forall id :: id in r ==>
              r[id] == instances[id].simpleValidate.value(Get(if id in info then info[id] else Undefined, "options"))
  {
    var graded := Filter(ids, id => IsGraded(info, id));
    map id | id in graded && id in instances && instances[id].simpleValidate.Some? ::
      instances[id].simpleValidate.value(Get(if id in info then info[id] else Undefined, "options"))
  }

  /** `emptyWidgets`: the rendered widgets, in order, that are not static by
      their info and whose score for the options of their info counts as empty
      (by the utility module's rule, passed in). */
  function EmptyWidgets(ids: seq<string>, info: map<string, Value>, instances: map<string, Widget>,
                        typeFromWidgetId: string -> Option<string>, scoreIsEmpty: Score -> bool): (r: seq<string>)
    ensures IsSubsequence(r, ids)
    ensures forall id :: id in r <==>
              id in ids && !Truthy(Get(GetWidgetInfo(info, id, typeFromWidgetId), "static")) &&
              id in instances && instances[id].simpleValidate.Some? &&
              scoreIsEmpty(instances[id].simpleValidate.value(Get(GetWidgetInfo(info, id, typeFromWidgetId), "options")))
  {
    Filter(ids, id =>
      var widgetInfo := GetWidgetInfo(info, id, typeFromWidgetId);
      !Truthy(Get(widgetInfo, "static")) && id in instances && instances[id].simpleValidate.Some? &&
      scoreIsEmpty(instances[id].simpleValidate.value(Get(widgetInfo, "options"))))
  }

  /** The examples of the rendered widgets that offer them, in order. */
  function WidgetExamples(ids: seq<string>, instances: map<string, Widget>): (r: seq<seq<string>>)
    ensures forall e :: e in r <==> exists id :: id in ids && id in instances && instances[id].examples == Some(e)
    decreases |ids|
  {
    if ids == [] then []
    else
      var id := ids[|ids| - 1];
      var rest := WidgetExamples(ids[..|ids| - 1], instances);
      assert forall x :: x in ids <==> x in ids[..|ids| - 1] || x == id;
      rest + (if id in instances && instances[id].examples.Some? then [instances[id].examples.value] else [])
  }

  /** `examples`: the one list of examples every widget that offers examples
      agrees on; none when no widget offers any or two of them differ. */
  function Examples(ids: seq<string>, instances: map<string, Widget>): (r: Option<seq<string>>)
    ensures r.Some? <==>
              (exists id :: id in ids && id in instances && instances[id].examples.Some?) &&
              forall a, b :: a in ids && b in ids && a in instances && b in instances &&
                             instances[a].examples.Some? && instances[b].examples.Some? ==>
                               instances[a].examples == instances[b].examples
    ensures r.Some? ==> forall id :: id in ids && id in instances && instances[id].examples.Some? ==>
                          instances[id].examples == r
  {
    var examples := WidgetExamples(ids, instances);
    if |examples| == 0 then None
    else if forall k :: 0 <= k < |examples| ==> examples[k] == examples[0] then Some(examples[0])
    else
      assert exists a, b :: a in ids && b in ids && a in instances && b in instances &&
                            instances[a].examples.Some? && instances[b].examples.Some? &&
                            instances[a].examples != instances[b].examples by {
        var k :| 0 <= k < |examples| && examples[k] != examples[0];
        assert examples[k] in examples && examples[0] in examples;
      }
      None
  }

  /** The criterion of `findInternalWidgets`: a string with a space is a widget
      ID, any other string a widget type; or a predicate on the ID, the info
      and the instance. */
  datatype Criterion =
    | ByName(name: string)
    | ByPredicate(keep: (string, Value, Option<Widget>) -> bool)

  predicate Matches(c: Criterion, id: string, info: map<string, Value>, instances: map<string, Widget>,
                    typeFromWidgetId: string -> Option<string>)
  {
    match c
    case ByName(name) =>
      if ' ' in name then id == name else Get(GetWidgetInfo(info, id, typeFromWidgetId), "type") == Str(name)
    case ByPredicate(keep) => keep(id, GetWidgetInfo(info, id, typeFromWidgetId), Instance(instances, id))
  }

  /** The rendered IDs `findInternalWidgets` selects, in order. */
  function FoundIds(c: Criterion, ids: seq<string>, info: map<string, Value>, instances: map<string, Widget>,
                    typeFromWidgetId: string -> Option<string>): (r: seq<string>)
    ensures IsSubsequence(r, ids)
    ensures forall id :: id in r <==> id in ids && Matches(c, id, info, instances, typeFromWidgetId)
  {
    Filter(ids, id => Matches(c, id, info, instances, typeFromWidgetId))
  }

  /** `findInternalWidgets`: the instances of the selected widgets. */
  function FindInternalWidgets(c: Criterion, ids: seq<string>, info: map<string, Value>, instances: map<string, Widget>,
                               typeFromWidgetId: string -> Option<string>): (r: seq<Option<Widget>>)
    ensures var found := FoundIds(c, ids, info, instances, typeFromWidgetId);
            |r| == |found| && forall k :: 0 <= k < |r| ==> r[k] == Instance(instances, found[k])
  {
    var found := FoundIds(c, ids, info, instances, typeFromWidgetId);
    seq(|found|, k requires 0 <= k < |found| => Instance(instances, found[k]))
  }

  /** A widget ID selects at most that widget: exactly it when it is rendered
      (rendered IDs being distinct), nothing otherwise. */
  lemma {:induction false} FindById(name: string, ids: seq<string>, info: map<string, Value>, instances: map<string, Widget>,
                                    typeFromWidgetId: string -> Option<string>)
    requires ' ' in name && NoDuplicates(ids)
    ensures FoundIds(ByName(name), ids, info, instances, typeFromWidgetId) == (if name in ids then [name] else [])
    decreases |ids|
  {
    if ids != [] {
      assert NoDuplicates(ids[1..]) by {
        forall i, j | 0 <= i < j < |ids[1..]| ensures ids[1..][i] != ids[1..][j] {
          assert ids[1..][i] == ids[i + 1] && ids[1..][j] == ids[j + 1];
        }
      }
      FindById(name, ids[1..], info, instances, typeFromWidgetId);
      if ids[0] == name {
        assert name !in ids[1..] by {
          forall j | 0 <= j < |ids[1..]| ensures ids[1..][j] != name {
            assert ids[1..][j] == ids[j + 1];
          }
        }
      }
      assert name in ids <==> ids[0] == name || name in ids[1..];
    }
  }

  /** The body of the loop of `outputNested`: a string output right after a
      string output (as the flag says) is appended to it, anything else is
      pushed. */
  method PushOutput(outs: seq<Out>, out: Out, lastWasString: bool) returns (r: seq<Out>)
    requires lastWasString <==> |outs| > 0 && outs[|outs| - 1].OText?
    ensures r == MergeAppend(outs, out)
  {
    if out.OText? && lastWasString {
      r := outs[..|outs| - 1] + [OText(outs[|outs| - 1].s + out.s)];
    } else {
      r := outs + [out];
    }
  }

  /** The new props of one widget, and whether it restores itself (and so
      will fire a callback). */
  method RestoreOne(serialized: map<string, Value>, widgetProps: map<string, Value>, instances: map<string, Widget>, id: string)
    returns (props: Value, restores: bool)
    requires id in serialized
    ensures props == RestoredValue(serialized, widgetProps, instances, id)
    ensures restores <==> id in instances && instances[id].restore.Some?
  {
    var widget := Instance(instances, id);
    if widget.Some? && widget.value.restore.Some? {
      var restoreResult := widget.value.restore.value(serialized[id]);
      return Extend(Extend(Obj(map[]), if id in widgetProps then widgetProps[id] else Undefined), restoreResult), true;
    }
    return serialized[id], false;
  }

  /** The mapping step of `restoreSerializedState`: the new props of each
      widget, counting the restore's own callback and one per widget that
      restores itself. */
  method RestoreEach(serialized: map<string, Value>, widgetProps: map<string, Value>, instances: map<string, Widget>)
    returns (restored: map<string, Value>, numCallbacks: nat)
    ensures restored == RestoredProps(serialized, widgetProps, instances)
    ensures numCallbacks == 1 + |Restorers(serialized, instances)|
  {
    numCallbacks := 1;
    restored := map[];
    var todo := serialized.Keys;
    ghost var restoring: set<string> := {};
    while todo != {}
      invariant todo <= serialized.Keys
      invariant forall x :: x in restored <==> x in serialized && x !in todo
      invariant forall id :: id in restored ==> restored[id] == RestoredValue(serialized, widgetProps, instances, id)
      invariant forall x :: x in restoring <==> x in restored && x in instances && instances[x].restore.Some?
      invariant numCallbacks == 1 + |restoring|
      decreases todo
    {
      var id :| id in todo;
      var props, restores := RestoreOne(serialized, widgetProps, instances, id);
      if restores {
        numCallbacks := numCallbacks + 1;
        restoring := restoring + {id};
      }
      restored := restored[id := props];
      todo := todo - {id};
    }
    assert restoring == Restorers(serialized, instances);
    assert restored.Keys == serialized.Keys;
  }

  // ---------------------------------------------------------------------------
  // The mounted renderer

  /** A deferred `onChange` continuation of `_setWidgetProps`: the widget, what
      its callback returns (undefined without a callback), and whether the
      update was silent. */
  datatype WidgetChange = WidgetChange(id: string, callbackResult: Value, silent: bool)

  /** A restore in progress: the callbacks still to fire, and whether the
      caller gave a callback. */
  datatype RestoreSession = RestoreSession(remaining: nat, hasCallback: bool)

  /** The props a restore leaves: a widget that restores itself keeps its
      current props, extended with what its restore returns; any other widget
      gets its serialized props. */
  function RestoredProps(serialized: map<string, Value>, props: map<string, Value>, instances: map<string, Widget>): (r: map<string, Value>)
    ensures r.Keys == serialized.Keys
    ensures forall id :: id in serialized ==> r[id] == RestoredValue(serialized, props, instances, id)
  {
    map id | id in serialized :: RestoredValue(serialized, props, instances, id)
  }

  /** The props a restore gives one widget: for a widget that restores
      itself, its current props with what its restore returns taking
      precedence; for any other widget, its serialized props. */
  function RestoredValue(serialized: map<string, Value>, props: map<string, Value>, instances: map<string, Widget>, id: string)
    : (r: Value)
    requires id in serialized
    ensures !(id in instances && instances[id].restore.Some?) ==> r == serialized[id]
    ensures id in instances && instances[id].restore.Some? ==>
              var current := if id in props then props[id] else Undefined;
              var restored := instances[id].restore.value(serialized[id]);
              r.Obj? && r.fields.Keys == Fields(current).Keys + Fields(restored).Keys &&
              (forall k :: k in Fields(restored) ==> r.fields[k] == Fields(restored)[k]) &&
              (forall k :: k in Fields(current) && k !in Fields(restored) ==> r.fields[k] == Fields(current)[k])
  {
    if id in instances && instances[id].restore.Some? then
      Extend(Extend(Obj(map[]), if id in props then props[id] else Undefined), instances[id].restore.value(serialized[id]))
    else serialized[id]
  }

  /** The widgets of a serialized state that restore themselves. */
  function Restorers(serialized: map<string, Value>, instances: map<string, Widget>): set<string> {
    set id | id in serialized && id in instances && instances[id].restore.Some?
  }

  /** The key check of `restoreSerializedState` (same number of IDs, and every
      serialized ID among the current ones) is equality of the ID sets. */
  lemma SameIdsCheck(a: set<string>, b: set<string>)
    ensures (|a| == |b| && |a * b| == |a|) <==> a == b
  {
    if a == b {
      assert a * b == a;
    }
    if |a| == |b| && |a * b| == |a| {
      assert a * b == a by {
        if a * b != a {
          var x :| x in a && x !in a * b;
          assert a * b <= a - {x};
          assert a == (a - {x}) + {x};
          SubsetCardinality(a * b, a - {x});
        }
      }
      if a != b {
        var y :| y in b && y !in a;
        assert a <= b - {y};
        assert b == (b - {y}) + {y};
        SubsetCardinality(a, b - {y});
      }
    }
  }

  /** `restoreSerializedState`'s key check as the renderer performs it. */
  function SameWidgetIds(serialized: set<string>, current: set<string>): (r: bool)
    ensures r <==> serialized == current
  {
    SameIdsCheck(serialized, current);
    |serialized| == |current| && |serialized * current| == |serialized|
  }

  lemma SubsetCardinality(a: set<string>, b: set<string>)
    requires a <= b
    ensures |a| <= |b|
  {
    assert b == a + (b - a);
  }

  /** Restore bookkeeping: each restore counts exactly its pending callbacks,
      and has called its callback once, exactly when it had one and they have
      all fired. */
  ghost predicate RestoresAccounted(sessions: map<nat, RestoreSession>, pendingFires: multiset<nat>,
                                    nextSession: nat, completions: seq<nat>)
  {
    (forall s :: s in sessions ==> sessions[s].remaining == pendingFires[s]) &&
    (forall s :: s in pendingFires ==> s in sessions) &&
    (forall s :: s in sessions ==> s < nextSession) &&
    (forall s :: multiset(completions)[s] ==
                   if s in sessions && sessions[s].remaining == 0 && sessions[s].hasCallback then 1 else 0)
  }

  /** A new restore session waiting for `count` callbacks keeps the
      bookkeeping. */
  lemma StartKeepsAccounted(sessions: map<nat, RestoreSession>, pendingFires: multiset<nat>,
                            nextSession: nat, completions: seq<nat>, count: nat, hasCallback: bool)
    requires RestoresAccounted(sessions, pendingFires, nextSession, completions)
    requires count >= 1
    ensures RestoresAccounted(sessions[nextSession := RestoreSession(count, hasCallback)],
                              pendingFires[nextSession := count], nextSession + 1, completions)
  {
  }

  /** One pending callback of restore `s` firing, with the caller's callback
      called when it was the last, keeps the bookkeeping. */
  lemma FireKeepsAccounted(sessions: map<nat, RestoreSession>, pendingFires: multiset<nat>,
                           nextSession: nat, completions: seq<nat>, s: nat)
    requires RestoresAccounted(sessions, pendingFires, nextSession, completions)
    requires s in pendingFires
    ensures s in sessions
    ensures var session := sessions[s];
            RestoresAccounted(sessions[s := session.(remaining := session.remaining - 1)],
                              pendingFires - multiset{s}, nextSession,
                              completions + (if session.remaining == 1 && session.hasCallback then [s] else []))
  {
  }

  class Renderer {
    /** The widget IDs of the last render, in document order. */
    var widgetIds: seq<string>
    var widgetInfo: map<string, Value>
    var widgetProps: map<string, Value>
    var lastUsedWidgetId: Option<string>
    var currentFocus: FocusPath
    const instances: map<string, Widget>

    // What the renderer has reported, in order.
    /** `onFocusChange(newFocus, previousFocus)` calls. */
    var focusChanges: seq<(FocusPath, FocusPath)>
    var inputPathCalls: seq<InputPathCall>
    var errors: seq<string>
    /** `onSerializedStateUpdated` calls. */
    var serializedUpdates: seq<map<string, Value>>
    /** `onInteractWithWidget` calls. */
    var interactions: seq<string>
    /** The restores whose callback has been called. */
    var completions: seq<nat>

    // Work deferred with `setTimeout` or `_.defer`, run in any order.
    var pendingFires: multiset<nat>
    var pendingChanges: seq<WidgetChange>
    var pendingBlurs: seq<Path>
    var sessions: map<nat, RestoreSession>
    var nextSession: nat

    /** Restore bookkeeping (see `RestoresAccounted`). */
    ghost predicate Valid()
      reads this`sessions, this`pendingFires, this`nextSession, this`completions
    {
      RestoresAccounted(sessions, pendingFires, nextSession, completions)
    }

    /** The mounted renderer: the widgets' info with defaults filled in and
        upgraded, their starting props (from the widget registry, passed in),
        nothing rendered or focused yet. */
    constructor (widgets: map<string, Value>, upgrade: Value -> Value, startProps: Value -> Value,
                 instances: map<string, Widget>)
      ensures Valid()
      ensures widgetInfo == AllWidgetsInfo(widgets, upgrade)
      ensures widgetProps.Keys == widgets.Keys &&
              forall id :: id in widgetProps ==> widgetProps[id] == startProps(widgetInfo[id])
      ensures widgetIds == [] && currentFocus.None? && lastUsedWidgetId.None? && this.instances == instances
      ensures focusChanges == [] && inputPathCalls == [] && errors == [] && serializedUpdates == [] &&
              interactions == [] && completions == []
      ensures pendingChanges == [] && pendingBlurs == [] && sessions == map[]
    {
      var info := AllWidgetsInfo(widgets, upgrade);
      widgetInfo := info;
      widgetProps := map id | id in info :: startProps(info[id]);
      widgetIds := [];
      lastUsedWidgetId := None;
      currentFocus := None;
      this.instances := instances;
      focusChanges, inputPathCalls, errors, serializedUpdates, interactions, completions := [], [], [], [], [], [];
      pendingFires, pendingChanges, pendingBlurs, sessions, nextSession := multiset{}, [], [], map[], 0;
    }

    /** What `_setCurrentFocus(path)` does: nothing when the path is a prefix
        of the focus (that part is already focused); otherwise the old focus
        is blurred, the path becomes the focus and the change is reported. */
    twostate predicate FocusSet(path: FocusPath)
      reads this
    {
      if IsIdPathPrefix(path, old(currentFocus)) then
        currentFocus == old(currentFocus) && focusChanges == old(focusChanges) && inputPathCalls == old(inputPathCalls)
      else
        currentFocus == path && focusChanges == old(focusChanges) + [(path, old(currentFocus))] &&
        inputPathCalls == old(inputPathCalls) + BlurCalls(instances, old(currentFocus))
    }

    /** `_setCurrentFocus`. */
    method SetCurrentFocus(path: FocusPath)
      modifies this`currentFocus, this`focusChanges, this`inputPathCalls
      ensures FocusSet(path)
    {
      if !IsIdPathPrefix(path, currentFocus) {
        var prevFocus := currentFocus;
        if prevFocus.Some? {
          BlurPath(prevFocus);
        }
        currentFocus := path;
        focusChanges := focusChanges + [(currentFocus, prevFocus)];
      }
    }

    /** `blurPath(path)`: only the focused path is blurred, by the widget it
        starts at; the focus itself is left to the widget's blur event. */
    method BlurPath(path: FocusPath)
      modifies this`inputPathCalls
      ensures inputPathCalls == old(inputPathCalls) + (if path == currentFocus then BlurCalls(instances, path) else [])
    {
      if path != currentFocus {
        return;
      }
      if path.Some? && |path.value| > 0 {
        var widget := Instance(instances, path.value[0]);
        if widget.Some? && widget.value.blurInputPath {
          inputPathCalls := inputPathCalls + [BlurInputPath(path.value[0], path.value[1..])];
        }
      }
    }

    /** `focusPath(path)`: nothing if the path is already focused; otherwise
        the focus is blurred and the widget the path starts at is asked to
        focus the rest. The focus itself changes only when the widget reports
        its focus event. */
    method FocusPath(path: FocusPath)
      modifies this`inputPathCalls
      ensures path == currentFocus ==> inputPathCalls == old(inputPathCalls)
      ensures path != currentFocus ==>
                inputPathCalls == old(inputPathCalls) + BlurCalls(instances, currentFocus) + FocusCalls(instances, path)
    {
      if path == currentFocus {
        return;
      }
      if currentFocus.Some? {
        BlurPath(currentFocus);
      }
      if path.Some? && |path.value| > 0 {
        var widget := Instance(instances, path.value[0]);
        if widget.Some? && widget.value.focusInputPath {
          inputPathCalls := inputPathCalls + [FocusInputPath(path.value[0], path.value[1..])];
        }
      }
    }

    /** `blur()`: blurs the focused path, if any. */
    method Blur()
      modifies this`inputPathCalls
      ensures inputPathCalls == old(inputPathCalls) + BlurCalls(instances, currentFocus)
    {
      if currentFocus.Some? {
        BlurPath(currentFocus);
      }
    }

    /** `_onWidgetFocus(id, focusPath)`: the widget's path becomes the focus. */
    method OnWidgetFocus(id: string, focusPath: Path)
      modifies this`currentFocus, this`focusChanges, this`inputPathCalls
      ensures FocusSet(Some([id] + focusPath))
    {
      SetCurrentFocus(Some([id] + focusPath));
    }

    /** `_onWidgetBlur(id, blurPath)`: a blur of a path that is not the focus
        is ignored (a focus came first); otherwise clearing the focus is
        deferred, so that a focus event of the same tick wins. */
    method OnWidgetBlur(id: string, blurPath: Path)
      modifies this`pendingBlurs
      ensures currentFocus == Some([id] + blurPath) ==> pendingBlurs == old(pendingBlurs) + [[id] + blurPath]
      ensures currentFocus != Some([id] + blurPath) ==> pendingBlurs == old(pendingBlurs)
    {
      var fullPath := [id] + blurPath;
      if currentFocus != Some(fullPath) {
        return;
      }
      pendingBlurs := pendingBlurs + [fullPath];
    }

    /** A deferred blur runs: the focus is cleared only if it is still the
        path that was blurred. */
    method RunPendingBlur(k: nat)
      requires k < |pendingBlurs|
      modifies this`pendingBlurs, this`currentFocus, this`focusChanges, this`inputPathCalls
      ensures pendingBlurs == old(pendingBlurs[..k] + pendingBlurs[k + 1..])
      ensures old(currentFocus) == Some(old(pendingBlurs[k])) ==> FocusSet(None) && currentFocus.None?
      ensures old(currentFocus) != Some(old(pendingBlurs[k])) ==>
                currentFocus == old(currentFocus) && focusChanges == old(focusChanges) &&
                inputPathCalls == old(inputPathCalls)
    {
      var blurring := pendingBlurs[k];
      pendingBlurs := pendingBlurs[..k] + pendingBlurs[k + 1..];
      if currentFocus == Some(blurring) {
        SetCurrentFocus(None);
      }
    }

    /** `focus()`: focuses the first rendered widget that accepts focus, and
        says whether there was one. A widget whose ID is empty does not count
        as found; an object result is logged as unexpected and its path used. */
    method Focus() returns (found: bool)
      modifies this`currentFocus, this`focusChanges, this`inputPathCalls, this`errors
      ensures var k := FirstFocusable(widgetIds, instances);
              found <==> k.Some? && widgetIds[k.value] != ""
      ensures !found ==> currentFocus == old(currentFocus) && focusChanges == old(focusChanges) &&
                         inputPathCalls == old(inputPathCalls) && errors == old(errors)
      ensures found ==>
                var id := widgetIds[FirstFocusable(widgetIds, instances).value];
                var result := instances[id].focus.value;
                FocusSet(Some(FocusedPath(id, result))) &&
                errors == old(errors) + (if result.FocusObject? then [FocusObjectError] else [])
    {
      var i := 0;
      var id := "";
      var focusResult := FocusTrue;
      while i < |widgetIds|
        invariant 0 <= i <= |widgetIds|
        invariant forall j :: 0 <= j < i ==> !(widgetIds[j] in instances && instances[widgetIds[j]].focus.Some?)
        invariant id == ""
      {
        var widget := Instance(instances, widgetIds[i]);
        if widget.Some? && widget.value.focus.Some? {
          id := widgetIds[i];
          focusResult := widget.value.focus.value;
          break;
        }
        i := i + 1;
      }
      assert i < |widgetIds| ==> FirstFocusable(widgetIds, instances) == Some(i) && id == widgetIds[i];
      assert i == |widgetIds| ==> FirstFocusable(widgetIds, instances).None?;
      if id == "" {
        return false;
      }
      if focusResult.FocusObject? {
        errors := errors + [FocusObjectError];
      }
      SetCurrentFocus(Some(FocusedPath(id, focusResult)));
      found := true;
    }

    /** `_setWidgetProps(id, newProps, cb, silent)`: the widget's props are
        extended with the new ones; a non-silent update makes the widget the
        last used one and reports the new serialized state; the continuation
        is deferred. */
    method SetWidgetProps(id: string, newProps: Value, callbackResult: Value, silent: bool)
      modifies this`widgetProps, this`lastUsedWidgetId, this`serializedUpdates, this`pendingChanges
      ensures widgetProps == old(widgetProps)[id := Extend(if id in old(widgetProps) then old(widgetProps)[id] else Undefined, newProps)]
      ensures lastUsedWidgetId == if silent then old(lastUsedWidgetId) else Some(id)
      ensures serializedUpdates == old(serializedUpdates) + (if silent then [] else [SerializedState(widgetProps, instances)])
      ensures pendingChanges == old(pendingChanges) + [WidgetChange(id, callbackResult, silent)]
    {
      var props := widgetProps[id := Extend(if id in widgetProps then widgetProps[id] else Undefined, newProps)];
      if !silent {
        lastUsedWidgetId := Some(id);
        serializedUpdates := serializedUpdates + [SerializedState(props, instances)];
      }
      widgetProps := props;
      pendingChanges := pendingChanges + [WidgetChange(id, callbackResult, silent)];
    }

    /** The deferred continuation of a props update runs: a non-silent update
        is reported as an interaction, and unless the callback returned
        `false` the widget becomes the focus. */
    method RunPendingChange(k: nat)
      requires k < |pendingChanges|
      modifies this`pendingChanges, this`interactions, this`currentFocus, this`focusChanges, this`inputPathCalls
      ensures pendingChanges == old(pendingChanges[..k] + pendingChanges[k + 1..])
      ensures var c := old(pendingChanges[k]);
              interactions == old(interactions) + (if c.silent then [] else [c.id])
      ensures var c := old(pendingChanges[k]);
              c.callbackResult != Bool(false) ==> FocusSet(Some([c.id]))
      ensures var c := old(pendingChanges[k]);
              c.callbackResult == Bool(false) ==>
                currentFocus == old(currentFocus) && focusChanges == old(focusChanges) && inputPathCalls == old(inputPathCalls)
    {
      var c := pendingChanges[k];
      pendingChanges := pendingChanges[..k] + pendingChanges[k + 1..];
      if !c.silent {
        interactions := interactions + [c.id];
      }
      if c.callbackResult != Bool(false) {
        SetCurrentFocus(Some([c.id]));
      }
    }

    /** `restoreSerializedState(state, callback)`: a state whose widget IDs are
        not those of the current props is refused with a logged error.
        Otherwise every widget gets its serialized props, or, when it restores
        itself, its current props extended with what its restore returns; the
        restore then waits for one callback per restoring widget and one
        deferred callback of its own, and returns its session. */
    method RestoreSerializedState(serialized: map<string, Value>, hasCallback: bool) returns (session: Option<nat>)
      requires Valid()
      modifies this`widgetProps, this`errors, this`pendingFires, this`sessions, this`nextSession
      ensures Valid()
      ensures serialized.Keys != old(widgetProps).Keys ==>
                session.None? && errors == old(errors) + [RestoreRefusedError] &&
                widgetProps == old(widgetProps) && pendingFires == old(pendingFires) &&
                sessions == old(sessions) && nextSession == old(nextSession)
      ensures serialized.Keys == old(widgetProps).Keys ==>
                var s := old(nextSession);
                var count := 1 + |Restorers(serialized, instances)|;
                session == Some(s) && errors == old(errors) &&
                widgetProps == RestoredProps(serialized, old(widgetProps), instances) &&
                sessions == old(sessions)[s := RestoreSession(count, hasCallback)] &&
                pendingFires == old(pendingFires)[s := count] && nextSession == s + 1
    {
      if !SameWidgetIds(serialized.Keys, widgetProps.Keys) {
        errors := errors + [RestoreRefusedError];
        return None;
      }
      var restored, numCallbacks := RestoreEach(serialized, widgetProps, instances);
      widgetProps := restored;
      var s := StartSession(numCallbacks, hasCallback);
      session := Some(s);
    }

    /** A new restore waiting for `count` callbacks: one per restoring widget,
        and the deferred call of the restore itself. */
    method StartSession(count: nat, hasCallback: bool) returns (s: nat)
      requires Valid() && count >= 1
      modifies this`pendingFires, this`sessions, this`nextSession
      ensures Valid()
      ensures s == old(nextSession) && nextSession == s + 1
      ensures sessions == old(sessions)[s := RestoreSession(count, hasCallback)]
      ensures pendingFires == old(pendingFires)[s := count]
    {
      StartKeepsAccounted(sessions, pendingFires, nextSession, completions, count, hasCallback);
      s := nextSession;
      pendingFires := pendingFires[s := count];
      sessions := sessions[s := RestoreSession(count, hasCallback)];
      nextSession := nextSession + 1;
    }

    /** A pending restore callback fires: one fewer to wait for; the last one
        calls the caller's callback, if there is one. */
    method RunPendingFire(s: nat)
      requires Valid() && s in pendingFires
      modifies this`pendingFires, this`sessions, this`completions
      ensures Valid()
      ensures pendingFires == old(pendingFires) - multiset{s}
      ensures s in old(sessions) &&
              sessions == old(sessions)[s := old(sessions)[s].(remaining := old(sessions)[s].remaining - 1)]
      ensures completions == old(completions) +
                (if old(sessions)[s].remaining == 1 && old(sessions)[s].hasCallback then [s] else [])
    {
      FireKeepsAccounted(sessions, pendingFires, nextSession, completions, s);
      var session := sessions[s];
      var remaining := session.remaining - 1;
      pendingFires := pendingFires - multiset{s};
      sessions := sessions[s := session.(remaining := remaining)];
      if session.hasCallback && remaining == 0 {
        completions := completions + [s];
      }
      assert RestoresAccounted(sessions, pendingFires, nextSession, completions);
    }

    /** `outputNested`, with the widget branch of `outputNode`: the walk the
        content's output is specified by, recording the rendered widget IDs. */
    method OutputNested(ast: Ast, placeholder: bool) returns (out: Out)
      modifies this`widgetIds
      ensures out == Output(ast, old(widgetIds), placeholder, widgetInfo).0
      ensures widgetIds == Output(ast, old(widgetIds), placeholder, widgetInfo).1
      decreases ast, 1
    {
      match ast
      case Nodes(items) =>
        var outs := OutputList(items, placeholder);
        out := OList(outs);
      case WidgetNode(id, _) =>
        if placeholder {
          out := OPlaceholder;
        } else if id in widgetIds {
          out := ODuplicate(DuplicateMessage(id));
        } else {
          widgetIds := widgetIds + [id];
          out := if id in widgetInfo && Truthy(widgetInfo[id]) then OWidget(id) else ONull;
        }
      case TextNode(text) =>
        out := OText(text);
      case OtherNode(kind, content) =>
        var outs := OutputList(content, placeholder);
        out := OElement(kind, outs);
    }

    /** The loop of `outputNested` over a node array: a string output right
        after a string output is appended to it. */
    method OutputList(items: seq<Ast>, placeholder: bool) returns (outs: seq<Out>)
      modifies this`widgetIds
      ensures outs == OutputSeq(items, old(widgetIds), placeholder, widgetInfo).0
      ensures widgetIds == OutputSeq(items, old(widgetIds), placeholder, widgetInfo).1
      decreases items, 0
    {
      ghost var seen := widgetIds;
      outs := [];
      var lastWasString := false;
      var i := 0;
      while i < |items|
        invariant 0 <= i <= |items|
        invariant outs == OutputSeq(items[..i], seen, placeholder, widgetInfo).0
        invariant widgetIds == OutputSeq(items[..i], seen, placeholder, widgetInfo).1
        invariant lastWasString <==> |outs| > 0 && outs[|outs| - 1].OText?
      {
        assert items[i] in items;
        OutputSeqStep(items, i, seen, placeholder, widgetInfo);
        var nodeOut := OutputNested(items[i], placeholder);
        outs := PushOutput(outs, nodeOut, lastWasString);
        lastWasString := nodeOut.OText?;
        i := i + 1;
      }
      assert items[..|items|] == items;
    }

    /** One more node of the array, as the loop of `outputNested` takes it. */
    lemma OutputSeqStep(items: seq<Ast>, i: nat, seen: seq<string>, placeholder: bool, info: map<string, Value>)
      requires i < |items|
      ensures var (outs, middle) := OutputSeq(items[..i], seen, placeholder, info);
              var (out, after) := Output(items[i], middle, placeholder, info);
              OutputSeq(items[..i + 1], seen, placeholder, info) == (MergeAppend(outs, out), after)
    {
      assert items[..i + 1] == items[..i] + [items[i]];
      OutputSeqSnoc(items[..i], items[i], seen, placeholder, info);
    }

    /** `render()`: the widget IDs are collected afresh while the content is
        output; without the placeholder they are the content's widget IDs in
        document order, each once. */
    method Render(ast: Ast, placeholder: bool) returns (out: Out)
      modifies this`widgetIds
      ensures out == Output(ast, [], placeholder, widgetInfo).0
      ensures placeholder ==> widgetIds == []
      ensures !placeholder ==> widgetIds == AddUnique([], DocIds(ast))
      ensures NoDuplicates(widgetIds)
      ensures forall id :: id in widgetIds <==> !placeholder && id in DocIds(ast)
    {
      widgetIds := [];
      out := OutputNested(ast, placeholder);
      OutputIds(ast, [], placeholder, widgetInfo);
      AddUniqueProperties([], DocIds(ast));
    }
  }
}
