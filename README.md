# Perseus widget bookkeeping and grading, in Dafny

This project models the logic inside Perseus, Khan Academy's exercise renderer,
and proves properties of that model. It covers the renderer's bookkeeping of
the widgets it renders, the grading and state rules of several widgets, and the
list editing done by three editors. React rendering, styling, markdown and the
DOM are outside the model.

One module per source file:

- `Common` (common.dfy): the JSON-like values that props, rubrics and
  serialized state hold, JavaScript truthiness, `_.extend`, `_.pick`,
  `_.omit`, `Array.prototype.filter`, `String(v)`, and the score every grading
  function returns (`Points(earned, total, message)` or `Invalid(message)`).
- `RendererOutput` (renderer_output.dfy): the definition of the
  renderer's walk over the parsed content. Widget nodes are rendered once per
  ID, in document order. A repeated ID renders an "already exists" error.
  Adjacent string outputs are merged.
- `Renderer` (renderer.dfy): the renderer as a class.
  - Its fields are the rendered widget IDs, the widget info and props, the
    last used widget and the current focus.
  - Its widgets are records of the optional methods each one offers.
  - What it reports to its owner is recorded in logs: focus changes, input
    path calls, logged errors, serialized state updates, interactions and
    completed restores.
  - Work it defers with `setTimeout` or `_.defer` is held in pending lists.
    An explicit step runs any one pending item.
  - Pure functions beside the class give scoring, user input, input paths,
    examples, `findInternalWidgets`, widget-info defaults and the focus-path
    prefix rule.
- `LightsPuzzle` (lights_puzzle.dfy): flipping tiles by a 3x3 pattern, the
  pattern rotation, the move counter, reset and grading.
- `Categorizer` (categorizer.dfy): completeness and correctness grading, the
  single-cell update, the selected-cell rule and the prop transforms.
- `Radio` (radio.dfy): the choice transform, with annotation, True/False
  ordering, optional shuffling and "None of the above" moved last. Also the
  counts in `transform` and the version-0 to version-1 prop upgrade.
- `StructuredItemDiff` (structured_item_diff.dfy): path comparison, titles,
  the walk that merges two ordered path lists along the item's shape, the tag
  partition and the separator rule. The walk is a function; the class that
  changes the three lists in place is proved to compute it. On the leaf lists
  of two versions of an item, the walk uses both lists up and yields every
  leaf path of either version once, in the shape's order.
- `TableEditor` (table_editor.dfy): resizing the answer grid with clamping,
  truncation and padding, and serialization.
- `ArticleEditor` (article_editor.dfy): moving, adding, removing and editing
  sections, and the mode checks of `serialize` and `getSaveWarnings`.
- `GradedGroupSet` (graded_group_set.dfy): the current-group index, the
  "next question" button and the indicator selection.
- `InputNumber` (input_number.dfy): the answer-type table, the examples shown,
  and the mapping from the answer checker's verdict to a score.
- `EmbeddedProgram` (embedded_program.dfy): the logic the iframe and CS
  program widgets share word for word. This is grading by reported status, the
  message-event rule, and building the settings object.
- `Iframe` (iframe.dfy) and `CsProgram` (cs_program.dfy): the frame each
  widget renders, meaning its sizes, URL, settings parameter and sandbox.
- `ExampleWidget` (example_widget.dfy): grading by string equality.
- `BlurInput` (blur_input.dfy): an input that reports its value to its owner
  only on blur.

Where the source calls a helper that is not part of this model, the model
takes the helper as a function parameter. This applies to the widget
registry's upgrade and start-props functions, the widget-ID pattern, the empty
score rule, the shuffle, the answer checker, the TeX parser, `toAbsoluteUrl`
and the tag-name lookup. Query strings are recorded as the list of parameters
set on a URL.

## Model

| member | source | states |
|---|---|---|
| Common.Extend | packages/perseus/src/renderer.jsx:455 | the result has the properties of both arguments, the second argument's overriding the first's |
| Common.MessageOrNull | packages/perseus/src/widgets/iframe.jsx:174 | a message is kept exactly when it is present and non-empty; otherwise null |
| Common.Filter | packages/perseus/src/renderer.jsx:1575-1591 | the kept elements, in order: a subsequence of the input holding every element the predicate keeps, and only such elements |
| Common.FilterMultiset | packages/perseus/src/renderer.jsx:1575-1591 | the elements a predicate keeps and those it drops together are the input, as a multiset |
| Common.FilterCount | packages/perseus/src/renderer.jsx:1575-1591 | filtering keeps every occurrence of a kept element and none of a dropped one |
| Common.FilterPermutation | packages/perseus/src/widgets/radio.jsx:96-108 | permutations of each other keep the same elements, as a multiset, under the same filter |
| Common.Pick | packages/perseus/src/widgets/categorizer.jsx:329 | exactly the listed properties the value has, unchanged |
| Common.Omit | packages/perseus/src/widgets/categorizer.jsx:334-340 | every property of the value but the one named, unchanged |
| Common.NatToString | packages/perseus/src/widgets/cs-program.jsx:152 | at least one character, and only decimal digits |
| Common.ParseNatToString | packages/perseus/src/widgets/cs-program.jsx:152 | reading the decimal digits back gives the number |
| Common.IntToString | packages/perseus/src/widgets/iframe.jsx:84 | decimal digits behind a minus sign exactly when the number is negative, and the digits read back as its absolute value |
| Common.ToString | packages/perseus/src/widgets/iframe.jsx:84-85 | `String(v)`: a string is kept, a number gives its digits behind a minus sign exactly when negative and reads back as itself, of the values that are not arrays only the empty string gives the empty string, and an array of two or more elements contains a comma |
| Renderer.IsIdPathPrefix | packages/perseus/src/renderer.jsx:62-75 | with no focus on either side, a prefix exactly when both are no focus; otherwise exactly when the first path is a prefix of the second |
| Renderer.ElementwisePrefix | packages/perseus/src/renderer.jsx:70-74 | comparing element by element, an element past the end matching nothing, is being a prefix |
| Renderer.IdPathPrefixOrder | packages/perseus/src/renderer.jsx:62-75 | the prefix relation on focus paths is reflexive, transitive and antisymmetric, and the empty path is a prefix of every focus |
| Renderer.BlurCalls | packages/perseus/src/renderer.jsx:1531-1549 | one blur call exactly when the path starts at a widget with `blurInputPath`, passing it the rest of the path; otherwise none |
| Renderer.FocusCalls | packages/perseus/src/renderer.jsx:1524-1528 | one focus call exactly when the path starts at a widget with `focusInputPath`, passing it the rest of the path; otherwise none |
| Renderer.FirstFocusable | packages/perseus/src/renderer.jsx:1416-1426 | the first rendered widget that accepts focus, with none before it; nothing when none accepts |
| Renderer.FocusedPath | packages/perseus/src/renderer.jsx:1428-1456 | the widget's ID, followed by the path of an object result, alone for any other result |
| Renderer.FirstWord | packages/perseus/src/renderer.jsx:450 | the longest space-free prefix of the ID: it ends at the first space or at the end |
| Renderer.FillDefaults | packages/perseus/src/renderer.jsx:446-458 | info with truthy type and alignment is kept as it is; otherwise a missing type becomes the ID's first word, a missing alignment "default", and every other property is kept |
| Renderer.AllWidgetsInfo | packages/perseus/src/renderer.jsx:443-461 | every widget, and no other, gets its info with defaults filled in and then upgraded |
| Renderer.DefaultWidgetInfo | packages/perseus/src/renderer.jsx:480-498 | an ID that is not a widget ID gets empty info; one that is gets exactly its type, graded true and empty options |
| Renderer.GetWidgetInfo | packages/perseus/src/renderer.jsx:500-507 | the widget's own info when truthy, else the default info of its ID |
| Renderer.SerializedState | packages/perseus/src/renderer.jsx:616-629 | one entry per widget with props: the widget's own serialized state when it offers one, else its props |
| Renderer.Prefixed | packages/perseus/src/renderer.jsx:1500-1504 | each input path of a widget, in order, behind the widget's ID |
| Renderer.InputPaths | packages/perseus/src/renderer.jsx:1492-1509 | every input path starts with the ID of a rendered widget that offers input paths |
| Renderer.InputPathsAreWidgets | packages/perseus/src/renderer.jsx:1492-1509 | a path is an input path of the renderer exactly when it is an input path of a rendered widget that offers them, behind that widget's ID |
| Renderer.IsGraded | packages/perseus/src/renderer.jsx:1716-1723 | a widget without info is graded; one with `graded: false` or a truthy static flag is not; one whose info holds only its type is |
| Renderer.GetUserInput | packages/perseus/src/renderer.jsx:1669-1678 | one entry per rendered widget, in order: its user input, or nothing when it offers none |
| Renderer.GetUserInputForWidgets | packages/perseus/src/renderer.jsx:1697-1705 | one entry for each rendered widget ID and no other |
| Renderer.UserInputAgree | packages/perseus/src/renderer.jsx:1669-1705 | the map of user inputs holds, for each rendered widget, the entry the list holds |
| Renderer.ScoreWidgets | packages/perseus/src/renderer.jsx:1712-1739 | a score exactly for the rendered widgets that are graded (flag null, missing or truthy), not static, and can validate themselves, each validated with the options of its info |
| Renderer.EmptyWidgets | packages/perseus/src/renderer.jsx:1575-1591 | the rendered widgets, in order, that are not static by their info and whose score counts as empty, and only those |
| Renderer.WidgetExamples | packages/perseus/src/renderer.jsx:1758-1765 | exactly the examples of the rendered widgets that offer them |
| Renderer.Examples | packages/perseus/src/renderer.jsx:1755-1782 | a list exactly when some rendered widget offers examples and all that offer them agree; then it is their common list |
| Renderer.FoundIds | packages/perseus/src/renderer.jsx:773-811 | the rendered IDs, in order, that match the criterion: the ID for a name with a space, the type for any other name, or the given predicate |
| Renderer.FindInternalWidgets | packages/perseus/src/renderer.jsx:804-810 | the instance of each selected widget, in order |
| Renderer.FindById | packages/perseus/src/renderer.jsx:781-789 | with distinct rendered IDs, a widget ID selects exactly that widget when it is rendered and nothing otherwise |
| Renderer.PushOutput | packages/perseus/src/renderer.jsx:1053-1067 | the loop body is the merging step that defines the output |
| Renderer.RestoreOne | packages/perseus/src/renderer.jsx:679-699 | a widget that restores itself gets its current props extended with what its restore returns, and counts a callback; any other gets its serialized props |
| Renderer.RestoreEach | packages/perseus/src/renderer.jsx:660-700 | the new props of every serialized widget, and one callback for the restore plus one per widget that restores itself |
| Renderer.RestoredValue | packages/perseus/src/renderer.jsx:672-694 | a widget without a restore method keeps its serialized props; one with it gets its current props and the restore result merged, the restore result winning on every shared key |
| Renderer.RestoredProps | packages/perseus/src/renderer.jsx:677-700 | exactly the serialized widgets, each with the props a restore gives it |
| Renderer.SameIdsCheck | packages/perseus/src/renderer.jsx:640-644 | equal counts and every serialized ID among the current ones is the same as equal ID sets |
| Renderer.SameWidgetIds | packages/perseus/src/renderer.jsx:636-644 | the key check passes exactly when the serialized and current IDs are the same set |
| Renderer.StartKeepsAccounted | packages/perseus/src/renderer.jsx:660-668 | a new restore waiting for at least one callback keeps every restore's pending count equal to its callbacks still to fire |
| Renderer.FireKeepsAccounted | packages/perseus/src/renderer.jsx:662-667 | a firing callback belongs to a restore, and firing it keeps the counts; the caller's callback is called once, when the last one fires |
| Renderer.Renderer.constructor | packages/perseus/src/renderer.jsx:432-478 | the widget info with defaults filled in and upgraded, the starting props of each widget, nothing rendered, focused or pending |
| Renderer.Renderer.SetCurrentFocus | packages/perseus/src/renderer.jsx:1391-1411 | nothing when the path is a prefix of the focus; otherwise the old focus is blurred, the path becomes the focus, and the change is reported with the old focus |
| Renderer.Renderer.BlurPath | packages/perseus/src/renderer.jsx:1531-1549 | only the focused path is blurred, by the widget it starts at, and the focus itself is kept |
| Renderer.Renderer.FocusPath | packages/perseus/src/renderer.jsx:1511-1529 | nothing when already focused; otherwise the focus is blurred and then the widget the path starts at asked to focus the rest |
| Renderer.Renderer.Blur | packages/perseus/src/renderer.jsx:1551-1555 | blurs the focused path, if any |
| Renderer.Renderer.OnWidgetFocus | packages/perseus/src/renderer.jsx:839-852 | the widget's ID followed by its path is set as the focus |
| Renderer.Renderer.OnWidgetBlur | packages/perseus/src/renderer.jsx:854-877 | a blur of the focused path defers clearing it; a blur of any other path is ignored |
| Renderer.Renderer.RunPendingBlur | packages/perseus/src/renderer.jsx:870-876 | the deferred blur clears the focus only if it is still the blurred path |
| Renderer.Renderer.Focus | packages/perseus/src/renderer.jsx:1413-1460 | found exactly when the first widget accepting focus exists and has a non-empty ID; then its path is set as the focus, an object result logging an error; otherwise nothing changes |
| Renderer.Renderer.SetWidgetProps | packages/perseus/src/renderer.jsx:1593-1651 | the widget's props are extended with the new ones; a non-silent update marks the widget last used and reports the new serialized state; the continuation is deferred |
| Renderer.Renderer.RunPendingChange | packages/perseus/src/renderer.jsx:1627-1648 | the deferred continuation reports a non-silent update as an interaction, and focuses the widget unless its callback returned false |
| Renderer.Renderer.RestoreSerializedState | packages/perseus/src/renderer.jsx:631-707 | a state whose IDs differ from the current ones is refused with a logged error and nothing else changes; otherwise every widget gets its restored props and a restore starts that waits for one callback per restoring widget plus its own |
| Renderer.Renderer.StartSession | packages/perseus/src/renderer.jsx:660-668 | a new restore is recorded with its callback count, keeping the bookkeeping |
| Renderer.Renderer.RunPendingFire | packages/perseus/src/renderer.jsx:662-667 | a fired callback lowers its restore's count by one, and the caller's callback is called exactly when that was the last and there is one |
| Renderer.Renderer.OutputNested | packages/perseus/src/renderer.jsx:1040-1121 | the walk produces the specified output and records the specified widget IDs |
| Renderer.Renderer.OutputList | packages/perseus/src/renderer.jsx:1044-1072 | the loop over a node array produces the specified merged outputs and widget IDs |
| Renderer.Renderer.Render | packages/perseus/src/renderer.jsx:1806 | the widget IDs are collected afresh: without the placeholder they are the content's widget IDs in document order, each once, and with it none |
| RendererOutput.OutputWidget | packages/perseus/src/renderer.jsx:1090-1121 | the placeholder exactly when that option is set; the "already exists" error exactly when the ID was rendered before; a widget container for exactly that ID when the ID is new and has truthy widget info; the new ID is recorded after the others and only when no placeholder is used, so IDs stay unique |
| RendererOutput.Output | packages/perseus/src/renderer.jsx:1073-1122 | the IDs rendered before a node stay first, in their order, after it |
| RendererOutput.OutputSeq | packages/perseus/src/renderer.jsx:1040-1072 | the IDs rendered before a node array stay first, in their order, after it |
| RendererOutput.MergeAppend | packages/perseus/src/renderer.jsx:1053-1067 | a string output after a string output is appended to it; anything else is pushed |
| RendererOutput.OutputSeqSnoc | packages/perseus/src/renderer.jsx:1053-1067 | outputting one more node merges its output into the outputs so far |
| RendererOutput.AddUniqueConcat | packages/perseus/src/renderer.jsx:1099-1118 | recording the IDs of two pieces of content one after the other is recording those of both |
| RendererOutput.AddUniqueProperties | packages/perseus/src/renderer.jsx:1099-1118 | recording IDs keeps those already recorded first, never records an ID twice, and holds exactly the IDs seen or added |
| RendererOutput.OutputIds | packages/perseus/src/renderer.jsx:1090-1121 | without the placeholder the walk records exactly the new widget IDs of the content in document order, each once; with it, none |
| RendererOutput.OutputSeqIds | packages/perseus/src/renderer.jsx:1040-1072 | the same for a node array |
| RendererOutput.MergeAppendKeeps | packages/perseus/src/renderer.jsx:1053-1067 | a merging step keeps neighbouring outputs from both being strings, loses no text and reorders nothing |
| RendererOutput.OutputSeqMerged | packages/perseus/src/renderer.jsx:1040-1072 | the output of every node array has no two neighbouring strings |
| LightsPuzzle.Pattern | packages/perseus/src/widgets/lights-puzzle.jsx:65-79 | every pattern is a 3x3 grid with its centre lit; under "plus/x" odd moves use the x and even moves the plus |
| LightsPuzzle.PlusXAlternates | packages/perseus/src/widgets/lights-puzzle.jsx:76-78 | under "plus/x" two consecutive moves never use the same pattern |
| LightsPuzzle.ClampToInt | packages/perseus/src/widgets/lights-puzzle.jsx:84-89 | the result lies in [min, max]; it is the floor of the value when that is in range, else the bound it passed |
| LightsPuzzle.FlipTilesPredicate | packages/perseus/src/widgets/lights-puzzle.jsx:151-157 | the grid keeps its shape and a cell changes exactly when the predicate holds at its position |
| LightsPuzzle.FlipTilesPattern | packages/perseus/src/widgets/lights-puzzle.jsx:159-169 | cells outside the 3x3 window around the tile are untouched; inside it a cell changes exactly when the pattern says so |
| LightsPuzzle.FlipTwice | packages/perseus/src/widgets/lights-puzzle.jsx:159-169 | clicking the same tile twice with the same pattern restores the grid |
| LightsPuzzle.Width | packages/perseus/src/widgets/lights-puzzle.jsx:241-246 | an empty grid has width 0; a rectangular grid has the length of its rows |
| LightsPuzzle.MatchesStartFrom | packages/perseus/src/widgets/lights-puzzle.jsx:301-305 | the emptiness check: true exactly when every row equals the start row; it fails (the source's TypeError) only when a non-empty row has no start row |
| LightsPuzzle.Validate | packages/perseus/src/widgets/lights-puzzle.jsx:300-337 | an untouched grid is invalid with the click message, an all-on grid earns 1/1, an incomplete one earns 0/1 or is invalid with the "turn on all" message, as the rubric says |
| LightsPuzzle.TransformProps | packages/perseus/src/widgets/lights-puzzle.jsx:342-348 | the widget starts from the editor's start grid, with the editor's flip pattern |
| LightsPuzzle.FreshPuzzleIsInvalid | packages/perseus/src/widgets/lights-puzzle.jsx:300-348 | a freshly transformed puzzle always grades as "nothing clicked yet" |
| LightsPuzzle.Puzzle.constructor | packages/perseus/src/widgets/lights-puzzle.jsx:248-250 | mounting sets up the rotation: current and next patterns are the table's entries 0 and 1 |
| LightsPuzzle.Puzzle.InitNextPatterns | packages/perseus/src/widgets/lights-puzzle.jsx:258-262 | the rotation restarts at entries 0 and 1, with index 2 |
| LightsPuzzle.Puzzle.ShiftPatterns | packages/perseus/src/widgets/lights-puzzle.jsx:264-270 | the next pattern becomes current, the next is the table's entry for the index, and the index advances by one |
| LightsPuzzle.Puzzle.SetFlipPattern | packages/perseus/src/widgets/lights-puzzle.jsx:252-256 | a changed flip pattern restarts the rotation; an unchanged one leaves it alone |
| LightsPuzzle.Puzzle.FlipTile | packages/perseus/src/widgets/lights-puzzle.jsx:272-285 | the grid is flipped by the pattern of this move, the rotation advances and exactly one move is counted |
| LightsPuzzle.Puzzle.Reset | packages/perseus/src/widgets/lights-puzzle.jsx:287-292 | back to the start grid with no moves counted |
| Categorizer.Validate | packages/perseus/src/widgets/categorizer.jsx:224-249 | invalid, with the "select something for every row" message, exactly when a row the rubric lists has no choice; otherwise 1/1 exactly when every listed row matches the rubric and 0/1 otherwise, with no message |
| Categorizer.WithChoice | packages/perseus/src/widgets/categorizer.jsx:213-215 | the chosen row holds the category, the list grows to reach that row, and every other row keeps its value |
| Categorizer.ChoiceSelectsOneCell | packages/perseus/src/widgets/categorizer.jsx:113-115 | after a choice the chosen cell is the only selected cell of its row, and no other row's selection changes |
| Categorizer.Widget.constructor | packages/perseus/src/widgets/categorizer.jsx:43-53 | the widget holds the values it is given and has reported no interaction |
| Categorizer.Widget.OnChange | packages/perseus/src/widgets/categorizer.jsx:213-218 | the values become the chosen ones and exactly one interaction is reported |
| Categorizer.Transform | packages/perseus/src/widgets/categorizer.jsx:326-330 | the render props hold exactly those of items, categories and randomizeItems that the options have, unchanged |
| Categorizer.StaticTransform | packages/perseus/src/widgets/categorizer.jsx:331-341 | the same, with the answer values added |
| Categorizer.StaticTransformAddsOnlyValues | packages/perseus/src/widgets/categorizer.jsx:326-341 | the static props without values are exactly the ordinary props |
| Radio.AddMetadata | packages/perseus/src/widgets/radio.jsx:73-81 | each choice keeps its content and "None of the above" flag, gets its position as originalIndex and its correct value coerced to a boolean |
| Radio.SeedOf | packages/perseus/src/widgets/radio.jsx:30 | the random function seeds the shuffle exactly when problemNum is undefined; a number seeds it with itself and null with 0 |
| Radio.MaybeRandomize | packages/perseus/src/widgets/radio.jsx:29-40 | the choices are shuffled, with that seed, only when randomize is set |
| Radio.EnforceOrdering | packages/perseus/src/widgets/radio.jsx:63-71 | exactly a False/True or No/Yes pair is swapped, every other list is kept, and either way the choices are the same |
| Radio.LastNotaIndex | packages/perseus/src/widgets/radio.jsx:45-53 | the index of a "None of the above" choice with none after it, or -1 when there is none |
| Radio.LastNota | packages/perseus/src/widgets/radio.jsx:45-53 | none exactly when no choice is "None of the above"; otherwise a "None of the above" choice with none after it |
| Radio.AddNoneOfAbove | packages/perseus/src/widgets/radio.jsx:42-61 | nothing new appears, every choice that is not "None of the above" is kept, and the list ends with a "None of the above" exactly when the input has one |
| Radio.AddNoneOfAboveKeepsOrder | packages/perseus/src/widgets/radio.jsx:42-61 | the choices that are not "None of the above" keep their order, and the list grows by exactly one "None of the above" when the input has any |
| Radio.NotaLast | packages/perseus/src/widgets/radio.jsx:42-61 | after the transform a "None of the above" choice can only be the last one |
| Radio.SplitNota | packages/perseus/src/widgets/radio.jsx:47-53 | every choice is either kept by the filter or is a "None of the above" |
| Radio.NotasOfLastNota | packages/perseus/src/widgets/radio.jsx:45-58 | with at most one "None of the above", it is exactly the one the filter remembers |
| Radio.AddNoneOfAbovePermutes | packages/perseus/src/widgets/radio.jsx:42-61 | with at most one "None of the above", moving it last only reorders the choices |
| Radio.ChoiceTransform | packages/perseus/src/widgets/radio.jsx:25-94 | a "None of the above" can only be the last choice; unless a shuffle that does more than reorder is used, every rendered choice is the editor's choice at its originalIndex, annotated |
| Radio.ChoiceTransformPermutes | packages/perseus/src/widgets/radio.jsx:25-94 | unless a shuffle that does more than reorder is used, and with at most one "None of the above", the rendered choices are the annotated editor choices, each exactly once |
| Radio.Transform | packages/perseus/src/widgets/radio.jsx:96-122 | numCorrect counts the truthy correct flags of the editor's choices, choices are the transformed ones, selectedChoices are their correct flags in order, and the other options pass through |
| Radio.CountCorrect | packages/perseus/src/widgets/radio.jsx:102-108 | numCorrect is at most the number of choices, zero exactly when no choice is correct and the number of choices exactly when all are |
| Radio.CountCorrectAnnotated | packages/perseus/src/widgets/radio.jsx:73-81 | counting correct choices after annotation gives numCorrect's count |
| Radio.FilterCorrectSameFlags | packages/perseus/src/widgets/radio.jsx:73-81 | lists with the same correct flags have as many correct entries |
| Radio.SelectedChoicesCountCorrect | packages/perseus/src/widgets/radio.jsx:96-122 | when the shuffle only reorders and there is at most one "None of the above", exactly numCorrect of the rendered choices are correct |
| Radio.PropUpgrade1 | packages/perseus/src/widgets/radio.jsx:124-143 | an automatic "None of the above" is an error; otherwise noneOfTheAbove is dropped, choices kept, hasNoneOfTheAbove set to false and every other property left unchanged |
| StructuredItemDiff.BeginsWith | packages/perseus-editor/src/diffs/structured-item-diff.jsx:24-35 | true exactly when beginPath is a prefix of path |
| StructuredItemDiff.CheckPath | packages/perseus-editor/src/diffs/structured-item-diff.jsx:40-50 | true exactly when the two paths are equal |
| StructuredItemDiff.TitlePart | packages/perseus-editor/src/diffs/structured-item-diff.jsx:58-62 | an index becomes its one-based number followed by a colon, and the digits read back as that number; a key stays as it is |
| StructuredItemDiff.GetTitle | packages/perseus-editor/src/diffs/structured-item-diff.jsx:55-65 | the title is the title parts of the path's elements, in order, joined with single spaces |
| StructuredItemDiff.Join | packages/perseus-editor/src/diffs/structured-item-diff.jsx:55-65 | joining the title parts: no parts give the empty string, the first part starts the title, and the title is as long as the parts plus one separator between each two |
| StructuredItemDiff.Walk | packages/perseus-editor/src/diffs/structured-item-diff.jsx:88-154 | whatever the lists and the shape, the walk only removes elements from the front of the lists |
| StructuredItemDiff.WalkArray | packages/perseus-editor/src/diffs/structured-item-diff.jsx:118-140 | the array loop only removes elements from the front of the lists |
| StructuredItemDiff.WalkObject | packages/perseus-editor/src/diffs/structured-item-diff.jsx:141-152 | the key loop only removes elements from the front of the lists |
| StructuredItemDiff.WalkArrayStep | packages/perseus-editor/src/diffs/structured-item-diff.jsx:126-139 | while a head begins with the next index, one turn walks that element and moves on to the next index |
| StructuredItemDiff.WalkArrayStop | packages/perseus-editor/src/diffs/structured-item-diff.jsx:126-130 | when no head begins with the next index, the loop ends and changes nothing |
| StructuredItemDiff.PathWalk.constructor | packages/perseus-editor/src/diffs/structured-item-diff.jsx:176-179 | the walk starts from copies of both leaf lists and an empty result |
| StructuredItemDiff.PathWalk.GenerateCompletePathsList | packages/perseus-editor/src/diffs/structured-item-diff.jsx:88-154 | the lists and the result it leaves are exactly those of the walk started from the old lists and result |
| StructuredItemDiff.PathWalk.VisitLeaf | packages/perseus-editor/src/diffs/structured-item-diff.jsx:98-117 | the path is added once when the head of either list equals it, and exactly the heads equal to it are removed |
| StructuredItemDiff.PathWalk.VisitArray | packages/perseus-editor/src/diffs/structured-item-diff.jsx:118-140 | the loop over indices ends, and the lists and result it leaves are those of the array loop started at index 0 |
| StructuredItemDiff.PathWalk.VisitIndex | packages/perseus-editor/src/diffs/structured-item-diff.jsx:131-139 | walking one element takes the array loop from this index to the next; either a list shrinks, or nothing changes and the head that began with the index is left behind |
| StructuredItemDiff.PathWalk.VisitObject | packages/perseus-editor/src/diffs/structured-item-diff.jsx:141-152 | the keys are walked in order, leaving the lists and result of the key loop |
| StructuredItemDiff.PathWalk.HeadBeginsWith | packages/perseus-editor/src/diffs/structured-item-diff.jsx:126-130 | the loop condition holds exactly when the head of either list begins with the new path |
| StructuredItemDiff.CompletePaths | packages/perseus-editor/src/diffs/structured-item-diff.jsx:176-186 | the merged list is the walk from the root over copies of both lists, and every merged path comes from one of the two leaf lists |
| StructuredItemDiff.WalkAccounted | packages/perseus-editor/src/diffs/structured-item-diff.jsx:88-154 | whatever the lists, every path the walk adds lies below its path and was removed from one list, and every path it removes is added |
| StructuredItemDiff.AccountedTrans | packages/perseus-editor/src/diffs/structured-item-diff.jsx:131-151 | two walk steps in a row, the second below a longer path, account for everything together |
| StructuredItemDiff.LeafAccounted | packages/perseus-editor/src/diffs/structured-item-diff.jsx:107-117 | a leaf step accounts for what it removed and added |
| StructuredItemDiff.NoProgressMeansHeadPassed | packages/perseus-editor/src/diffs/structured-item-diff.jsx:126-139 | an element visit that removed nothing leaves the head that began with its index behind, so the loop ends |
| StructuredItemDiff.ShapePaths | packages/perseus-editor/src/diffs/structured-item-diff.jsx:82-87 | every path of the merge of two versions below a path lies below that path |
| StructuredItemDiff.ElementPaths | packages/perseus-editor/src/diffs/structured-item-diff.jsx:118-140 | the merged paths of the array elements from index i on lie below the array's path, under an index of at least i |
| StructuredItemDiff.FieldPaths | packages/perseus-editor/src/diffs/structured-item-diff.jsx:141-152 | the merged paths of the object children from the jth key on lie below the object's path, under one of the remaining keys |
| StructuredItemDiff.WalkMerges | packages/perseus-editor/src/diffs/structured-item-diff.jsx:82-154 | started on the leaf lists of two versions below a path, followed by paths outside it, the walk removes exactly those leaf paths and appends their merge in the shape's order |
| StructuredItemDiff.CompletePathsMerges | packages/perseus-editor/src/diffs/structured-item-diff.jsx:159-186 | when the lists are the mapper's leaf lists of the two versions, both are used up and the result is the merge of their leaf paths in the shape's order |
| StructuredItemDiff.ShapePathsUnion | packages/perseus-editor/src/diffs/structured-item-diff.jsx:159-186 | a path is merged exactly when it is a leaf path of either version |
| StructuredItemDiff.ShapePathsNoDuplicates | packages/perseus-editor/src/diffs/structured-item-diff.jsx:176-186 | for a shape whose objects have distinct keys, each path is merged once |
| StructuredItemDiff.EmptyElementStopsWalk | packages/perseus-editor/src/diffs/structured-item-diff.jsx:126-140 | an array whose element 0 has no leaf stops the loop at once: a leaf under element 1 is neither removed nor merged |
| StructuredItemDiff.NamesOfStrings | packages/perseus-editor/src/diffs/structured-item-diff.jsx:209-224 | the name of every string entry, and nothing but names of string entries, at most one per entry |
| StructuredItemDiff.NamesOfStringsInOrder | packages/perseus-editor/src/diffs/structured-item-diff.jsx:209-224 | one name per string entry, in the order of the entries: the kth name is the name of the kth string entry |
| StructuredItemDiff.TagNames | packages/perseus-editor/src/diffs/structured-item-diff.jsx:209-224 | a value that is not an array gives no names; an array gives one name per string entry, the kth name being that of the kth string entry |
| StructuredItemDiff.PartitionTags | packages/perseus-editor/src/diffs/structured-item-diff.jsx:226-234 | the shared and the old-only tags together are as many as the old tags, and there are no more new-only tags than new tags |
| StructuredItemDiff.PartitionTagsSplitsBefore | packages/perseus-editor/src/diffs/structured-item-diff.jsx:226-231 | the shared and the old-only tags together are exactly the old tags |
| StructuredItemDiff.SplitByMembership | packages/perseus-editor/src/diffs/structured-item-diff.jsx:226-234 | filtering by membership and by non-membership splits a list without loss |
| StructuredItemDiff.PartitionTagsMembers | packages/perseus-editor/src/diffs/structured-item-diff.jsx:226-234 | each list keeps the order of its source and holds exactly the tags its name says: in both, only in the old, only in the new |
| StructuredItemDiff.ShowSeparators | packages/perseus-editor/src/diffs/structured-item-diff.jsx:242 | every diff but the last shows a separator |
| TableEditor.Clamp | packages/perseus-editor/src/widgets/table-editor.jsx:117-118 | the result lies in [lo, hi]; it is the value when that is in range, else the bound it passed |
| TableEditor.Blank | packages/perseus-editor/src/widgets/table-editor.jsx:128 | a row of the given width, every cell empty |
| TableEditor.FixColumnSizing | packages/perseus-editor/src/widgets/table-editor.jsx:132-141 | the row gets exactly the new width, keeps the cells that still fit and is padded with empty cells |
| TableEditor.Editor.Default | packages/perseus-editor/src/widgets/table-editor.jsx:26-38 | 4 rows, 1 column, one blank header and blank answers |
| TableEditor.Editor.OnSizeInput | packages/perseus-editor/src/widgets/table-editor.jsx:114-153 | rows clamped to [1, 30] and columns to [1, 6], a missing size counting as 0; the cells and headers that still fit are kept, new ones are empty, and the new props are reported once |
| TableEditor.Editor.OnColumnsInput | packages/perseus-editor/src/widgets/table-editor.jsx:71-75 | a falsy column count changes nothing and reports nothing; any other sets the columns clamped to [1, 6] and keeps the rows, every cell and header that still fits, makes new cells and headers empty, and reports the new props once |
| TableEditor.Editor.OnRowsInput | packages/perseus-editor/src/widgets/table-editor.jsx:87-91 | a falsy row count changes nothing and reports nothing; any other sets the rows clamped to [1, 30] and keeps the columns, the headers and every cell that still fits, makes new cells empty, and reports the new props once |
| TableEditor.Editor.Serialize | packages/perseus-editor/src/widgets/table-editor.jsx:155-161 | the headers, the size and a row-by-row copy of the answers; after a resize, exactly what onChange last received |
| ArticleEditor.Sections | packages/perseus-editor/src/article-editor.jsx:129-133 | an array json is the list of sections itself; any other json is a single section |
| ArticleEditor.RemoveAt | packages/perseus-editor/src/article-editor.jsx:369 | one fewer element: those before the position stay, those after move down by one |
| ArticleEditor.InsertAt | packages/perseus-editor/src/article-editor.jsx:361 | the new element is at the position, those before it stay and those after move up by one |
| ArticleEditor.Swap | packages/perseus-editor/src/article-editor.jsx:319-343 | two sections trade places, every other one stays, and the sections are the same |
| ArticleEditor.MoveEarlierIsSwap | packages/perseus-editor/src/article-editor.jsx:324-326 | taking a section out and putting it back one place earlier swaps it with its predecessor |
| ArticleEditor.MoveLaterIsSwap | packages/perseus-editor/src/article-editor.jsx:337-339 | taking a section out and putting it back one place later swaps it with its successor |
| ArticleEditor.Serialize | packages/perseus-editor/src/article-editor.jsx:375-389 | edit mode serializes every section through its editor, in order; preview and json modes return the json; any other mode is an error |
| ArticleEditor.GetSaveWarnings | packages/perseus-editor/src/article-editor.jsx:397-411 | outside edit mode an error; in edit mode one entry per section, from that section's editor |
| ArticleEditor.Editor.constructor | packages/perseus-editor/src/article-editor.jsx:129-133 | the editor holds the json and mode it is given and has reported nothing |
| ArticleEditor.Editor.Change | packages/perseus-editor/src/article-editor.jsx:316 | the owner receives and adopts the new list of sections |
| ArticleEditor.Editor.HandleEditorChange | packages/perseus-editor/src/article-editor.jsx:310-317 | section i becomes its old props extended by the new ones; every other section stays; one change is reported |
| ArticleEditor.Editor.HandleMoveSectionEarlier | packages/perseus-editor/src/article-editor.jsx:319-330 | the first section does not move and nothing is reported; any other swaps with its predecessor and the sections stay the same |
| ArticleEditor.Editor.HandleMoveSectionLater | packages/perseus-editor/src/article-editor.jsx:332-343 | the last section does not move and nothing is reported; any other swaps with its successor and the sections stay the same |
| ArticleEditor.Editor.HandleAddSectionAfter | packages/perseus-editor/src/article-editor.jsx:345-365 | a section holding only section i's widgets (empty for i = -1) is inserted after section i of the full serialization; a failing serialization, or one that is not a list, changes nothing |
| ArticleEditor.Editor.HandleRemoveSection | packages/perseus-editor/src/article-editor.jsx:367-373 | exactly section i is removed and the rest keep their order; one change is reported |
| GradedGroupSet.Render | packages/perseus/src/widgets/graded-group-set.jsx:148-222 | with the translation tool and more than one group, all groups; otherwise the current group if the index names one, offering "next question" exactly when it is not the last, with exactly its indicator selected; otherwise the placeholder |
| GradedGroupSet.TraverseChildWidgets | packages/perseus/src/widgets/graded-group-set.jsx:225-233 | an object whose only property, `groups`, lists every group in order, each passed through the traversal |
| GradedGroupSet.Widget.constructor | packages/perseus/src/widgets/graded-group-set.jsx:99-102 | the set starts at group 0 |
| GradedGroupSet.Widget.HandleNextQuestion | packages/perseus/src/widgets/graded-group-set.jsx:139-146 | moves one group forward unless at the last group, and never leaves the list |
| GradedGroupSet.Widget.OnIndicatorClick | packages/perseus/src/widgets/graded-group-set.jsx:41-69 | clicking an indicator makes its group current |
| GradedGroupSet.Widget.OnIndicatorKeyDown | packages/perseus/src/widgets/graded-group-set.jsx:35-39 | Enter or space on an indicator makes its group current; any other key changes nothing |
| GradedGroupSet.NextQuestionReachesLast | packages/perseus/src/widgets/graded-group-set.jsx:139-146 | pressing "next question" n times advances n groups, stopping at the last |
| BlurInput.Step | packages/perseus-editor/src/components/blur-input.jsx:36-46 | typing changes only the shown value, a blur reports the shown value to the owner, and new props replace the shown value |
| BlurInput.OneReportPerBlur | packages/perseus-editor/src/components/blur-input.jsx:40-46 | over any sequence of events the owner receives exactly one report per blur, after the earlier ones |
| BlurInput.TypingIsLocal | packages/perseus-editor/src/components/blur-input.jsx:40-42 | typing alone reports nothing and shows the last text typed |
| BlurInput.Input.constructor | packages/perseus-editor/src/components/blur-input.jsx:31-34 | the input starts by showing its value prop, with nothing reported |
| BlurInput.Input.HandleChange | packages/perseus-editor/src/components/blur-input.jsx:40-42 | the component takes the step of a typed event |
| BlurInput.Input.HandleBlur | packages/perseus-editor/src/components/blur-input.jsx:44-46 | the component takes the step of a blur |
| BlurInput.Input.ReceiveProps | packages/perseus-editor/src/components/blur-input.jsx:36-38 | the component takes the step of new props |
| ExampleWidget.Validate | packages/perseus-editor/src/widgets/example-widget.jsx:65-88 | invalid, with the "haven't answered" message, exactly for an empty answer; otherwise 1/1 exactly when the answer equals the rubric's correct value and 0/1 otherwise, with no message |
| ExampleWidget.GetUserInput | packages/perseus-editor/src/widgets/example-widget.jsx:108-110 | the user input is the value prop |
| ExampleWidget.SimpleValidate | packages/perseus-editor/src/widgets/example-widget.jsx:135-137 | the widget is graded on its own current value |
| ExampleWidget.CorrectAnswerScoresFull | packages/perseus-editor/src/widgets/example-widget.jsx:65-88 | a non-empty answer earns 1/1 against itself and 0/1 against any other correct value |
| InputNumber.AnswerTypeNamed | packages/perseus/src/widgets/input-number.jsx:37-70 | a key is found in the answer-type table only as the key of the type found |
| InputNumber.AnswerTypeKeyRoundTrip | packages/perseus/src/widgets/input-number.jsx:37-70 | every answer type of the table is found again under its own key |
| InputNumber.Forms | packages/perseus/src/widgets/input-number.jsx:37-70 | every answer type accepts at least one form and none twice; percents exactly for "Numbers or percents"; pi only on its own |
| InputNumber.FormsNest | packages/perseus/src/widgets/input-number.jsx:37-70 | "Numbers or percents" is "Numbers" plus percents, every type but percents and pi accepts only forms "Numbers" accepts, and "Numbers" accepts every form but percent and pi |
| InputNumber.FormExample | packages/perseus/src/widgets/input-number.jsx:72-103 | every form has a non-empty example |
| InputNumber.FormExampleSimplify | packages/perseus/src/widgets/input-number.jsx:72-103 | only the proper and improper fraction examples depend on the simplify option, and they change exactly when simplifying becomes optional or stops being so |
| InputNumber.FormExamples | packages/perseus/src/widgets/input-number.jsx:72-103 | one example per form, in the order of the forms |
| InputNumber.Examples | packages/perseus/src/widgets/input-number.jsx:332-346 | the header followed by exactly one example per form of the answer type, in table order |
| InputNumber.ShouldShowExamples | packages/perseus/src/widgets/input-number.jsx:147-152 | plain numbers and static renders never show examples; every other known answer type does when the render is not static |
| InputNumber.ShownExamplesDiffer | packages/perseus/src/widgets/input-number.jsx:147-152 | whenever examples are shown, the answer type's forms and examples differ from those of plain numbers |
| InputNumber.GetInputPaths | packages/perseus/src/widgets/input-number.jsx:293-298 | the widget's one input is at the empty path |
| InputNumber.GetUserInputFromProps | packages/perseus/src/widgets/input-number.jsx:399-403 | the user input is the current value |
| InputNumber.Rubric.constructor | packages/perseus/src/widgets/input-number.jsx:112 | a rubric holds the answer type, value, simplify, inexact and max-error options |
| InputNumber.ScoreOf | packages/perseus/src/widgets/input-number.jsx:379-396 | invalid exactly when the checker finds the answer empty, with no message exactly when the error handler returned false; otherwise 1/1 exactly when correct and 0/1 otherwise, with the checker's message |
| InputNumber.Grade | packages/perseus/src/widgets/input-number.jsx:357-396 | an error exactly when the answer type is not in the table; otherwise the score of the checker built from the value as a string, the type's forms and `inexact` only when truthy, applied to the parsed input |
| InputNumber.Validate | packages/perseus/src/widgets/input-number.jsx:348-397 | a missing answer type becomes "number" in the rubric itself, any other is kept, and the result is the grade under the settled type |
| InputNumber.SimpleValidate | packages/perseus/src/widgets/input-number.jsx:324-330 | the widget's own current value is graded, and the rubric's answer type is settled as in validate |
| InputNumber.NoHandlerKeepsMessage | packages/perseus/src/widgets/input-number.jsx:379-390 | without an error handler an empty answer is invalid with the checker's message |
| InputNumber.GetOneCorrectAnswerFromRubric | packages/perseus/src/widgets/input-number.jsx:405-414 | nothing exactly when the value is null or undefined; otherwise the value as a string, followed by " ± " and the error exactly when inexact and the error are both truthy |
| EmbeddedProgram.Validate | packages/perseus/src/widgets/iframe.jsx:166-189 | "correct" earns 1/1 and "incorrect" 0/1, both with the program's message or null; any other status, and only such a status, is invalid with the "keep going" message |
| EmbeddedProgram.MessageRule | packages/perseus/src/widgets/iframe.jsx:52-72 | data that is not JSON, or has no `testsPassed`, is ignored; JSON null, and only that, makes reading `testsPassed` fail; otherwise the status is "correct" exactly when `testsPassed` is truthy, and the message is the data's message |
| EmbeddedProgram.ReportedResultIsGraded | packages/perseus/src/widgets/iframe.jsx:52-72 | once a program reports test results the widget is gradable, earning its one point exactly when the tests passed |
| EmbeddedProgram.Program.constructor | packages/perseus/src/widgets/iframe.jsx:40-46 | a mounted program starts "incomplete" with no message |
| EmbeddedProgram.Program.HandleMessageEvent | packages/perseus/src/widgets/cs-program.jsx:98-118 | a message event fails exactly when the rule fails; an ignored or failing message changes nothing; otherwise the status and message become those the rule gives and that change is reported once to the owner |
| EmbeddedProgram.Program.SimpleValidate | packages/perseus/src/widgets/cs-program.jsx:125-133 | the widget is graded on its own status and message, and earns points exactly when the status is "correct" or "incorrect" |
| EmbeddedProgram.LastSetter | packages/perseus/src/widgets/iframe.jsx:114-120 | the index of an entry setting the key with no later entry setting it, or -1 when none does |
| EmbeddedProgram.SettingsOf | packages/perseus/src/widgets/iframe.jsx:114-120 | the settings object of a list with no `null` or `undefined` entry: every value it holds is truthy |
| EmbeddedProgram.SettingsOfLastSetter | packages/perseus/src/widgets/iframe.jsx:114-120 | the settings object holds a key exactly when some entry sets it, with the value of the last entry that does |
| EmbeddedProgram.SettingsOfLastWins | packages/perseus/src/widgets/iframe.jsx:114-120 | the settings object has a key exactly when some entry with truthy name and value sets it, and then holds the value of an entry after which none sets it |
| EmbeddedProgram.BuildSettings | packages/perseus/src/widgets/cs-program.jsx:169-175 | the loop fails, with the TypeError of reading `name`, exactly when some entry is `null` or `undefined`, at the first such entry; otherwise it builds exactly the settings object of the whole list |
| EmbeddedProgram.UpdateQuery | packages/perseus/src/widgets/iframe.jsx:107-110 | setting a query parameter keeps the URL and the parameters already set, and adds this one last |
| EmbeddedProgram.AddSettings | packages/perseus/src/widgets/iframe.jsx:114-123 | without a settings list the URL is unchanged; with one, the step throws exactly when some entry is `null` or `undefined`, and otherwise sets the "settings" parameter to the settings object |
| Iframe.PxSuffix | packages/perseus/src/widgets/iframe.jsx:90-97 | a size ending in "%" or "px" is kept; any other gets "px" appended |
| Iframe.PxSuffixHasUnit | packages/perseus/src/widgets/iframe.jsx:90-97 | every size comes out ending in "%" or "px" |
| Iframe.PxSuffixIdempotent | packages/perseus/src/widgets/iframe.jsx:90-97 | applying the unit rule twice is applying it once |
| Iframe.StyleSizes | packages/perseus/src/widgets/iframe.jsx:83-97 | every size of the style gets the unit rule, and nothing else changes |
| Iframe.IsProgramId | packages/perseus/src/widgets/iframe.jsx:99-102 | only a non-empty string is a program ID, a web address starting with "http" never is, and a non-empty string not starting with "h" always is |
| Iframe.ProgramUrl | packages/perseus/src/widgets/iframe.jsx:101-111 | a program ID becomes the program's embed URL followed by the width, height and origin parameters, in that order; any other URL is kept with no parameters |
| Iframe.Render | packages/perseus/src/widgets/iframe.jsx:82-149 | sizes with units; a program ID, and only a non-empty string not starting with "http", becomes the program's embed URL with width, height and origin parameters; a settings list adds the settings object, and the render throws exactly when the list has a `null` or `undefined` entry; the sandbox allows same-origin access, scripts and top-level navigation |
| CsProgram.UrlFromProgramId | packages/perseus/src/widgets/cs-program.jsx:23-37 | inside a native app the embed path is put on the public site; otherwise it is made absolute against the current page |
| CsProgram.Render | packages/perseus/src/widgets/cs-program.jsx:135-207 | no frame exactly when the program ID is missing or empty; otherwise the render throws exactly when the settings list has a `null` or `undefined` entry, and else the URL carries the editor flag, then the buttons flag, then the settings object; the toolbar adds 67 pixels to the height; a hidden editor centres the frame unless the program is a web page; the sandbox also allows pop-ups |
| CsProgram.Flags | packages/perseus/src/widgets/cs-program.jsx:148-166 | the flags start with the editor flag; with the editor hidden they start "&editor=no&width=" and the width before the buttons flag reads back as the article width |
| CsProgram.FlagsSayWhatWasAsked | packages/perseus/src/widgets/cs-program.jsx:148-166 | the URL asks for the editor exactly when it is shown, and for the buttons exactly when they are shown |

## Left out

- React rendering, styles, markdown parsing, TeX, linters and the translation tool's content replacement are presentation or foreign libraries. Of `render` the model keeps only what decides data: which widget IDs are recorded, what each view shows, and the frame's URL, sizes and sandbox.
- The non-widget branches of `outputNode` are not modelled one by one. Every node whose output is a string is a text node, and every other node is an element around the output of its content.
- Widget instances, refs and `WidgetContainer` are abstracted. A widget is a record of the methods it offers and what each returns, and calls into widgets that only cause effects are recorded as a log.
- `setTimeout` and `_.defer` are not scheduled. Each deferred call is an item of a pending list, and an explicit step runs any one of them, in any order. Restore callbacks, props-update continuations and deferred blurs are handled this way.
- Renderer.Renderer.RunPendingFire: a widget's own restore callback is one pending item that may fire at any later step. A widget that calls its callback twice, or never, is not modelled.
- Renderer.Renderer.OnWidgetFocus: the error the source throws for a focus path that is not an array is not modelled, because the model's paths are always sequences.
- Renderer.ScoreWidgets: the `onInputError` argument passed to each widget's `simpleValidate` is left out, because the model's widgets are graded by their options alone.
- Renderer.EmptyWidgets: the `null` second argument of `simpleValidate` is left out, for the same reason.
- Renderer.Renderer.constructor: `upgradeWidgetInfoToLatestVersion` and `getRendererPropsForWidgetInfo` belong to the widget registry, which is not part of this model. They are parameters.
- Renderer.DefaultWidgetInfo: the widget-ID pattern lives in the utility module, which is not part of this model. It is a parameter that yields the widget type or nothing.
- Widget info that is not an object is read as an object without properties, so `info.static` or `info.options` of such info is `undefined`.
- Opaque helpers are parameters. These are `Util.scoreIsEmpty`, the shuffle and random source in radio, the answer checker built by `KhanAnswerTypes`, `TexWrangler.parseTex`, `toAbsoluteUrl` and the tag lookup `idToName`. Their own behaviour is not modelled.
- `updateQueryString` and `JSON.stringify` are not part of this model. A URL is its base text plus the list of parameters set on it, in order.
- Numbers are integers. Floating-point sizes, errors and fractional table sizes are not modelled. In TableEditor, a size typed as a fraction is outside the model. In CsProgram, a missing height is `None`, where the source gives `undefined`, or `NaN` once 67 is added.
- JSON.parse of a message event is not modelled. A message whose data is not JSON is `None`.
- EmbeddedProgram.MessageRule: a message that is not a string is recorded as no message, while the source passes any value on as the message prop.
- Iframe's `getUserInput` comes from a deprecated mixin that is not part of this model. The iframe widget is graded on its status and message props, as the CS program widget is.
- Window event listeners, mounting and unmounting are left out. A message event is a method call on the mounted program.
- LightsPuzzle: a `flipPattern` prop naming none of the three patterns is not modelled, because the pattern kind is an enumeration.
- TableEditor.Editor.OnSizeInput: it requires the editor's shape invariant, meaning rows and columns in range with arrays of those sizes. The source sizes by the `rows` and `columns` props, and props that disagree with their arrays are outside the model.
- ArticleEditor.Editor.HandleEditorChange: it requires an existing section index, because the editor only offers handlers for sections it shows. The same holds for the move, add and remove handlers.
- Radio.AddNoneOfAbove: its own contract states membership and the last place only; the order and the length are stated by `Radio.AddNoneOfAboveKeepsOrder`, so that callers do not carry them.
- StructuredItemDiff.NamesOfStrings: its own contract states membership only; the number and order of the names are stated by `StructuredItemDiff.NamesOfStringsInOrder`.
- Radio.EnforceOrdering: the source compares the contents with the translated labels `i18n._("False")`, `i18n._("True")`, `i18n._("No")` and `i18n._("Yes")`; the model compares with the English labels only, so a translated pair in another locale is not swapped by the model.
- Radio.AddMetadata: a choice carries only its content, its correct value and its "None of the above" flag; every other field the source copies with `...choice` (clue, widgets and the like) is not modelled.
- TableEditor.Editor.OnSizeInput: the source truncates and extends `this.props.answers` and `this.props.headers` in place and passes those same arrays to `onChange`, and `defaultProps` builds its `answers` and `headers` arrays once, so every editor that starts from the defaults shares them. The model's answers, headers and `changes` are values: a resize changes neither the props an earlier `onChange` received nor the defaults of a later editor (`TableEditor.Editor.Default` is always fresh). The aliasing through shared arrays is not captured.
- Radio.AddNoneOfAbovePermutes: it is stated for at most one "None of the above" choice, because with two the source keeps only the last.
- Radio.SelectedChoicesCountCorrect: it assumes a shuffle that only reorders, because the shuffle is a parameter. It also assumes at most one "None of the above" choice, for the reason given above.
- StructuredItemDiff: `itemToTree` and the tree mapper are not part of this model. A version of an item is a `Tree` whose object children follow the shape's keys, and `Leaves` lists its content, hint and tags paths in the shape's order, as the mapper does. Looking up each merged path's entry with `find`, and the rendering of each diff, are left out. The tag partition and separator rule are modelled on the names that lookup yields.
- StructuredItemDiff.CompletePathsMerges: it is stated for versions in which every array element has at least one leaf, and for shapes whose objects have distinct keys. Without the first condition the array loop stops at the first element without leaves, so later leaves are neither used up nor diffed (`StructuredItemDiff.EmptyElementStopsWalk`).
- StructuredItemDiff.Join: its contract states the empty case, the first part and the length; the parts after the first are not stated one by one.
- StructuredItemDiff.PartitionTags: its own contract states sizes only; which tags each list holds, and in what order, is stated by `PartitionTagsMembers` and `PartitionTagsSplitsBefore`.
- RendererOutput.Output: its own contract states only that earlier IDs stay first; which IDs are recorded is stated by `OutputIds`, and how outputs merge by `OutputSeqMerged`.
- InputNumber.FormExample: the wording of each example is not stated beyond being non-empty; `FormExampleSimplify` states which option changes it.
- The article editor's `confirm()` dialog and preview-frame messaging are left out as user interface.
- GradedGroupSet.Render: the translation-tool test is a parameter. What the translation tool does with the groups is not modelled.
- ExampleWidget.GetUserInput: the widget's input is its `value` prop, so this member only names that prop.
