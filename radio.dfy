/** The radio (multiple choice) widget's transform from editor options to render
    props: choices are annotated, possibly shuffled, a reversed True/False or
    Yes/No pair is put back in order, and "None of the above" goes last. */
module Radio {
  import opened Common

  /** A choice as the editor stores it; `correct` is any JSON value and is read
      by its truthiness. */
  datatype Choice = Choice(content: string, correct: Value, isNoneOfTheAbove: bool)

  /** A choice with the metadata the transform adds. */
  datatype ChoiceWithMetadata = ChoiceWithMetadata(
    content: string, correct: bool, isNoneOfTheAbove: bool, originalIndex: nat)

  /** The `problemNum` argument: absent (`undefined`), `null`, or a number. */
  datatype ProblemNum = NoProblemNum | NullProblemNum | ProblemNumber(n: int)

  /** What the shuffle is seeded with: the random-number function itself, or a
      number. */
  datatype Seed = RandomFunction | NumberSeed(n: int)

  /** The shuffle (left unspecified), as a function of the list and the seed. */
  type Shuffle = (seq<ChoiceWithMetadata>, Seed) -> seq<ChoiceWithMetadata>

  /** A shuffle that only reorders. */
  ghost predicate IsPermuting(shuffle: Shuffle) {
    forall s, seed :: multiset(shuffle(s, seed)) == multiset(s)
  }

  /** Each choice gets its position in the editor's list as `originalIndex`,
      and `correct` coerced to a boolean. */
  function AddMetadata(choices: seq<Choice>): (r: seq<ChoiceWithMetadata>)
    ensures |r| == |choices|
    ensures forall i :: 0 <= i < |r| ==>
              r[i].originalIndex == i && r[i].content == choices[i].content &&
              r[i].correct == Truthy(choices[i].correct) &&
              r[i].isNoneOfTheAbove == choices[i].isNoneOfTheAbove
  {
    seq(|choices|, i requires 0 <= i < |choices| =>
      ChoiceWithMetadata(choices[i].content, Truthy(choices[i].correct), choices[i].isNoneOfTheAbove, i))
  }

  /** The seed of `_maybeRandomize`: a random seed when `problemNum` is
      undefined; `null` falls back to 0. */
  function SeedOf(problemNum: ProblemNum): (r: Seed)
    ensures r == RandomFunction <==> problemNum == NoProblemNum
    ensures problemNum.ProblemNumber? ==> r == NumberSeed(problemNum.n)
    ensures problemNum == NullProblemNum ==> r == NumberSeed(0)
  {
    match problemNum
    case NoProblemNum => RandomFunction
    case NullProblemNum => NumberSeed(0)
    case ProblemNumber(n) => NumberSeed(n)
  }

  /** `_maybeRandomize`: the choices are shuffled only when `randomize` is set. */
  function MaybeRandomize(choices: seq<ChoiceWithMetadata>, randomize: bool, problemNum: ProblemNum, shuffle: Shuffle)
    : (r: seq<ChoiceWithMetadata>)
    ensures !randomize ==> r == choices
    ensures randomize ==> r == shuffle(choices, SeedOf(problemNum))
  {
    if randomize then shuffle(choices, SeedOf(problemNum)) else choices
  }

  /** The contents of a choice list. */
  function Contents(choices: seq<ChoiceWithMetadata>): seq<string> {
    seq(|choices|, i requires 0 <= i < |choices| => choices[i].content)
  }

  /** The pairs that are put back in order when found reversed. */
  predicate IsReversedPair(contents: seq<string>) {
    contents == ["False", "True"] || contents == ["No", "Yes"]
  }

  /** `enforceOrdering`: exactly a reversed pair is swapped; every other list is
      returned as it is. Either way the choices are the same. */
  function EnforceOrdering(choices: seq<ChoiceWithMetadata>): (r: seq<ChoiceWithMetadata>)
    ensures IsReversedPair(Contents(choices)) ==> |choices| == 2 && r == [choices[1], choices[0]]
    ensures !IsReversedPair(Contents(choices)) ==> r == choices
    ensures multiset(r) == multiset(choices)
  {
    if IsReversedPair(Contents(choices)) then
      assert |Contents(choices)| == 2;
      assert choices == [choices[0], choices[1]];
      [choices[1], choices[0]]
    else choices
  }

  predicate IsNota(c: ChoiceWithMetadata) { c.isNoneOfTheAbove }

  predicate IsNotNota(c: ChoiceWithMetadata) { !c.isNoneOfTheAbove }

  /** The index of the last "None of the above" choice, or -1 when there is
      none. */
  function LastNotaIndex(choices: seq<ChoiceWithMetadata>): (i: int)
    ensures -1 <= i < |choices|
    ensures i >= 0 ==> choices[i].isNoneOfTheAbove
    ensures forall j :: i < j < |choices| ==> !choices[j].isNoneOfTheAbove
    decreases |choices|
  {
    if choices == [] then -1
    else if choices[|choices| - 1].isNoneOfTheAbove then |choices| - 1
    else LastNotaIndex(choices[..|choices| - 1])
  }

  /** The last "None of the above" choice of the list, if any. */
  function LastNota(choices: seq<ChoiceWithMetadata>): (r: Option<ChoiceWithMetadata>)
    ensures r.None? <==> forall i :: 0 <= i < |choices| ==> !choices[i].isNoneOfTheAbove
    ensures r.Some? ==> exists i :: 0 <= i < |choices| && choices[i] == r.value && r.value.isNoneOfTheAbove &&
                          forall j :: i < j < |choices| ==> !choices[j].isNoneOfTheAbove
  {
    var i := LastNotaIndex(choices);
    if i < 0 then None else Some(choices[i])
  }

  /** `_addNoneOfAbove`: the other choices in their order, then the last "None of
      the above" choice seen, if there was one. Every other choice is kept,
      nothing new appears, and the list ends with a "None of the above"
      exactly when the input has one. */
  function AddNoneOfAbove(choices: seq<ChoiceWithMetadata>): (r: seq<ChoiceWithMetadata>)
    ensures forall c :: c in r ==> c in choices
    ensures forall c :: c in choices && !c.isNoneOfTheAbove ==> c in r
    ensures (|r| > 0 && r[|r| - 1].isNoneOfTheAbove) <==>
            exists i :: 0 <= i < |choices| && choices[i].isNoneOfTheAbove
  {
    var kept := Filter(choices, IsNotNota);
    var r := kept + (match LastNota(choices) case Some(c) => [c] case None => []);
    assert forall i :: 0 <= i < |kept| ==> IsNotNota(kept[i]);
    assert forall c :: c in choices && !c.isNoneOfTheAbove ==> c in kept by {
      forall c | c in choices && !c.isNoneOfTheAbove ensures c in kept {
        var i :| 0 <= i < |choices| && choices[i] == c;
        assert IsNotNota(choices[i]);
      }
    }
    r
  }

  /** The choices that are not "None of the above" keep their order, and one
      "None of the above" is added exactly when the input has any. */
  lemma AddNoneOfAboveKeepsOrder(choices: seq<ChoiceWithMetadata>)
    ensures Filter(AddNoneOfAbove(choices), IsNotNota) == Filter(choices, IsNotNota)
    ensures |AddNoneOfAbove(choices)| == |Filter(choices, IsNotNota)| +
              (if exists i :: 0 <= i < |choices| && choices[i].isNoneOfTheAbove then 1 else 0)
  {
    var kept := Filter(choices, IsNotNota);
    FilterKeepsAll(kept, IsNotNota);
    match LastNota(choices)
    case Some(c) =>
      assert AddNoneOfAbove(choices) == kept + [c];
      FilterAppendDropped(kept, c, IsNotNota);
    case None =>
      assert AddNoneOfAbove(choices) == kept;
  }

  /** "None of the above" ends up last, and at most once. */
  lemma NotaLast(choices: seq<ChoiceWithMetadata>)
    ensures var r := AddNoneOfAbove(choices);
            forall i :: 0 <= i < |r| && r[i].isNoneOfTheAbove ==> i == |r| - 1
  {
    var kept := Filter(choices, IsNotNota);
    assert forall i :: 0 <= i < |kept| ==> IsNotNota(kept[i]);
  }

  /** The count of "None of the above" choices. */
  function NotaCount(choices: seq<ChoiceWithMetadata>): nat {
    |Filter(choices, IsNota)|
  }

  /** Every choice is either kept in place or is a "None of the above". */
  lemma SplitNota(s: seq<ChoiceWithMetadata>)
    ensures multiset(s) == multiset(Filter(s, IsNotNota)) + multiset(Filter(s, IsNota))
  {
    forall c ensures multiset(s)[c] == multiset(Filter(s, IsNotNota))[c] + multiset(Filter(s, IsNota))[c] {
      FilterCount(s, IsNotNota, c);
      FilterCount(s, IsNota, c);
    }
  }

  /** The "None of the above" choices of a list that has at most one are exactly
      the one `LastNota` finds. */
  lemma NotasOfLastNota(choices: seq<ChoiceWithMetadata>)
    requires NotaCount(choices) <= 1
    ensures Filter(choices, IsNota) == match LastNota(choices) case Some(c) => [c] case None => []
  {
    var notas := Filter(choices, IsNota);
    if LastNota(choices).Some? {
      var c := LastNota(choices).value;
      var i :| 0 <= i < |choices| && choices[i] == c && IsNota(c);
      assert IsNota(choices[i]);
      assert c in notas;
      assert |notas| == 1;
    }
  }

  /** With at most one "None of the above" choice, placing it last only
      reorders the list. */
  lemma AddNoneOfAbovePermutes(choices: seq<ChoiceWithMetadata>)
    requires NotaCount(choices) <= 1
    ensures multiset(AddNoneOfAbove(choices)) == multiset(choices)
  {
    SplitNota(choices);
    NotasOfLastNota(choices);
  }

  /** `_choiceTransform`: randomize, then enforce ordering, then put "None of the
      above" last. A "None of the above" can only be the last choice, and
      unless a shuffle that does more than reorder is used, every rendered
      choice is the editor's choice at its `originalIndex`, annotated. */
  function ChoiceTransform(choices: seq<Choice>, randomize: bool, problemNum: ProblemNum, shuffle: Shuffle)
    : (r: seq<ChoiceWithMetadata>)
    ensures forall i :: 0 <= i < |r| && r[i].isNoneOfTheAbove ==> i == |r| - 1
    ensures !randomize || IsPermuting(shuffle) ==>
              forall c :: c in r ==> c.originalIndex < |choices| && AddMetadata(choices)[c.originalIndex] == c
  {
    var ordered := EnforceOrdering(MaybeRandomize(AddMetadata(choices), randomize, problemNum, shuffle));
    NotaLast(ordered);
    ReorderedOrigins(choices, randomize, problemNum, shuffle);
    AddNoneOfAbove(ordered)
  }

  /** Unless the shuffle does more than reorder, every choice after the
      transform is an annotated choice at its own `originalIndex`. */
  lemma ReorderedOrigins(choices: seq<Choice>, randomize: bool, problemNum: ProblemNum, shuffle: Shuffle)
    ensures var ordered := EnforceOrdering(MaybeRandomize(AddMetadata(choices), randomize, problemNum, shuffle));
            !randomize || IsPermuting(shuffle) ==>
              forall c :: c in AddNoneOfAbove(ordered) ==>
                c.originalIndex < |choices| && AddMetadata(choices)[c.originalIndex] == c
  {
    var annotated := AddMetadata(choices);
    var ordered := EnforceOrdering(MaybeRandomize(annotated, randomize, problemNum, shuffle));
    if !randomize || IsPermuting(shuffle) {
      assert multiset(ordered) == multiset(annotated);
      forall c | c in AddNoneOfAbove(ordered)
        ensures c.originalIndex < |choices| && annotated[c.originalIndex] == c
      {
        assert c in multiset(ordered);
        assert c in multiset(annotated);
        var i :| 0 <= i < |annotated| && annotated[i] == c;
      }
    }
  }

  /** Unless the shuffle does more than reorder, and with at most one "None of
      the above" choice, every editor choice is rendered exactly once: the
      transform only reorders the annotated choices. */
  lemma ChoiceTransformPermutes(choices: seq<Choice>, randomize: bool, problemNum: ProblemNum, shuffle: Shuffle)
    requires !randomize || IsPermuting(shuffle)
    requires NotaCount(AddMetadata(choices)) <= 1
    ensures multiset(ChoiceTransform(choices, randomize, problemNum, shuffle)) == multiset(AddMetadata(choices))
  {
    var annotated := AddMetadata(choices);
    var randomized := MaybeRandomize(annotated, randomize, problemNum, shuffle);
    var ordered := EnforceOrdering(randomized);
    assert multiset(randomized) == multiset(annotated);
    FilterPermutation(annotated, randomized, IsNota);
    FilterPermutation(randomized, ordered, IsNota);
    AddNoneOfAbovePermutes(ordered);
  }

  /** The options `transform` passes through unchanged. */
  datatype Passthrough = Passthrough(hasNoneOfTheAbove: Value, multipleSelect: Value,
                                     countChoices: Value, deselectEnabled: Value)

  datatype WidgetOptions = WidgetOptions(choices: seq<Choice>, randomize: bool, passthrough: Passthrough)

  datatype RenderProps = RenderProps(
    numCorrect: nat, passthrough: Passthrough,
    choices: seq<ChoiceWithMetadata>, selectedChoices: seq<bool>)

  /** The number of choices with a truthy `correct`: none exactly when no
      choice is correct, all exactly when every choice is. */
  function CountCorrect(choices: seq<Choice>): (n: nat)
    ensures n <= |choices|
    ensures n == 0 <==> forall i :: 0 <= i < |choices| ==> !Truthy(choices[i].correct)
    ensures n == |choices| <==> forall i :: 0 <= i < |choices| ==> Truthy(choices[i].correct)
    decreases |choices|
  {
    if choices == [] then 0
    else (if Truthy(choices[0].correct) then 1 else 0) + CountCorrect(choices[1..])
  }

  /** `transform`: the transformed choices, their `correct` flags in the same
      order as `selectedChoices`, the count of correct choices in the editor's
      list, and the passed-through options. */
  function Transform(options: WidgetOptions, problemNum: ProblemNum, shuffle: Shuffle): (r: RenderProps)
    ensures r.numCorrect == CountCorrect(options.choices)
    ensures r.choices == ChoiceTransform(options.choices, options.randomize, problemNum, shuffle)
    ensures |r.selectedChoices| == |r.choices|
    ensures forall i :: 0 <= i < |r.choices| ==> r.selectedChoices[i] == r.choices[i].correct
    ensures r.passthrough == options.passthrough
  {
    var choices := ChoiceTransform(options.choices, options.randomize, problemNum, shuffle);
    RenderProps(CountCorrect(options.choices), options.passthrough, choices, CorrectFlags(choices))
  }

  /** `_.pluck(choices, "correct")`. */
  function CorrectFlags(choices: seq<ChoiceWithMetadata>): (r: seq<bool>)
    ensures |r| == |choices| && forall i :: 0 <= i < |choices| ==> r[i] == choices[i].correct
  {
    seq(|choices|, i requires 0 <= i < |choices| => choices[i].correct)
  }

  predicate IsCorrect(c: ChoiceWithMetadata) { c.correct }

  /** Counting through the annotated list gives the same count. */
  lemma {:induction false} CountCorrectAnnotated(choices: seq<Choice>)
    ensures |Filter(AddMetadata(choices), IsCorrect)| == CountCorrect(choices)
    decreases |choices|
  {
    if choices != [] {
      var m := AddMetadata(choices);
      CountCorrectAnnotated(choices[1..]);
      // The tail is annotated with indices one higher, and the same flags.
      FilterCorrectSameFlags(m[1..], AddMetadata(choices[1..]));
    }
  }

  /** Lists with the same `correct` flags have as many correct entries. */
  lemma {:induction false} FilterCorrectSameFlags(a: seq<ChoiceWithMetadata>, b: seq<ChoiceWithMetadata>)
    requires |a| == |b| && forall i :: 0 <= i < |a| ==> a[i].correct == b[i].correct
    ensures |Filter(a, IsCorrect)| == |Filter(b, IsCorrect)|
    decreases |a|
  {
    if a != [] {
      FilterCorrectSameFlags(a[1..], b[1..]);
    }
  }

  /** When the shuffle only reorders and there is at most one "None of the
      above" choice, exactly `numCorrect` of the `selectedChoices` are set. */
  lemma SelectedChoicesCountCorrect(options: WidgetOptions, problemNum: ProblemNum, shuffle: Shuffle)
    requires IsPermuting(shuffle)
    requires NotaCount(AddMetadata(options.choices)) <= 1
    ensures var r := Transform(options, problemNum, shuffle);
            |Filter(r.choices, IsCorrect)| == r.numCorrect
  {
    var annotated := AddMetadata(options.choices);
    var randomized := MaybeRandomize(annotated, options.randomize, problemNum, shuffle);
    var ordered := EnforceOrdering(randomized);
    assert multiset(randomized) == multiset(annotated);
    FilterPermutation(annotated, randomized, IsNota);
    FilterPermutation(randomized, ordered, IsNota);
    AddNoneOfAbovePermutes(ordered);
    FilterPermutation(AddNoneOfAbove(ordered), annotated, IsCorrect);
    CountCorrectAnnotated(options.choices);
  }

  /** A version 0 prop set, upgraded to version 1: an automatic "None of the
      above" is no longer supported and is an error; otherwise the
      `noneOfTheAbove` key is dropped, `choices` kept and `hasNoneOfTheAbove`
      set to false, every other property unchanged. */
  function PropUpgrade1(v0: Value): (r: Result<Value, string>)
    ensures r.Err? <==> Truthy(Get(v0, "noneOfTheAbove"))
    ensures r.Ok? ==>
              r.value.Obj? && r.value.fields.Keys == (Fields(v0).Keys - {"noneOfTheAbove"}) + {"choices", "hasNoneOfTheAbove"}
    ensures r.Ok? ==> r.value.fields["choices"] == Get(v0, "choices") &&
                      r.value.fields["hasNoneOfTheAbove"] == Bool(false)
    ensures r.Ok? ==> forall k :: k in Fields(v0) && k !in {"noneOfTheAbove", "choices", "hasNoneOfTheAbove"} ==>
                        r.value.fields[k] == Fields(v0)[k]
  {
    if !Truthy(Get(v0, "noneOfTheAbove")) then
      Ok(Extend(Omit(v0, "noneOfTheAbove"),
                Obj(map["choices" := Get(v0, "choices"), "hasNoneOfTheAbove" := Bool(false)])))
    else
      Err("radio widget v0 no longer supports auto noneOfTheAbove")
  }
}
