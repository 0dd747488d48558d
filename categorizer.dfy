/** The categorizer widget: each item (a row) is put into one of several
    categories (columns); grading compares the chosen category of every row with
    the rubric's. */
module Categorizer {
  import opened Common

  /** The user's choice for one row: `None` is a row never chosen (`null`,
      `undefined` or a hole in the array). */
  type Choice = Option<int>

  /** `values[i]`, reading past the end as `undefined`. */
  function At(values: seq<Choice>, i: nat): Choice {
    if i < |values| then values[i] else None
  }

  const IncompleteMessage := "Make sure you select something for every row."

  /** `Categorizer.validate`: only the rows the rubric lists are inspected. The
      answer is invalid exactly when one of them has no choice; otherwise it is
      worth 1 point out of 1 when every one of them matches the rubric and 0
      otherwise, with no message. */
  method Validate(userValues: seq<Choice>, rubricValues: seq<int>) returns (r: Score)
    ensures r.Invalid? <==> exists i :: 0 <= i < |rubricValues| && At(userValues, i).None?
    ensures r.Invalid? ==> r.message == Some(IncompleteMessage)
    ensures r.Points? ==> r.total == 1 && r.message == None
    ensures r.Points? ==>
              (r.earned == 1 <==> forall i :: 0 <= i < |rubricValues| ==> At(userValues, i) == Some(rubricValues[i]))
    ensures r.Points? ==> r.earned <= 1
  {
    var completed := true;
    var allCorrect := true;
    var i := 0;
    while i < |rubricValues|
      invariant 0 <= i <= |rubricValues|
      invariant completed <==> forall k :: 0 <= k < i ==> At(userValues, k).Some?
      invariant allCorrect <==> forall k :: 0 <= k < i ==> At(userValues, k) == Some(rubricValues[k])
    {
      if At(userValues, i).None? {
        completed := false;
      }
      if At(userValues, i) != Some(rubricValues[i]) {
        allCorrect := false;
      }
      i := i + 1;
    }
    if !completed {
      return Invalid(Some(IncompleteMessage));
    }
    r := Points(if allCorrect then 1 else 0, 1, None);
  }

  /** The values after choosing category `catNum` for row `itemNum`: that row
      holds `catNum` and every other row keeps its choice; a row past the end
      grows the array, the rows in between becoming holes. */
  function WithChoice(values: seq<Choice>, itemNum: nat, catNum: int): (r: seq<Choice>)
    ensures |r| == if itemNum < |values| then |values| else itemNum + 1
    ensures r[itemNum] == Some(catNum)
    ensures forall i :: 0 <= i < |r| && i != itemNum ==> r[i] == At(values, i)
  {
    var padded := if itemNum < |values| then values else values + seq(itemNum + 1 - |values|, _ => None);
    padded[itemNum := Some(catNum)]
  }

  /** The selected-cell rule: cell (itemNum, catNum) is shown selected exactly
      when row `itemNum` holds `catNum`. */
  predicate IsSelected(values: seq<Choice>, itemNum: nat, catNum: int) {
    At(values, itemNum) == Some(catNum)
  }

  /** After a choice, the chosen cell is the only selected cell of its row and
      every other row shows what it showed before. */
  lemma ChoiceSelectsOneCell(values: seq<Choice>, itemNum: nat, catNum: int)
    ensures forall c :: IsSelected(WithChoice(values, itemNum, catNum), itemNum, c) <==> c == catNum
    ensures forall i: nat, c :: i != itemNum ==>
              (IsSelected(WithChoice(values, itemNum, catNum), i, c) <==> IsSelected(values, i, c))
  {
    var r := WithChoice(values, itemNum, catNum);
    forall i: nat, c | i != itemNum
      ensures IsSelected(r, i, c) <==> IsSelected(values, i, c)
    {
      if i >= |r| {
        assert i >= |values|;
      }
    }
  }

  /** The mounted widget: its `values` prop, changed through `change`, and the
      number of interactions it has reported to its owner. */
  class Widget {
    var values: seq<Choice>
    var interactions: nat

    constructor (values: seq<Choice>)
      ensures this.values == values && interactions == 0
    {
      this.values := values;
      interactions := 0;
    }

    /** `onChange(itemNum, catNum)`: records the choice and reports one
        interaction. */
    method OnChange(itemNum: nat, catNum: int)
      modifies this
      ensures values == WithChoice(old(values), itemNum, catNum)
      ensures interactions == old(interactions) + 1
    {
      var copy := values;
      if itemNum >= |copy| {
        copy := copy + seq(itemNum + 1 - |copy|, _ => None);
      }
      copy := copy[itemNum := Some(catNum)];
      values := copy;
      interactions := interactions + 1;
    }
  }

  const TransformKeys: set<string> := {"items", "categories", "randomizeItems"}
  const StaticTransformKeys: set<string> := {"items", "categories", "values", "randomizeItems"}

  /** `transform`: the render props are the items, categories and
      `randomizeItems` options and nothing else. */
  function Transform(options: Value): (r: Value)
    ensures r.Obj? && r.fields.Keys <= TransformKeys
    ensures forall k :: k in TransformKeys && k in Fields(options) ==> k in r.fields && r.fields[k] == Fields(options)[k]
  {
    Pick(options, TransformKeys)
  }

  /** `staticTransform`: the same, plus the answer `values`. */
  function StaticTransform(options: Value): (r: Value)
    ensures r.Obj? && r.fields.Keys <= StaticTransformKeys
    ensures forall k :: k in StaticTransformKeys && k in Fields(options) ==> k in r.fields && r.fields[k] == Fields(options)[k]
  {
    Pick(options, StaticTransformKeys)
  }

  /** The static props differ from the ordinary ones only by `values`. */
  lemma StaticTransformAddsOnlyValues(options: Value)
    ensures Omit(StaticTransform(options), "values") == Transform(options)
  {
    assert Omit(StaticTransform(options), "values").fields == Transform(options).fields;
  }
}
