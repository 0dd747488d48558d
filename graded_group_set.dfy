/** The graded group set widget: a list of graded groups shown one at a time,
    with a row of indicators to jump to a group and a "next question" action
    that moves forward until the last group. */
module GradedGroupSet {
  import opened Common

  /** One graded group; only its title matters to the set itself. */
  datatype GradedGroup = GradedGroup(title: string, options: Value)

  /** What the set renders. */
  datatype View =
    /** Under the translation tool, every group one below another. */
    | AllGroups(groups: seq<GradedGroup>)
    /** The placeholder shown when the current index names no group. */
    | NoCurrentGroup
    /** The current group, whether it offers "next question", and which
        indicator is marked as selected. */
    | OneGroup(group: GradedGroup, hasNextQuestion: bool, selected: seq<bool>)

  /** `render()`: with the translation tool on and more than one group, all
      groups; otherwise the current group, if `currentGroup` names one, offering
      "next question" exactly when it is not the last group, and with exactly
      its indicator selected. */
  function Render(useJipt: bool, groups: seq<GradedGroup>, currentGroup: nat): (v: View)
    ensures useJipt && |groups| > 1 ==> v == AllGroups(groups)
    ensures !(useJipt && |groups| > 1) && currentGroup >= |groups| ==> v == NoCurrentGroup
    ensures !(useJipt && |groups| > 1) && currentGroup < |groups| ==>
              v.OneGroup? && v.group == groups[currentGroup] &&
              (v.hasNextQuestion <==> currentGroup != |groups| - 1) &&
              |v.selected| == |groups| &&
              forall i :: 0 <= i < |groups| ==> (v.selected[i] <==> i == currentGroup)
  {
    if useJipt && |groups| > 1 then AllGroups(groups)
    else if currentGroup >= |groups| then NoCurrentGroup
    else OneGroup(groups[currentGroup], currentGroup < |groups| - 1,
                  seq(|groups|, i requires 0 <= i < |groups| => i == currentGroup))
  }

  /** `traverseChildWidgets`: an object whose only property, `groups`, lists
      every group, in order, through the traversal. */
  function TraverseChildWidgets(groups: seq<GradedGroup>, traverse: GradedGroup -> Value): (r: Value)
    ensures r.Obj? && r.fields.Keys == {"groups"} && r.fields["groups"].List?
    ensures |r.fields["groups"].items| == |groups|
    ensures forall i :: 0 <= i < |groups| ==> r.fields["groups"].items[i] == traverse(groups[i])
  {
    Obj(map["groups" := List(seq(|groups|, i requires 0 <= i < |groups| => traverse(groups[i])))])
  }

  /** A mounted set: its groups and the index of the group on show. */
  class Widget {
    var gradedGroups: seq<GradedGroup>
    var currentGroup: nat

    /** The widget starts on the first group. */
    constructor (gradedGroups: seq<GradedGroup>)
      ensures this.gradedGroups == gradedGroups && currentGroup == 0
    {
      this.gradedGroups := gradedGroups;
      currentGroup := 0;
    }

    /** `handleNextQuestion`: moves to the following group only when the
        current one is not the last; otherwise nothing changes. So a current
        group that names a group keeps naming one. */
    method HandleNextQuestion()
      modifies this`currentGroup
      ensures old(currentGroup) < |gradedGroups| - 1 ==> currentGroup == old(currentGroup) + 1
      ensures old(currentGroup) >= |gradedGroups| - 1 ==> currentGroup == old(currentGroup)
      ensures old(currentGroup) < |gradedGroups| ==> currentGroup < |gradedGroups|
    {
      var numGroups := |gradedGroups|;
      if currentGroup < numGroups - 1 {
        currentGroup := currentGroup + 1;
      }
    }

    /** An indicator's click: group `i` becomes current. */
    method OnIndicatorClick(i: nat)
      modifies this`currentGroup
      ensures currentGroup == i
    {
      currentGroup := i;
    }

    /** An indicator's key press: Enter or Space makes group `i` current; any
        other key does nothing. */
    method OnIndicatorKeyDown(key: string, i: nat)
      modifies this`currentGroup
      ensures key == "Enter" || key == " " ==> currentGroup == i
      ensures key != "Enter" && key != " " ==> currentGroup == old(currentGroup)
    {
      if key == "Enter" || key == " " {
        currentGroup := i;
      }
    }
  }

  /** Pressing "next question" over and over walks through the groups one by
      one and stops at the last one. */
  lemma {:induction false} NextQuestionReachesLast(numGroups: nat, start: nat, presses: nat)
    requires start < numGroups
    ensures Presses(numGroups, start, presses) == if start + presses < numGroups then start + presses else numGroups - 1
    decreases presses
  {
    if presses > 0 {
      NextQuestionReachesLast(numGroups, start, presses - 1);
    }
  }

  /** The current group after `presses` presses of "next question". */
  function Presses(numGroups: nat, start: nat, presses: nat): nat
    decreases presses
  {
    if presses == 0 then start
    else
      var before := Presses(numGroups, start, presses - 1);
      if before < numGroups - 1 then before + 1 else before
  }
}
