/** The renderer's walk over the parsed content, as far as widgets are
    concerned: widget nodes are rendered once per ID, in document order, a
    repeated ID renders an error instead, and adjacent string outputs of a node
    list are merged into one string. These functions specify the walk; the
    renderer's own method performs it (module Renderer). */
module RendererOutput {
  import opened Common

  /** A parsed content node, or an array of nodes. Text nodes stand for every
      node whose output is a string; other nodes are rendered around the output
      of their content. */
  datatype Ast =
    | Nodes(items: seq<Ast>)
    | WidgetNode(id: string, widgetType: string)
    | TextNode(text: string)
    | OtherNode(kind: string, content: seq<Ast>)

  /** What the walk produces. */
  datatype Out =
    | OText(s: string)
    /** The container of a widget that has widget info. */
    | OWidget(id: string)
    /** A widget node whose ID was already rendered. */
    | ODuplicate(message: string)
    /** The `widgetPlaceholder` API option, shown instead of every widget. */
    | OPlaceholder
    /** A widget without widget info renders nothing. */
    | ONull
    | OElement(kind: string, children: seq<Out>)
    | OList(outs: seq<Out>)

  /** The text of the error span for a repeated widget ID. */
  function DuplicateMessage(id: string): string {
    "Widget [[" + "\U{2603}" + " " + id + "]] already exists."
  }

  /** One step of the merging loop of `outputNested`: a string output following
      a string output is appended to it; anything else is pushed. */
  function MergeAppend(result: seq<Out>, out: Out): (r: seq<Out>)
    ensures out.OText? && |result| > 0 && result[|result| - 1].OText? ==>
              r == result[..|result| - 1] + [OText(result[|result| - 1].s + out.s)]
    ensures !(out.OText? && |result| > 0 && result[|result| - 1].OText?) ==> r == result + [out]
  {
    if out.OText? && |result| > 0 && result[|result| - 1].OText? then
      result[..|result| - 1] + [OText(result[|result| - 1].s + out.s)]
    else result + [out]
  }

  /** The widget branch of `outputNode`: with the placeholder option nothing
      is recorded; otherwise an ID already rendered gives the error and is not
      recorded again, and a new one is recorded after the others, rendered as
      a widget container exactly when it has widget info. */
  function OutputWidget(id: string, seen: seq<string>, placeholder: bool, info: map<string, Value>)
    : (r: (Out, seq<string>))
    ensures r.0.OPlaceholder? <==> placeholder
    ensures r.0.ODuplicate? <==> !placeholder && id in seen
    ensures r.0.OWidget? <==> !placeholder && id !in seen && id in info && Truthy(info[id])
    ensures r.0.OWidget? ==> r.0.id == id
    ensures IsPrefix(seen, r.1) && (forall x :: x in r.1 <==> x in seen || (!placeholder && x == id))
    ensures NoDuplicates(seen) ==> NoDuplicates(r.1)
  {
    if placeholder then (OPlaceholder, seen)
    else if id in seen then (ODuplicate(DuplicateMessage(id)), seen)
    else ((if id in info && Truthy(info[id]) then OWidget(id) else ONull), seen + [id])
  }

  /** The output of a node or node array, and the rendered widget IDs after it,
      given those before it. The IDs rendered before stay first, in their
      order. */
  function Output(ast: Ast, seen: seq<string>, placeholder: bool, info: map<string, Value>): (r: (Out, seq<string>))
    ensures IsPrefix(seen, r.1)
    decreases ast, 1
  {
    match ast
    case Nodes(items) =>
      var (outs, after) := OutputSeq(items, seen, placeholder, info);
      (OList(outs), after)
    case WidgetNode(id, _) => OutputWidget(id, seen, placeholder, info)
    case TextNode(text) => (OText(text), seen)
    case OtherNode(kind, content) =>
      var (outs, after) := OutputSeq(content, seen, placeholder, info);
      (OElement(kind, outs), after)
  }

  /** The merged outputs of a node array, node by node from the left; the IDs
      rendered before stay first. */
  function OutputSeq(items: seq<Ast>, seen: seq<string>, placeholder: bool, info: map<string, Value>)
    : (r: (seq<Out>, seq<string>))
    ensures IsPrefix(seen, r.1)
    decreases items, 0
  {
    if items == [] then ([], seen)
    else
      var (outs, middle) := OutputSeq(items[..|items| - 1], seen, placeholder, info);
      var (out, after) := Output(items[|items| - 1], middle, placeholder, info);
      PrefixTrans(seen, middle, after);
      (MergeAppend(outs, out), after)
  }

  lemma PrefixTrans(a: seq<string>, b: seq<string>, c: seq<string>)
    requires IsPrefix(a, b) && IsPrefix(b, c)
    ensures IsPrefix(a, c)
  {
    assert c[..|a|] == c[..|b|][..|a|];
  }

  /** Outputting one more node merges its output into the outputs so far. */
  lemma OutputSeqSnoc(items: seq<Ast>, x: Ast, seen: seq<string>, placeholder: bool, info: map<string, Value>)
    ensures OutputSeq(items + [x], seen, placeholder, info).0 ==
              MergeAppend(OutputSeq(items, seen, placeholder, info).0,
                          Output(x, OutputSeq(items, seen, placeholder, info).1, placeholder, info).0)
    ensures OutputSeq(items + [x], seen, placeholder, info).1 ==
              Output(x, OutputSeq(items, seen, placeholder, info).1, placeholder, info).1
  {
    assert (items + [x])[..|items|] == items;
  }

  /** The widget IDs of the content, in document order, repeats included. */
  function DocIds(ast: Ast): seq<string>
    decreases ast, 1
  {
    match ast
    case Nodes(items) => DocIdsSeq(items)
    case WidgetNode(id, _) => [id]
    case TextNode(_) => []
    case OtherNode(_, content) => DocIdsSeq(content)
  }

  function DocIdsSeq(items: seq<Ast>): seq<string>
    decreases items, 0
  {
    if items == [] then [] else DocIdsSeq(items[..|items| - 1]) + DocIds(items[|items| - 1])
  }

  /** `seen` followed by each of `ids` that is not already there, first
      occurrences only, in order. */
  function AddUnique(seen: seq<string>, ids: seq<string>): seq<string>
    decreases |ids|
  {
    if ids == [] then seen
    else
      var before := AddUnique(seen, ids[..|ids| - 1]);
      if ids[|ids| - 1] in before then before else before + [ids[|ids| - 1]]
  }

  lemma {:induction false} AddUniqueConcat(seen: seq<string>, a: seq<string>, b: seq<string>)
    ensures AddUnique(seen, a + b) == AddUnique(AddUnique(seen, a), b)
    decreases |b|
  {
    if b == [] {
      assert a + b == a;
    } else {
      assert (a + b)[..|a + b| - 1] == a + b[..|b| - 1];
      AddUniqueConcat(seen, a, b[..|b| - 1]);
    }
  }

  /** Adding IDs keeps what was seen as a prefix, keeps the list free of
      repeats, and leaves exactly the IDs seen or added. */
  lemma {:induction false} AddUniqueProperties(seen: seq<string>, ids: seq<string>)
    requires NoDuplicates(seen)
    ensures IsPrefix(seen, AddUnique(seen, ids))
    ensures NoDuplicates(AddUnique(seen, ids))
    ensures forall x :: x in AddUnique(seen, ids) <==> x in seen || x in ids
    decreases |ids|
  {
    if ids != [] {
      AddUniqueProperties(seen, ids[..|ids| - 1]);
      var before := AddUnique(seen, ids[..|ids| - 1]);
      assert forall x :: x in ids <==> x in ids[..|ids| - 1] || x == ids[|ids| - 1];
      if ids[|ids| - 1] !in before {
        assert (before + [ids[|ids| - 1]])[..|seen|] == before[..|seen|];
      }
    }
  }

  /** Rendering without the placeholder records exactly the new IDs of the
      content, in document order, each once; with the placeholder it records
      none. */
  lemma {:induction false} OutputIds(ast: Ast, seen: seq<string>, placeholder: bool, info: map<string, Value>)
    ensures !placeholder ==> Output(ast, seen, placeholder, info).1 == AddUnique(seen, DocIds(ast))
    ensures placeholder ==> Output(ast, seen, placeholder, info).1 == seen
    decreases ast, 1
  {
    match ast
    case Nodes(items) => OutputSeqIds(items, seen, placeholder, info);
    case WidgetNode(id, _) =>
      assert DocIds(ast)[..0] == [];
    case TextNode(_) =>
    case OtherNode(_, content) => OutputSeqIds(content, seen, placeholder, info);
  }

  lemma {:induction false} OutputSeqIds(items: seq<Ast>, seen: seq<string>, placeholder: bool, info: map<string, Value>)
    ensures !placeholder ==> OutputSeq(items, seen, placeholder, info).1 == AddUnique(seen, DocIdsSeq(items))
    ensures placeholder ==> OutputSeq(items, seen, placeholder, info).1 == seen
    decreases items, 0
  {
    if items != [] {
      var init := items[..|items| - 1];
      OutputSeqIds(init, seen, placeholder, info);
      var middle := OutputSeq(init, seen, placeholder, info).1;
      OutputIds(items[|items| - 1], middle, placeholder, info);
      if !placeholder {
        AddUniqueConcat(seen, DocIdsSeq(init), DocIds(items[|items| - 1]));
      }
    }
  }

  /** No two neighbouring outputs are both strings. */
  predicate NoAdjacentText(outs: seq<Out>) {
    forall i :: 0 <= i < |outs| - 1 ==> !(outs[i].OText? && outs[i + 1].OText?)
  }

  /** All the text of a list of outputs, in order. */
  function Texts(outs: seq<Out>): string
    decreases |outs|
  {
    if outs == [] then ""
    else Texts(outs[..|outs| - 1]) + (if outs[|outs| - 1].OText? then outs[|outs| - 1].s else "")
  }

  /** The outputs that are not strings, in order. */
  function NonTexts(outs: seq<Out>): seq<Out>
    decreases |outs|
  {
    if outs == [] then []
    else NonTexts(outs[..|outs| - 1]) + (if outs[|outs| - 1].OText? then [] else [outs[|outs| - 1]])
  }

  /** One merging step keeps the list free of neighbouring strings, loses no
      text and reorders nothing. */
  lemma MergeAppendKeeps(result: seq<Out>, out: Out)
    requires NoAdjacentText(result)
    ensures NoAdjacentText(MergeAppend(result, out))
    ensures Texts(MergeAppend(result, out)) == Texts(result) + (if out.OText? then out.s else "")
    ensures NonTexts(MergeAppend(result, out)) == NonTexts(result) + (if out.OText? then [] else [out])
  {
    var r := MergeAppend(result, out);
    if out.OText? && |result| > 0 && result[|result| - 1].OText? {
      var init := result[..|result| - 1];
      assert r[..|r| - 1] == init;
      assert Texts(r) == Texts(init) + (result[|result| - 1].s + out.s);
      assert Texts(result) == Texts(init) + result[|result| - 1].s;
    } else {
      assert r[..|r| - 1] == result;
    }
  }

  /** The merged output of every node array has no neighbouring strings. */
  lemma {:induction false} OutputSeqMerged(items: seq<Ast>, seen: seq<string>, placeholder: bool, info: map<string, Value>)
    ensures NoAdjacentText(OutputSeq(items, seen, placeholder, info).0)
    decreases |items|
  {
    if items != [] {
      var init := items[..|items| - 1];
      OutputSeqMerged(init, seen, placeholder, info);
      var (outs, middle) := OutputSeq(init, seen, placeholder, info);
      MergeAppendKeeps(outs, Output(items[|items| - 1], middle, placeholder, info).0);
    }
  }
}
