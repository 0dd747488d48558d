/** The article editor: an article is a list of sections, each edited by its own
    editor; the author can change, move, add and remove sections, and the whole
    article can be serialized in edit, preview or JSON mode. */
module ArticleEditor {
  import opened Common

  /** The editor's `mode` prop. */
  datatype Mode = Edit | Preview | JsonMode | OtherMode(name: string)

  /** `_sections()`: the article's `json` is the list of sections itself, or a
      single section standing for a one-section list. */
  function Sections(json: Value): (r: seq<Value>)
    ensures json.List? ==> r == json.items
    ensures !json.List? ==> r == [json]
  {
    if json.List? then json.items else [json]
  }

  /** `splice(i, 1)`: the list without its element `i`, the others in order. */
  function RemoveAt<T>(s: seq<T>, i: nat): (r: seq<T>)
    requires i < |s|
    ensures |r| == |s| - 1
    ensures forall k :: 0 <= k < i ==> r[k] == s[k]
    ensures forall k :: i <= k < |r| ==> r[k] == s[k + 1]
  {
    s[..i] + s[i + 1..]
  }

  /** `splice(i, 0, x)`: `x` inserted so that it is at position `i`. */
  function InsertAt<T>(s: seq<T>, i: nat, x: T): (r: seq<T>)
    requires i <= |s|
    ensures |r| == |s| + 1 && r[i] == x
    ensures forall k :: 0 <= k < i ==> r[k] == s[k]
    ensures forall k :: i < k < |r| ==> r[k] == s[k - 1]
  {
    s[..i] + [x] + s[i..]
  }

  /** The list with its elements `i` and `j` exchanged. */
  function Swap<T>(s: seq<T>, i: nat, j: nat): (r: seq<T>)
    requires i < |s| && j < |s|
    ensures |r| == |s| && r[i] == s[j] && r[j] == s[i]
    ensures forall k :: 0 <= k < |s| && k != i && k != j ==> r[k] == s[k]
    ensures multiset(r) == multiset(s)
  {
    s[i := s[j]][j := s[i]]
  }

  /** Taking element `i` out and putting it back one place earlier exchanges it
      with its predecessor. */
  lemma MoveEarlierIsSwap<T>(s: seq<T>, i: nat)
    requires 0 < i < |s|
    ensures InsertAt(RemoveAt(s, i), i - 1, s[i]) == Swap(s, i - 1, i)
  {
    var r := InsertAt(RemoveAt(s, i), i - 1, s[i]);
    assert forall k :: 0 <= k < |s| ==> r[k] == Swap(s, i - 1, i)[k];
  }

  /** Taking element `i` out and putting it back one place later exchanges it
      with its successor. */
  lemma MoveLaterIsSwap<T>(s: seq<T>, i: nat)
    requires i + 1 < |s|
    ensures InsertAt(RemoveAt(s, i), i + 1, s[i]) == Swap(s, i, i + 1)
  {
    var r := InsertAt(RemoveAt(s, i), i + 1, s[i]);
    assert forall k :: 0 <= k < |s| ==> r[k] == Swap(s, i, i + 1)[k];
  }

  /** `serialize()`: in edit mode every section's editor serializes its section;
      in preview and JSON mode the `json` prop is returned as it is; any other
      mode is an error. */
  function Serialize(mode: Mode, json: Value, editorSerialize: (nat, Value) -> Value): (r: Result<Value, string>)
    ensures r.Err? <==> mode.OtherMode?
    ensures mode.Preview? || mode.JsonMode? ==> r == Ok(json)
    ensures mode.Edit? ==>
              r.Ok? && r.value.List? && |r.value.items| == |Sections(json)| &&
              forall i :: 0 <= i < |Sections(json)| ==> r.value.items[i] == editorSerialize(i, Sections(json)[i])
  {
    match mode
    case Edit =>
      var sections := Sections(json);
      Ok(List(seq(|sections|, i requires 0 <= i < |sections| => editorSerialize(i, sections[i]))))
    case Preview => Ok(json)
    case JsonMode => Ok(json)
    case OtherMode(name) => Err("Could not serialize; mode " + name + " not found")
  }

  /** `getSaveWarnings()`: only edit mode can report them, one entry per
      section from its editor. */
  function GetSaveWarnings(mode: Mode, json: Value, editorWarnings: (nat, Value) -> Value): (r: Result<seq<Value>, string>)
    ensures r.Err? <==> !mode.Edit?
    ensures r.Ok? ==>
              |r.value| == |Sections(json)| &&
              forall i :: 0 <= i < |r.value| ==> r.value[i] == editorWarnings(i, Sections(json)[i])
  {
    if !mode.Edit? then Err("Can only get save warnings in edit mode.")
    else
      var sections := Sections(json);
      Ok(seq(|sections|, i requires 0 <= i < |sections| => editorWarnings(i, sections[i])))
  }

  /** The editor as its owner sees it: its `json` and `mode` props, and the
      `json` values it has passed to `onChange` (which the owner applies). */
  class Editor {
    var json: Value
    var mode: Mode
    var changes: seq<Value>

    constructor (json: Value, mode: Mode)
      ensures this.json == json && this.mode == mode && changes == []
    {
      this.json := json;
      this.mode := mode;
      changes := [];
    }

    /** Reports a new article to the owner, which adopts it. */
    method Change(sections: seq<Value>)
      modifies this`json, this`changes
      ensures json == List(sections) && changes == old(changes) + [List(sections)]
    {
      json := List(sections);
      changes := changes + [json];
    }

    /** `_handleEditorChange(i, newProps)`: section `i` becomes `newProps` merged
        over it; the number of sections and every other section stay the
        same. */
    method HandleEditorChange(i: nat, newProps: Value)
      requires i < |Sections(json)|
      modifies this`json, this`changes
      ensures json.List? && |json.items| == |Sections(old(json))|
      ensures json.items[i] == Extend(Sections(old(json))[i], newProps)
      ensures forall k :: 0 <= k < |json.items| && k != i ==> json.items[k] == Sections(old(json))[k]
      ensures changes == old(changes) + [json]
    {
      var sections := Sections(json);
      sections := sections[i := Extend(sections[i], newProps)];
      Change(sections);
    }

    /** `_handleMoveSectionEarlier(i)`: nothing for the first section; otherwise
        it changes places with the one before it. */
    method HandleMoveSectionEarlier(i: nat)
      requires i < |Sections(json)|
      modifies this`json, this`changes
      ensures i == 0 ==> json == old(json) && changes == old(changes)
      ensures i > 0 ==> json == List(Swap(Sections(old(json)), i - 1, i)) && changes == old(changes) + [json]
      ensures i > 0 ==> multiset(json.items) == multiset(Sections(old(json)))
    {
      if i == 0 {
        return;
      }
      var sections := Sections(json);
      var section := sections[i];
      sections := RemoveAt(sections, i);
      sections := InsertAt(sections, i - 1, section);
      MoveEarlierIsSwap(Sections(json), i);
      Change(sections);
    }

    /** `_handleMoveSectionLater(i)`: nothing for the last section; otherwise it
        changes places with the one after it. */
    method HandleMoveSectionLater(i: nat)
      requires i < |Sections(json)|
      modifies this`json, this`changes
      ensures i + 1 == |Sections(old(json))| ==> json == old(json) && changes == old(changes)
      ensures i + 1 < |Sections(old(json))| ==>
                json == List(Swap(Sections(old(json)), i, i + 1)) && changes == old(changes) + [json]
      ensures i + 1 < |Sections(old(json))| ==> multiset(json.items) == multiset(Sections(old(json)))
    {
      var sections := Sections(json);
      if i + 1 == |sections| {
        return;
      }
      var section := sections[i];
      sections := RemoveAt(sections, i);
      sections := InsertAt(sections, i + 1, section);
      MoveLaterIsSwap(Sections(json), i);
      Change(sections);
    }

    /** `_handleAddSectionAfter(i)`: from the full serialization, a section
        holding only section `i`'s widgets (an empty section when `i` is
        negative) is inserted right after section `i`. Serializing can fail
        (an unknown mode), and a serialization that is a single section
        rather than a list cannot be spliced. */
    method HandleAddSectionAfter(i: int, editorSerialize: (nat, Value) -> Value) returns (r: Result<(), string>)
      requires -1 <= i < |Sections(json)|
      modifies this`json, this`changes
      ensures r.Err? <==> Serialize(mode, old(json), editorSerialize).Err? ||
                          !Serialize(mode, old(json), editorSerialize).value.List?
      ensures r.Err? ==> json == old(json) && changes == old(changes)
      ensures r.Ok? ==>
                var before := Serialize(mode, old(json), editorSerialize).value.items;
                var added := if i >= 0 then Obj(map["widgets" := Get(before[i], "widgets")]) else Obj(map[]);
                json == List(InsertAt(before, i + 1, added)) && changes == old(changes) + [json]
    {
      var serialized := Serialize(mode, json, editorSerialize);
      if serialized.Err? {
        return Err(serialized.error);
      }
      if !serialized.value.List? {
        return Err("TypeError: sections.splice is not a function");
      }
      var sections := serialized.value.items;
      assert |sections| == |Sections(json)|;
      var newSection := if i >= 0 then Obj(map["widgets" := Get(sections[i], "widgets")]) else Obj(map[]);
      sections := InsertAt(sections, i + 1, newSection);
      Change(sections);
      r := Ok(());
    }

    /** `_handleRemoveSection(i)`: exactly section `i` is removed, the others
        keep their order. */
    method HandleRemoveSection(i: nat)
      requires i < |Sections(json)|
      modifies this`json, this`changes
      ensures json == List(RemoveAt(Sections(old(json)), i)) && changes == old(changes) + [json]
    {
      var sections := Sections(json);
      sections := RemoveAt(sections, i);
      Change(sections);
    }
  }
}
