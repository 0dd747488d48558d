/** The side-by-side diff of two versions of an item that has a custom shape:
    the content, hint and tag leaves of both versions are listed with their
    paths, the two path lists are merged by walking the shape, and each merged
    path becomes one titled diff (for tags, a partition of the tag names). */
module StructuredItemDiff {
  import opened Common

  /** One step of a path into an item: an object key or an array index. */
  datatype PathElem = Key(key: string) | Index(index: nat)

  type Path = seq<PathElem>

  /** `beginsWith(path, beginPath)`: true exactly when `beginPath` is a prefix
      of `path`, so false when `path` is shorter. */
  method BeginsWith(path: Path, beginPath: Path) returns (r: bool)
    ensures r <==> IsPrefix(beginPath, path)
  {
    var matches := true;
    var i := 0;
    while i < |beginPath|
      invariant 0 <= i <= |beginPath|
      invariant i <= |path|
      invariant matches <==> forall k :: 0 <= k < i ==> beginPath[k] == path[k]
    {
      if i >= |path| {
        return false;
      }
      if beginPath[i] != path[i] {
        matches := false;
      }
      i := i + 1;
    }
    r := matches;
  }

  /** `checkPath(beforePath, afterPath)`: the same length and the same element
      at every position. */
  method CheckPath(beforePath: Path, afterPath: Path) returns (r: bool)
    ensures r <==> beforePath == afterPath
  {
    if |beforePath| != |afterPath| {
      return false;
    }
    var i := 0;
    while i < |beforePath|
      invariant 0 <= i <= |beforePath|
      invariant forall k :: 0 <= k < i ==> beforePath[k] == afterPath[k]
    {
      if beforePath[i] != afterPath[i] {
        return false;
      }
      i := i + 1;
    }
    r := true;
  }

  /** The title of one path element: an index n is shown one-based as "n+1:", a
      key as itself. */
  function TitlePart(e: PathElem): (r: string)
    ensures e.Index? ==> |r| >= 2 && r[|r| - 1] == ':' && ParseDecimal(r[..|r| - 1]) == e.index + 1
    ensures e.Key? ==> r == e.key
  {
    match e
    case Key(k) => k
    case Index(n) =>
      var digits := NatToString(n + 1);
      ParseNatToString(n + 1);
      assert (digits + ":")[..|digits|] == digits;
      digits + ":"
  }

  /** The total length of the strings. */
  function TotalLength(parts: seq<string>): nat
    decreases |parts|
  {
    if parts == [] then 0 else |parts[0]| + TotalLength(parts[1..])
  }

  /** `title.join(" ")`: the parts in order with one separator between each
      two, so the empty list gives the empty string, the first part starts
      the result, and the result is as long as the parts and the separators
      together. */
  function Join(parts: seq<string>, sep: string): (r: string)
    ensures parts == [] ==> r == ""
    ensures parts != [] ==> IsPrefix(parts[0], r)
    ensures parts != [] ==> |r| == TotalLength(parts) + (|parts| - 1) * |sep|
    decreases |parts|
  {
    if parts == [] then ""
    else if |parts| == 1 then parts[0]
    else parts[0] + sep + Join(parts[1..], sep)
  }

  /** `getTitle(path)`: the title of every element, in path order, joined with
      single spaces. */
  method GetTitle(path: Path) returns (title: string)
    ensures exists parts: seq<string> ::
              |parts| == |path| && (forall i :: 0 <= i < |path| ==> parts[i] == TitlePart(path[i])) &&
              title == Join(parts, " ")
  {
    var parts: seq<string> := [];
    var i := 0;
    while i < |path|
      invariant 0 <= i <= |path|
      invariant |parts| == i
      invariant forall k :: 0 <= k < i ==> parts[k] == TitlePart(path[k])
    {
      parts := parts + [TitlePart(path[i])];
      i := i + 1;
    }
    title := Join(parts, " ");
  }

  /** The shape of an item: which parts are leaves the diff shows (content,
      hints, tags), arrays of an element shape, objects with their keys in
      order, and anything else. */
  datatype Shape =
    | Content
    | Hint
    | Tags
    | ArrayOf(elementShape: Shape)
    | ObjectOf(fields: seq<(string, Shape)>)
    | OtherShape

  predicate IsLeaf(shape: Shape) { shape.Content? || shape.Hint? || shape.Tags? }

  /** The keys of an object shape, in order. */
  function KeyNames(fields: seq<(string, Shape)>): (r: seq<string>)
    ensures |r| == |fields| && forall j :: 0 <= j < |fields| ==> r[j] == fields[j].0
  {
    seq(|fields|, j requires 0 <= j < |fields| => fields[j].0)
  }

  /** The keys of every object shape are distinct, as the keys of a JavaScript
      object are. */
  predicate WellFormed(shape: Shape)
    decreases shape
  {
    match shape
    case ArrayOf(e) => WellFormed(e)
    case ObjectOf(fields) => NoDuplicates(KeyNames(fields)) && forall f :: f in fields ==> WellFormed(f.1)
    case _ => true
  }

  /** `s` is what is left of `t` after removing some elements from its front. */
  predicate IsSuffix<T(==)>(s: seq<T>, t: seq<T>) {
    |s| <= |t| && s == t[|t| - |s|..]
  }

  /** The elements removed from the front of `before` to leave `now`. */
  function Consumed(before: seq<Path>, now: seq<Path>): seq<Path>
    requires IsSuffix(now, before)
  {
    before[..|before| - |now|]
  }

  /** The merge so far accounts exactly for what it consumed: every path it
      added begins with `path` and was consumed from one of the two lists, and
      every consumed path was added. */
  ghost predicate Accounted(b0: seq<Path>, b: seq<Path>, a0: seq<Path>, a: seq<Path>,
                            r0: seq<Path>, r: seq<Path>, path: Path)
  {
    IsSuffix(b, b0) && IsSuffix(a, a0) && IsPrefix(r0, r) &&
    (forall p :: p in r[|r0|..] ==> IsPrefix(path, p)) &&
    (forall p :: p in r[|r0|..] ==> p in Consumed(b0, b) || p in Consumed(a0, a)) &&
    (forall p :: p in Consumed(b0, b) ==> p in r[|r0|..]) &&
    (forall p :: p in Consumed(a0, a) ==> p in r[|r0|..])
  }

  lemma AccountedNothing(b: seq<Path>, a: seq<Path>, r: seq<Path>, path: Path)
    ensures Accounted(b, b, a, a, r, r, path)
  {
    assert Consumed(b, b) == [];
    assert Consumed(a, a) == [];
    assert r[|r|..] == [];
  }

  /** A walk below a longer path followed by more of the walk at `path`
      account for everything together. */
  lemma AccountedTrans(b0: seq<Path>, b1: seq<Path>, b2: seq<Path>, a0: seq<Path>, a1: seq<Path>, a2: seq<Path>,
                       r0: seq<Path>, r1: seq<Path>, r2: seq<Path>, inner: Path, path: Path)
    requires Accounted(b0, b1, a0, a1, r0, r1, inner)
    requires Accounted(b1, b2, a1, a2, r1, r2, path)
    requires IsPrefix(path, inner)
    ensures Accounted(b0, b2, a0, a2, r0, r2, path)
  {
    assert Consumed(b0, b2) == Consumed(b0, b1) + Consumed(b1, b2);
    assert Consumed(a0, a2) == Consumed(a0, a1) + Consumed(a1, a2);
    assert r2[|r0|..] == r1[|r0|..] + r2[|r1|..];
    forall p | p in r1[|r0|..] ensures IsPrefix(path, p) {
      assert IsPrefix(inner, p);
      assert p[..|path|] == inner[..|path|];
    }
  }

  /** The number of list heads that lie below `path` at an array index not
      yet visited by the walk at `index`. */
  function HeadsAhead(list: seq<Path>, path: Path, index: nat): nat {
    if |list| > 0 && |list[0]| > |path| && list[0][|path|].Index? && list[0][|path|].index >= index then 1 else 0
  }

  /** A leaf step, which removes the heads equal to `path` and adds `path` once
      if it removed any, accounts for what it did. */
  lemma LeafAccounted(b0: seq<Path>, a0: seq<Path>, r0: seq<Path>, path: Path, bp: bool, ap: bool)
    requires bp ==> |b0| > 0 && b0[0] == path
    requires ap ==> |a0| > 0 && a0[0] == path
    ensures Accounted(b0, if bp then b0[1..] else b0, a0, if ap then a0[1..] else a0,
                      r0, r0 + (if bp || ap then [path] else []), path)
  {
    if !bp && !ap {
      AccountedNothing(b0, a0, r0, path);
    } else {
      var b := if bp then b0[1..] else b0;
      var a := if ap then a0[1..] else a0;
      var r := r0 + [path];
      assert Consumed(b0, b) == if bp then [path] else [];
      assert Consumed(a0, a) == if ap then [path] else [];
      assert r[|r0|..] == [path];
      assert IsPrefix(path, path);
    }
  }

  /** A walk step from lists whose head begins with the path of `index`
      either removes something, or removes nothing and leaves that head
      behind: the array loop ends. */
  lemma NoProgressMeansHeadPassed(b1: seq<Path>, b2: seq<Path>, a1: seq<Path>, a2: seq<Path>, path: Path, index: nat)
    requires IsSuffix(b2, b1) && IsSuffix(a2, a1)
    requires (|b1| > 0 && IsPrefix(path + [Index(index)], b1[0])) ||
             (|a1| > 0 && IsPrefix(path + [Index(index)], a1[0]))
    ensures |b2| + |a2| < |b1| + |a1| ||
            (b2 == b1 && a2 == a1 &&
             HeadsAhead(b2, path, index + 1) + HeadsAhead(a2, path, index + 1) <
             HeadsAhead(b1, path, index) + HeadsAhead(a1, path, index))
  {
    var newPath := path + [Index(index)];
    if |b2| + |a2| == |b1| + |a1| {
      if |b1| > 0 && IsPrefix(newPath, b1[0]) {
        assert b1[0][|path|] == newPath[|path|];
      } else {
        assert a1[0][|path|] == newPath[|path|];
      }
    }
  }

  /** What the walk works on: the two leaf lists (only their paths matter),
      consumed from the front, and the merged list of paths. */
  datatype WalkState = WalkState(before: seq<Path>, after: seq<Path>, result: seq<Path>)

  /** The array loop's condition: the head of either list begins with
      `newPath`. */
  predicate HeadBegins(s: WalkState, newPath: Path) {
    (|s.before| > 0 && IsPrefix(newPath, s.before[0])) || (|s.after| > 0 && IsPrefix(newPath, s.after[0]))
  }

  /** `generateCompletePathsList(beforeList, afterList, result, shape, path)`
      as a function of the three arrays it changes: a leaf adds its path once
      when the head of either list is that path, removing those heads; an
      array walks its indices from 0 for as long as a head begins with the
      next one; an object walks its keys in order; anything else does
      nothing. The lists only ever lose elements from the front. */
  function Walk(shape: Shape, path: Path, s: WalkState): (t: WalkState)
    ensures IsSuffix(t.before, s.before) && IsSuffix(t.after, s.after)
    decreases shape, 2
  {
    if IsLeaf(shape) then
      var bp := |s.before| > 0 && s.before[0] == path;
      var ap := |s.after| > 0 && s.after[0] == path;
      WalkState(if bp then s.before[1..] else s.before, if ap then s.after[1..] else s.after,
                s.result + (if bp || ap then [path] else []))
    else if shape.ArrayOf? then WalkArray(shape, path, 0, s)
    else if shape.ObjectOf? then WalkObject(shape, path, 0, s)
    else s
  }

  /** The array loop of the walk, from `index` on. */
  function WalkArray(shape: Shape, path: Path, index: nat, s: WalkState): (t: WalkState)
    requires shape.ArrayOf?
    ensures IsSuffix(t.before, s.before) && IsSuffix(t.after, s.after)
    decreases shape, 1, |s.before| + |s.after|, HeadsAhead(s.before, path, index) + HeadsAhead(s.after, path, index)
  {
    var newPath := path + [Index(index)];
    if HeadBegins(s, newPath) then
      var m := Walk(shape.elementShape, newPath, s);
      NoProgressMeansHeadPassed(s.before, m.before, s.after, m.after, path, index);
      WalkArray(shape, path, index + 1, m)
    else s
  }

  /** One turn of the array loop. */
  lemma WalkArrayStep(shape: Shape, path: Path, index: nat, s: WalkState)
    requires shape.ArrayOf? && HeadBegins(s, path + [Index(index)])
    ensures WalkArray(shape, path, index, s) ==
            WalkArray(shape, path, index + 1, Walk(shape.elementShape, path + [Index(index)], s))
  {
  }

  /** The array loop ends when no head begins with the next index. */
  lemma WalkArrayStop(shape: Shape, path: Path, index: nat, s: WalkState)
    requires shape.ArrayOf? && !HeadBegins(s, path + [Index(index)])
    ensures WalkArray(shape, path, index, s) == s
  {
  }

  /** The key loop of the walk, from the `j`th key on. */
  function WalkObject(shape: Shape, path: Path, j: nat, s: WalkState): (t: WalkState)
    requires shape.ObjectOf? && j <= |shape.fields|
    ensures IsSuffix(t.before, s.before) && IsSuffix(t.after, s.after)
    decreases shape, 1, |shape.fields| - j
  {
    if j == |shape.fields| then s
    else
      var field := shape.fields[j];
      assert field in shape.fields;
      WalkObject(shape, path, j + 1, Walk(field.1, path + [Key(field.0)], s))
  }

  /** Whatever the lists, the walk accounts for what it does: every path it
      adds lies below `path` and was removed from one of the lists, and every
      path it removes is added. */
  lemma {:induction false} WalkAccounted(shape: Shape, path: Path, s: WalkState)
    ensures var t := Walk(shape, path, s);
            Accounted(s.before, t.before, s.after, t.after, s.result, t.result, path)
    decreases shape, 2
  {
    if IsLeaf(shape) {
      LeafAccounted(s.before, s.after, s.result, path,
                    |s.before| > 0 && s.before[0] == path, |s.after| > 0 && s.after[0] == path);
    } else if shape.ArrayOf? {
      WalkArrayAccounted(shape, path, 0, s);
    } else if shape.ObjectOf? {
      WalkObjectAccounted(shape, path, 0, s);
    } else {
      AccountedNothing(s.before, s.after, s.result, path);
    }
  }

  lemma {:induction false} WalkArrayAccounted(shape: Shape, path: Path, index: nat, s: WalkState)
    requires shape.ArrayOf?
    ensures var t := WalkArray(shape, path, index, s);
            Accounted(s.before, t.before, s.after, t.after, s.result, t.result, path)
    decreases shape, 1, |s.before| + |s.after|, HeadsAhead(s.before, path, index) + HeadsAhead(s.after, path, index)
  {
    var newPath := path + [Index(index)];
    if HeadBegins(s, newPath) {
      var m := Walk(shape.elementShape, newPath, s);
      NoProgressMeansHeadPassed(s.before, m.before, s.after, m.after, path, index);
      var t := WalkArray(shape, path, index + 1, m);
      WalkAccounted(shape.elementShape, newPath, s);
      WalkArrayAccounted(shape, path, index + 1, m);
      AccountedTrans(s.before, m.before, t.before, s.after, m.after, t.after, s.result, m.result, t.result, newPath, path);
    } else {
      AccountedNothing(s.before, s.after, s.result, path);
    }
  }

  lemma {:induction false} WalkObjectAccounted(shape: Shape, path: Path, j: nat, s: WalkState)
    requires shape.ObjectOf? && j <= |shape.fields|
    ensures var t := WalkObject(shape, path, j, s);
            Accounted(s.before, t.before, s.after, t.after, s.result, t.result, path)
    decreases shape, 1, |shape.fields| - j
  {
    if j == |shape.fields| {
      AccountedNothing(s.before, s.after, s.result, path);
    } else {
      var field := shape.fields[j];
      assert field in shape.fields;
      var newPath := path + [Key(field.0)];
      var m := Walk(field.1, newPath, s);
      var t := WalkObject(shape, path, j + 1, m);
      WalkAccounted(field.1, newPath, s);
      WalkObjectAccounted(shape, path, j + 1, m);
      AccountedTrans(s.before, m.before, t.before, s.after, m.after, t.after, s.result, m.result, t.result, newPath, path);
    }
  }

  /** The state of one run of `generateCompletePathsList`: the arrays it
      changes in place. */
  class PathWalk {
    var beforeList: seq<Path>
    var afterList: seq<Path>
    var result: seq<Path>

    function State(): WalkState
      reads this
    {
      WalkState(beforeList, afterList, result)
    }

    constructor (beforeList: seq<Path>, afterList: seq<Path>)
      ensures this.beforeList == beforeList && this.afterList == afterList && result == []
    {
      this.beforeList := beforeList;
      this.afterList := afterList;
      result := [];
    }

    /** `generateCompletePathsList(beforeList, afterList, result, shape, path)`:
        the new lists and result are those of the walk. */
    method GenerateCompletePathsList(shape: Shape, path: Path)
      modifies this
      ensures State() == Walk(shape, path, old(State()))
      decreases shape, 2
    {
      if IsLeaf(shape) {
        VisitLeaf(path);
      } else if shape.ArrayOf? {
        VisitArray(shape, path);
      } else if shape.ObjectOf? {
        VisitObject(shape, path);
      }
    }

    /** A content, hint or tags leaf: the path is added at most once, and a
        list's head is removed only when it is that path. */
    method VisitLeaf(path: Path)
      modifies this
      ensures var bp := |old(beforeList)| > 0 && old(beforeList)[0] == path;
              var ap := |old(afterList)| > 0 && old(afterList)[0] == path;
              result == old(result) + (if bp || ap then [path] else []) &&
              beforeList == (if bp then old(beforeList)[1..] else old(beforeList)) &&
              afterList == (if ap then old(afterList)[1..] else old(afterList))
    {
      var beforePath := false;
      if |beforeList| > 0 {
        beforePath := CheckPath(path, beforeList[0]);
      }
      var afterPath := false;
      if |afterList| > 0 {
        afterPath := CheckPath(path, afterList[0]);
      }
      if beforePath && afterPath {
        result := result + [path];
        beforeList := beforeList[1..];
        afterList := afterList[1..];
      } else if beforePath {
        result := result + [path];
        beforeList := beforeList[1..];
      } else if afterPath {
        result := result + [path];
        afterList := afterList[1..];
      }
    }

    /** An array shape: indices 0, 1, 2, ... are visited in turn, for as long
        as the head of either list begins with the path of the next index. */
    method VisitArray(shape: Shape, path: Path)
      requires shape.ArrayOf?
      modifies this
      ensures State() == WalkArray(shape, path, 0, old(State()))
      decreases shape, 1
    {
      ghost var target := WalkArray(shape, path, 0, State());
      var index: nat := 0;
      var newPath := path + [Index(index)];
      var go := HeadBeginsWith(newPath);
      while go
        invariant newPath == path + [Index(index)]
        invariant go <==> HeadBegins(State(), newPath)
        invariant WalkArray(shape, path, index, State()) == target
        decreases |beforeList| + |afterList|,
                  HeadsAhead(beforeList, path, index) + HeadsAhead(afterList, path, index)
      {
        VisitIndex(shape, path, index);
        index := index + 1;
        newPath := path + [Index(index)];
        go := HeadBeginsWith(newPath);
      }
      WalkArrayStop(shape, path, index, State());
    }

    /** One turn of the array loop: the element at `index` is walked. Either
        something is removed from the lists, or nothing changes and the head
        that began with the index is left behind. */
    method VisitIndex(shape: Shape, path: Path, index: nat)
      requires shape.ArrayOf? && HeadBegins(State(), path + [Index(index)])
      modifies this
      ensures WalkArray(shape, path, index + 1, State()) == WalkArray(shape, path, index, old(State()))
      ensures |beforeList| + |afterList| < |old(beforeList)| + |old(afterList)| ||
              (beforeList == old(beforeList) && afterList == old(afterList) &&
               HeadsAhead(beforeList, path, index + 1) + HeadsAhead(afterList, path, index + 1) <
               HeadsAhead(old(beforeList), path, index) + HeadsAhead(old(afterList), path, index))
      decreases shape, 0
    {
      ghost var s1 := State();
      GenerateCompletePathsList(shape.elementShape, path + [Index(index)]);
      NoProgressMeansHeadPassed(s1.before, beforeList, s1.after, afterList, path, index);
      WalkArrayStep(shape, path, index, s1);
    }

    /** An object shape: its keys are visited in order. */
    method VisitObject(shape: Shape, path: Path)
      requires shape.ObjectOf?
      modifies this
      ensures State() == WalkObject(shape, path, 0, old(State()))
      decreases shape, 1
    {
      var keys := shape.fields;
      var i := 0;
      while i < |keys|
        invariant 0 <= i <= |keys|
        invariant WalkObject(shape, path, i, State()) == WalkObject(shape, path, 0, old(State()))
      {
        assert keys[i] in shape.fields;
        GenerateCompletePathsList(keys[i].1, path + [Key(keys[i].0)]);
        i := i + 1;
      }
    }

    /** The array loop's condition: a head of either list begins with
        `newPath`. */
    method HeadBeginsWith(newPath: Path) returns (go: bool)
      ensures go <==> HeadBegins(State(), newPath)
    {
      go := false;
      if |beforeList| > 0 {
        go := BeginsWith(beforeList[0], newPath);
      }
      if !go && |afterList| > 0 {
        go := BeginsWith(afterList[0], newPath);
      }
    }
  }

  /** `render`'s merge: both leaf lists are walked from the shape's root, and
      every merged path comes from one of them. */
  method CompletePaths(beforeList: seq<Path>, afterList: seq<Path>, shape: Shape) returns (allDiffPaths: seq<Path>)
    ensures allDiffPaths == Walk(shape, [], WalkState(beforeList, afterList, [])).result
    ensures forall p :: p in allDiffPaths ==> p in beforeList || p in afterList
  {
    var walk := new PathWalk(beforeList, afterList);
    walk.GenerateCompletePathsList(shape, []);
    allDiffPaths := walk.result;
    WalkAccounted(shape, [], WalkState(beforeList, afterList, []));
    assert allDiffPaths == allDiffPaths[0..];
    forall p | p in allDiffPaths ensures p in beforeList || p in afterList {
      assert p in Consumed(beforeList, walk.beforeList) || p in Consumed(afterList, walk.afterList);
    }
  }

  /** An item as the diff sees it: a leaf, an array of elements, an object
      with one child per key of its shape (in the shape's order), or anything
      else. */
  datatype Tree = TLeaf | TArray(elements: seq<Tree>) | TObject(children: seq<Tree>) | TOther

  /** A path below `path + [x]` is below `path`, with `x` next. */
  lemma PrefixExtend(path: Path, x: PathElem)
    ensures forall p :: IsPrefix(path + [x], p) ==> IsPrefix(path, p) && p[|path|] == x
  {
    forall p | IsPrefix(path + [x], p) ensures IsPrefix(path, p) && p[|path|] == x {
      assert p[..|path|] == (path + [x])[..|path|];
      assert p[|path|] == (path + [x])[|path|];
    }
  }

  /** The number of elements of a version's array (none for a missing
      version). */
  function ElementCount(o: Option<Tree>): nat {
    if o.Some? && o.value.TArray? then |o.value.elements| else 0
  }

  /** The element at `i` of a version's array, if there is one. */
  function ElementAt(o: Option<Tree>, i: nat): Option<Tree> {
    if i < ElementCount(o) then Some(o.value.elements[i]) else None
  }

  /** The child under the `j`th key of a version's object, if there is one. */
  function ChildAt(o: Option<Tree>, j: nat): Option<Tree> {
    if o.Some? && o.value.TObject? && j < |o.value.children| then Some(o.value.children[j]) else None
  }

  function Max(a: nat, b: nat): nat { if a < b then b else a }

  /** The paths of the content, hint and tags leaves that either of two
      versions has below `path` (`None` for a version that lacks this part),
      in the shape's order: array elements by index, object children by key
      order. */
  function ShapePaths(shape: Shape, o1: Option<Tree>, o2: Option<Tree>, path: Path): (r: seq<Path>)
    ensures forall p :: p in r ==> IsPrefix(path, p)
    decreases shape, 1
  {
    if o1.None? && o2.None? then []
    else
      match shape
      case ArrayOf(_) => ElementPaths(shape, o1, o2, path, 0)
      case ObjectOf(_) => FieldPaths(shape, o1, o2, path, 0)
      case OtherShape => []
      case _ => [path]
  }

  /** The leaf paths of the array elements from index `i` on. */
  function ElementPaths(shape: Shape, o1: Option<Tree>, o2: Option<Tree>, path: Path, i: nat): (r: seq<Path>)
    requires shape.ArrayOf?
    ensures forall p: Path :: p in r ==>
              IsPrefix(path, p) && |p| > |path| && p[|path|].Index? && p[|path|].index >= i
    decreases shape, 0, Max(ElementCount(o1), ElementCount(o2)) - i
  {
    if i >= Max(ElementCount(o1), ElementCount(o2)) then []
    else
      var newPath := path + [Index(i)];
      PrefixExtend(path, Index(i));
      ShapePaths(shape.elementShape, ElementAt(o1, i), ElementAt(o2, i), newPath) +
      ElementPaths(shape, o1, o2, path, i + 1)
  }

  /** The leaf paths of the object children from the `j`th key on. */
  function FieldPaths(shape: Shape, o1: Option<Tree>, o2: Option<Tree>, path: Path, j: nat): (r: seq<Path>)
    requires shape.ObjectOf? && j <= |shape.fields|
    ensures forall p: Path :: p in r ==>
              IsPrefix(path, p) && |p| > |path| && p[|path|].Key? && p[|path|].key in KeyNames(shape.fields)[j..]
    decreases shape, 0, |shape.fields| - j
  {
    if j == |shape.fields| || (o1.None? && o2.None?) then []
    else
      var field := shape.fields[j];
      assert field in shape.fields;
      var newPath := path + [Key(field.0)];
      PrefixExtend(path, Key(field.0));
      assert KeyNames(shape.fields)[j..] == [field.0] + KeyNames(shape.fields)[j + 1..];
      ShapePaths(field.1, ChildAt(o1, j), ChildAt(o2, j), newPath) + FieldPaths(shape, o1, o2, path, j + 1)
  }

  /** The leaf paths of one version, in the shape's order: what the tree
      mapper lists for it. */
  function Leaves(shape: Shape, o: Option<Tree>, path: Path): seq<Path> {
    ShapePaths(shape, o, None, path)
  }

  /** Every array element of a version has at least one leaf. */
  predicate Dense(shape: Shape, o: Option<Tree>, path: Path)
    decreases shape, 1
  {
    o.None? ||
    match shape
    case ArrayOf(_) => DenseElements(shape, o, path, 0)
    case ObjectOf(_) => DenseFields(shape, o, path, 0)
    case _ => true
  }

  predicate DenseElements(shape: Shape, o: Option<Tree>, path: Path, i: nat)
    requires shape.ArrayOf?
    decreases shape, 0, ElementCount(o) - i
  {
    i >= ElementCount(o) ||
    (Leaves(shape.elementShape, ElementAt(o, i), path + [Index(i)]) != [] &&
     Dense(shape.elementShape, ElementAt(o, i), path + [Index(i)]) &&
     DenseElements(shape, o, path, i + 1))
  }

  predicate DenseFields(shape: Shape, o: Option<Tree>, path: Path, j: nat)
    requires shape.ObjectOf? && j <= |shape.fields|
    decreases shape, 0, |shape.fields| - j
  {
    o.None? || j == |shape.fields| ||
    (assert shape.fields[j] in shape.fields;
     Dense(shape.fields[j].1, ChildAt(o, j), path + [Key(shape.fields[j].0)]) &&
     DenseFields(shape, o, path, j + 1))
  }

  /** The head of the list, if any, does not lie below `path`. */
  predicate HeadOutside(list: seq<Path>, path: Path) {
    list == [] || !IsPrefix(path, list[0])
  }

  /** The walk merges the mapper's lists: started on the leaf paths of two
      versions below `path`, followed by anything that does not lie below
      `path`, it removes exactly those leaf paths and adds their merge in the
      shape's order. */
  lemma {:induction false} WalkMerges(shape: Shape, path: Path, o1: Option<Tree>, o2: Option<Tree>,
                                      b: seq<Path>, a: seq<Path>, r: seq<Path>)
    requires WellFormed(shape) && Dense(shape, o1, path) && Dense(shape, o2, path)
    requires HeadOutside(b, path) && HeadOutside(a, path)
    ensures Walk(shape, path, WalkState(Leaves(shape, o1, path) + b, Leaves(shape, o2, path) + a, r)) ==
            WalkState(b, a, r + ShapePaths(shape, o1, o2, path))
    decreases shape, 1
  {
    if shape.ArrayOf? {
      assert Leaves(shape, o1, path) == ElementPaths(shape, o1, None, path, 0);
      assert Leaves(shape, o2, path) == ElementPaths(shape, o2, None, path, 0);
      assert ShapePaths(shape, o1, o2, path) == ElementPaths(shape, o1, o2, path, 0);
      WalkMergesElements(shape, path, o1, o2, 0, b, a, r);
    } else if shape.ObjectOf? {
      assert Leaves(shape, o1, path) == FieldPaths(shape, o1, None, path, 0);
      assert Leaves(shape, o2, path) == FieldPaths(shape, o2, None, path, 0);
      assert ShapePaths(shape, o1, o2, path) == FieldPaths(shape, o1, o2, path, 0);
      WalkMergesFields(shape, path, o1, o2, 0, b, a, r);
    } else if IsLeaf(shape) {
      WalkMergesLeaf(shape, path, o1, o2, b, a, r);
    } else {
      assert Leaves(shape, o1, path) == [] && Leaves(shape, o2, path) == [];
      assert ShapePaths(shape, o1, o2, path) == [];
      assert r + [] == r;
    }
  }

  lemma WalkMergesLeaf(shape: Shape, path: Path, o1: Option<Tree>, o2: Option<Tree>,
                       b: seq<Path>, a: seq<Path>, r: seq<Path>)
    requires IsLeaf(shape) && HeadOutside(b, path) && HeadOutside(a, path)
    ensures Walk(shape, path, WalkState(Leaves(shape, o1, path) + b, Leaves(shape, o2, path) + a, r)) ==
            WalkState(b, a, r + ShapePaths(shape, o1, o2, path))
  {
    LeafList(shape, path, o1, b);
    LeafList(shape, path, o2, a);
    assert ShapePaths(shape, o1, o2, path) == if o1.Some? || o2.Some? then [path] else [];
  }

  /** At a leaf, a version's list starts with the leaf's path exactly when
      the version has the leaf, and removing it leaves what follows. */
  lemma LeafList(shape: Shape, path: Path, o: Option<Tree>, b: seq<Path>)
    requires IsLeaf(shape) && HeadOutside(b, path)
    ensures var list := Leaves(shape, o, path) + b;
            ((|list| > 0 && list[0] == path) <==> o.Some?) &&
            (if o.Some? then list[1..] else list) == b
  {
    assert IsPrefix(path, path);
    if o.Some? {
      assert Leaves(shape, o, path) == [path];
      assert ([path] + b)[1..] == b;
    } else {
      assert Leaves(shape, o, path) == [];
      assert [] + b == b;
    }
  }

  lemma Assoc<T>(x: seq<T>, y: seq<T>, z: seq<T>)
    ensures (x + y) + z == x + (y + z)
  {
  }

  lemma {:induction false} WalkMergesElements(shape: Shape, path: Path, o1: Option<Tree>, o2: Option<Tree>, i: nat,
                                              b: seq<Path>, a: seq<Path>, r: seq<Path>)
    requires shape.ArrayOf? && WellFormed(shape.elementShape)
    requires DenseElements(shape, o1, path, i) && DenseElements(shape, o2, path, i)
    requires HeadOutside(b, path) && HeadOutside(a, path)
    ensures WalkArray(shape, path, i, WalkState(ElementPaths(shape, o1, None, path, i) + b,
                                                ElementPaths(shape, o2, None, path, i) + a, r)) ==
            WalkState(b, a, r + ElementPaths(shape, o1, o2, path, i))
    decreases shape, 0, Max(ElementCount(o1), ElementCount(o2)) - i, 1
  {
    if i >= Max(ElementCount(o1), ElementCount(o2)) {
      ElementsEnd(shape, path, o1, o2, i, b, a, r);
    } else {
      ElementsStep(shape, path, o1, o2, i, b, a, r);
    }
  }

  /** One turn of the array loop over two versions: element `i` is merged,
      then the elements after it. */
  lemma {:induction false} ElementsStep(shape: Shape, path: Path, o1: Option<Tree>, o2: Option<Tree>, i: nat,
                                        b: seq<Path>, a: seq<Path>, r: seq<Path>)
    requires shape.ArrayOf? && WellFormed(shape.elementShape) && i < Max(ElementCount(o1), ElementCount(o2))
    requires DenseElements(shape, o1, path, i) && DenseElements(shape, o2, path, i)
    requires HeadOutside(b, path) && HeadOutside(a, path)
    ensures WalkArray(shape, path, i, WalkState(ElementPaths(shape, o1, None, path, i) + b,
                                                ElementPaths(shape, o2, None, path, i) + a, r)) ==
            WalkState(b, a, r + ElementPaths(shape, o1, o2, path, i))
    decreases shape, 0, Max(ElementCount(o1), ElementCount(o2)) - i, 0
  {
    var newPath := path + [Index(i)];
    var s := WalkState(ElementPaths(shape, o1, None, path, i) + b, ElementPaths(shape, o2, None, path, i) + a, r);
    var e := shape.elementShape;
    var e1, e2 := ElementAt(o1, i), ElementAt(o2, i);
    var rest1, rest2 := ElementPaths(shape, o1, None, path, i + 1), ElementPaths(shape, o2, None, path, i + 1);
    ElementsReady(shape, path, o1, o2, i, b, a, r);
    ElementsDense(shape, path, o1, i);
    ElementsDense(shape, path, o2, i);
    WalkArrayStep(shape, path, i, s);
    WalkMerges(e, newPath, e1, e2, rest1 + b, rest2 + a, r);
    var mid := r + ShapePaths(e, e1, e2, newPath);
    WalkMergesElements(shape, path, o1, o2, i + 1, b, a, mid);
    ElementsMerged(shape, path, o1, o2, i, r);
  }

  /** Before element `i` of either version: the loop goes on, each list is
      element `i`'s leaf paths followed by what lies outside it, and the
      elements are dense. */
  lemma ElementsReady(shape: Shape, path: Path, o1: Option<Tree>, o2: Option<Tree>, i: nat,
                      b: seq<Path>, a: seq<Path>, r: seq<Path>)
    requires shape.ArrayOf? && i < Max(ElementCount(o1), ElementCount(o2))
    requires DenseElements(shape, o1, path, i) && DenseElements(shape, o2, path, i)
    requires HeadOutside(b, path) && HeadOutside(a, path)
    ensures var newPath := path + [Index(i)];
            var e := shape.elementShape;
            var rest1 := ElementPaths(shape, o1, None, path, i + 1);
            var rest2 := ElementPaths(shape, o2, None, path, i + 1);
            var s := WalkState(ElementPaths(shape, o1, None, path, i) + b, ElementPaths(shape, o2, None, path, i) + a, r);
            HeadBegins(s, newPath) &&
            s == WalkState(Leaves(e, ElementAt(o1, i), newPath) + (rest1 + b),
                           Leaves(e, ElementAt(o2, i), newPath) + (rest2 + a), r) &&
            HeadOutside(rest1 + b, newPath) && HeadOutside(rest2 + a, newPath)
  {
    ElementsHead(shape, path, o1, i, b);
    ElementsHead(shape, path, o2, i, a);
  }

  /** Element `i` and the elements after it are dense. */
  lemma ElementsDense(shape: Shape, path: Path, o: Option<Tree>, i: nat)
    requires shape.ArrayOf? && DenseElements(shape, o, path, i)
    ensures Dense(shape.elementShape, ElementAt(o, i), path + [Index(i)]) && DenseElements(shape, o, path, i + 1)
  {
  }

  /** Past the last element of both versions there is nothing left, and the
      loop stops. */
  lemma ElementsEnd(shape: Shape, path: Path, o1: Option<Tree>, o2: Option<Tree>, i: nat,
                    b: seq<Path>, a: seq<Path>, r: seq<Path>)
    requires shape.ArrayOf? && i >= Max(ElementCount(o1), ElementCount(o2))
    requires HeadOutside(b, path) && HeadOutside(a, path)
    ensures WalkArray(shape, path, i, WalkState(ElementPaths(shape, o1, None, path, i) + b,
                                                ElementPaths(shape, o2, None, path, i) + a, r)) ==
            WalkState(b, a, r + ElementPaths(shape, o1, o2, path, i))
  {
    PrefixExtend(path, Index(i));
    assert ElementPaths(shape, o1, None, path, i) + b == b;
    assert ElementPaths(shape, o2, None, path, i) + a == a;
    assert r + ElementPaths(shape, o1, o2, path, i) == r;
    WalkArrayStop(shape, path, i, WalkState(b, a, r));
  }

  /** One version's leaf paths from element `i` on: those of element `i`,
      which begin with its index, then the rest, which do not. */
  lemma ElementsHead(shape: Shape, path: Path, o: Option<Tree>, i: nat, b: seq<Path>)
    requires shape.ArrayOf? && HeadOutside(b, path)
    ensures var newPath := path + [Index(i)];
            var l := Leaves(shape.elementShape, ElementAt(o, i), newPath);
            var rest := ElementPaths(shape, o, None, path, i + 1);
            ElementPaths(shape, o, None, path, i) + b == l + (rest + b) &&
            HeadOutside(rest + b, newPath) &&
            (l != [] ==> IsPrefix(newPath, (l + (rest + b))[0]))
  {
    var newPath := path + [Index(i)];
    PrefixExtend(path, Index(i));
    var l := Leaves(shape.elementShape, ElementAt(o, i), newPath);
    var rest := ElementPaths(shape, o, None, path, i + 1);
    assert ElementPaths(shape, o, None, path, i) == l + rest;
    Assoc(l, rest, b);
    if rest != [] {
      assert rest[0] in rest;
    }
    if l != [] {
      assert l[0] in l;
    }
  }

  /** The merged paths from element `i` on: those of element `i`, then the
      rest. */
  lemma ElementsMerged(shape: Shape, path: Path, o1: Option<Tree>, o2: Option<Tree>, i: nat, r: seq<Path>)
    requires shape.ArrayOf? && i < Max(ElementCount(o1), ElementCount(o2))
    ensures r + ShapePaths(shape.elementShape, ElementAt(o1, i), ElementAt(o2, i), path + [Index(i)]) +
            ElementPaths(shape, o1, o2, path, i + 1) == r + ElementPaths(shape, o1, o2, path, i)
  {
  }

  lemma {:induction false} WalkMergesFields(shape: Shape, path: Path, o1: Option<Tree>, o2: Option<Tree>, j: nat,
                                            b: seq<Path>, a: seq<Path>, r: seq<Path>)
    requires shape.ObjectOf? && j <= |shape.fields| && WellFormed(shape)
    requires DenseFields(shape, o1, path, j) && DenseFields(shape, o2, path, j)
    requires HeadOutside(b, path) && HeadOutside(a, path)
    ensures WalkObject(shape, path, j, WalkState(FieldPaths(shape, o1, None, path, j) + b,
                                                 FieldPaths(shape, o2, None, path, j) + a, r)) ==
            WalkState(b, a, r + FieldPaths(shape, o1, o2, path, j))
    decreases shape, 0, |shape.fields| - j, 1
  {
    if j == |shape.fields| {
      assert FieldPaths(shape, o1, None, path, j) + b == b;
      assert FieldPaths(shape, o2, None, path, j) + a == a;
      assert r + FieldPaths(shape, o1, o2, path, j) == r;
    } else {
      FieldsStep(shape, path, o1, o2, j, b, a, r);
    }
  }

  lemma {:induction false} FieldsStep(shape: Shape, path: Path, o1: Option<Tree>, o2: Option<Tree>, j: nat,
                                      b: seq<Path>, a: seq<Path>, r: seq<Path>)
    requires shape.ObjectOf? && j < |shape.fields| && WellFormed(shape)
    requires DenseFields(shape, o1, path, j) && DenseFields(shape, o2, path, j)
    requires HeadOutside(b, path) && HeadOutside(a, path)
    ensures WalkObject(shape, path, j, WalkState(FieldPaths(shape, o1, None, path, j) + b,
                                                 FieldPaths(shape, o2, None, path, j) + a, r)) ==
            WalkState(b, a, r + FieldPaths(shape, o1, o2, path, j))
    decreases shape, 0, |shape.fields| - j, 0
  {
    var field := shape.fields[j];
    assert field in shape.fields;
    var newPath := path + [Key(field.0)];
    var c1, c2 := ChildAt(o1, j), ChildAt(o2, j);
    var rest1, rest2 := FieldPaths(shape, o1, None, path, j + 1), FieldPaths(shape, o2, None, path, j + 1);
    FieldsHead(shape, path, o1, j, b);
    FieldsHead(shape, path, o2, j, a);
    var s := WalkState(Leaves(field.1, c1, newPath) + (rest1 + b), Leaves(field.1, c2, newPath) + (rest2 + a), r);
    WalkObjectStep(shape, path, j, s);
    FieldsDense(shape, path, o1, j);
    FieldsDense(shape, path, o2, j);
    WalkMerges(field.1, newPath, c1, c2, rest1 + b, rest2 + a, r);
    var mid := r + ShapePaths(field.1, c1, c2, newPath);
    WalkMergesFields(shape, path, o1, o2, j + 1, b, a, mid);
    FieldsMerged(shape, path, o1, o2, j, r);
  }

  /** The child under key `j` and the children after it are dense. */
  lemma FieldsDense(shape: Shape, path: Path, o: Option<Tree>, j: nat)
    requires shape.ObjectOf? && j < |shape.fields| && DenseFields(shape, o, path, j)
    ensures Dense(shape.fields[j].1, ChildAt(o, j), path + [Key(shape.fields[j].0)]) &&
            DenseFields(shape, o, path, j + 1)
  {
  }

  /** One turn of the key loop. */
  lemma WalkObjectStep(shape: Shape, path: Path, j: nat, s: WalkState)
    requires shape.ObjectOf? && j < |shape.fields|
    ensures WalkObject(shape, path, j, s) ==
            WalkObject(shape, path, j + 1, Walk(shape.fields[j].1, path + [Key(shape.fields[j].0)], s))
  {
  }

  /** One version's leaf paths from key `j` on: those under key `j`, then
      the rest, which lie under later keys and so not under key `j`. */
  lemma FieldsHead(shape: Shape, path: Path, o: Option<Tree>, j: nat, b: seq<Path>)
    requires shape.ObjectOf? && j < |shape.fields| && NoDuplicates(KeyNames(shape.fields)) && HeadOutside(b, path)
    ensures var newPath := path + [Key(shape.fields[j].0)];
            var rest := FieldPaths(shape, o, None, path, j + 1);
            FieldPaths(shape, o, None, path, j) + b ==
              Leaves(shape.fields[j].1, ChildAt(o, j), newPath) + (rest + b) &&
            HeadOutside(rest + b, newPath)
  {
    var field := shape.fields[j];
    var newPath := path + [Key(field.0)];
    PrefixExtend(path, Key(field.0));
    FieldsDistinct(shape, j);
    var l := Leaves(field.1, ChildAt(o, j), newPath);
    var rest := FieldPaths(shape, o, None, path, j + 1);
    assert FieldPaths(shape, o, None, path, j) == l + rest;
    Assoc(l, rest, b);
    if rest != [] {
      assert rest[0] in rest;
    }
  }

  /** The merged paths from key `j` on: those under key `j`, then the rest. */
  lemma FieldsMerged(shape: Shape, path: Path, o1: Option<Tree>, o2: Option<Tree>, j: nat, r: seq<Path>)
    requires shape.ObjectOf? && j < |shape.fields|
    ensures r + ShapePaths(shape.fields[j].1, ChildAt(o1, j), ChildAt(o2, j), path + [Key(shape.fields[j].0)]) +
            FieldPaths(shape, o1, o2, path, j + 1) == r + FieldPaths(shape, o1, o2, path, j)
  {
    if o1.None? && o2.None? {
      assert ChildAt(o1, j) == None && ChildAt(o2, j) == None;
    }
  }

  /** `render`'s merge of the mapper's lists: when the two lists are the leaf
      paths of two versions of an item, in the shape's order, both are used up
      and the merged list is the leaf paths of either version, in the shape's
      order. */
  lemma CompletePathsMerges(shape: Shape, before: Tree, after: Tree)
    requires WellFormed(shape) && Dense(shape, Some(before), []) && Dense(shape, Some(after), [])
    ensures Walk(shape, [], WalkState(Leaves(shape, Some(before), []), Leaves(shape, Some(after), []), [])) ==
            WalkState([], [], ShapePaths(shape, Some(before), Some(after), []))
  {
    WalkMerges(shape, [], Some(before), Some(after), [], [], []);
    assert Leaves(shape, Some(before), []) + [] == Leaves(shape, Some(before), []);
    assert Leaves(shape, Some(after), []) + [] == Leaves(shape, Some(after), []);
  }

  /** The merged paths are exactly the leaf paths of either version. */
  lemma {:induction false} ShapePathsUnion(shape: Shape, o1: Option<Tree>, o2: Option<Tree>, path: Path)
    ensures forall p :: p in ShapePaths(shape, o1, o2, path) <==>
                        p in Leaves(shape, o1, path) || p in Leaves(shape, o2, path)
    decreases shape, 1
  {
    if o1.None? && o2.None? {
    } else if shape.ArrayOf? {
      ElementPathsUnion(shape, o1, o2, path, 0);
    } else if shape.ObjectOf? {
      FieldPathsUnion(shape, o1, o2, path, 0);
    }
  }

  lemma {:induction false} ElementPathsUnion(shape: Shape, o1: Option<Tree>, o2: Option<Tree>, path: Path, i: nat)
    requires shape.ArrayOf?
    ensures forall p :: p in ElementPaths(shape, o1, o2, path, i) <==>
                        p in ElementPaths(shape, o1, None, path, i) || p in ElementPaths(shape, o2, None, path, i)
    decreases shape, 0, Max(ElementCount(o1), ElementCount(o2)) - i
  {
    if i < Max(ElementCount(o1), ElementCount(o2)) {
      var newPath := path + [Index(i)];
      ShapePathsUnion(shape.elementShape, ElementAt(o1, i), ElementAt(o2, i), newPath);
      ElementPathsUnion(shape, o1, o2, path, i + 1);
    }
  }

  lemma {:induction false} FieldPathsUnion(shape: Shape, o1: Option<Tree>, o2: Option<Tree>, path: Path, j: nat)
    requires shape.ObjectOf? && j <= |shape.fields|
    ensures forall p :: p in FieldPaths(shape, o1, o2, path, j) <==>
                        p in FieldPaths(shape, o1, None, path, j) || p in FieldPaths(shape, o2, None, path, j)
    decreases shape, 0, |shape.fields| - j
  {
    if j < |shape.fields| && (o1.Some? || o2.Some?) {
      var field := shape.fields[j];
      assert field in shape.fields;
      ShapePathsUnion(field.1, ChildAt(o1, j), ChildAt(o2, j), path + [Key(field.0)]);
      FieldPathsUnion(shape, o1, o2, path, j + 1);
    }
  }

  /** Two lists without repeats and without a common element join into a
      list without repeats. */
  lemma NoDuplicatesConcat(x: seq<Path>, y: seq<Path>)
    requires NoDuplicates(x) && NoDuplicates(y) && forall p :: p in x ==> p !in y
    ensures NoDuplicates(x + y)
  {
    forall i, j | 0 <= i < j < |x + y| ensures (x + y)[i] != (x + y)[j] {
      if i < |x| && j >= |x| {
        assert (x + y)[i] in x && (x + y)[j] == y[j - |x|];
      }
    }
  }

  /** Each path is merged once, because the paths below different indices
      or different keys differ. */
  lemma {:induction false} ShapePathsNoDuplicates(shape: Shape, o1: Option<Tree>, o2: Option<Tree>, path: Path)
    requires WellFormed(shape)
    ensures NoDuplicates(ShapePaths(shape, o1, o2, path))
    decreases shape, 1
  {
    if o1.None? && o2.None? {
    } else if shape.ArrayOf? {
      ElementPathsNoDuplicates(shape, o1, o2, path, 0);
    } else if shape.ObjectOf? {
      FieldPathsNoDuplicates(shape, o1, o2, path, 0);
    }
  }

  lemma {:induction false} ElementPathsNoDuplicates(shape: Shape, o1: Option<Tree>, o2: Option<Tree>, path: Path, i: nat)
    requires shape.ArrayOf? && WellFormed(shape)
    ensures NoDuplicates(ElementPaths(shape, o1, o2, path, i))
    decreases shape, 0, Max(ElementCount(o1), ElementCount(o2)) - i
  {
    if i < Max(ElementCount(o1), ElementCount(o2)) {
      var newPath := path + [Index(i)];
      ShapePathsNoDuplicates(shape.elementShape, ElementAt(o1, i), ElementAt(o2, i), newPath);
      ElementPathsNoDuplicates(shape, o1, o2, path, i + 1);
      ElementsDisjoint(shape, o1, o2, path, i);
      NoDuplicatesConcat(ShapePaths(shape.elementShape, ElementAt(o1, i), ElementAt(o2, i), newPath),
                         ElementPaths(shape, o1, o2, path, i + 1));
    }
  }

  /** The paths under index `i` are not among those under later indices. */
  lemma ElementsDisjoint(shape: Shape, o1: Option<Tree>, o2: Option<Tree>, path: Path, i: nat)
    requires shape.ArrayOf? && i < Max(ElementCount(o1), ElementCount(o2))
    ensures ElementPaths(shape, o1, o2, path, i) ==
            ShapePaths(shape.elementShape, ElementAt(o1, i), ElementAt(o2, i), path + [Index(i)]) +
            ElementPaths(shape, o1, o2, path, i + 1)
    ensures forall p :: p in ShapePaths(shape.elementShape, ElementAt(o1, i), ElementAt(o2, i), path + [Index(i)]) ==>
                        p !in ElementPaths(shape, o1, o2, path, i + 1)
  {
    PrefixExtend(path, Index(i));
  }

  lemma {:induction false} FieldPathsNoDuplicates(shape: Shape, o1: Option<Tree>, o2: Option<Tree>, path: Path, j: nat)
    requires shape.ObjectOf? && j <= |shape.fields| && WellFormed(shape)
    ensures NoDuplicates(FieldPaths(shape, o1, o2, path, j))
    decreases shape, 0, |shape.fields| - j
  {
    if j < |shape.fields| && (o1.Some? || o2.Some?) {
      var field := shape.fields[j];
      assert field in shape.fields;
      var newPath := path + [Key(field.0)];
      ShapePathsNoDuplicates(field.1, ChildAt(o1, j), ChildAt(o2, j), newPath);
      FieldPathsNoDuplicates(shape, o1, o2, path, j + 1);
      FieldsDisjoint(shape, o1, o2, path, j);
      NoDuplicatesConcat(ShapePaths(field.1, ChildAt(o1, j), ChildAt(o2, j), newPath),
                         FieldPaths(shape, o1, o2, path, j + 1));
    }
  }

  /** The paths under the `j`th key are not among those under later keys. */
  lemma FieldsDisjoint(shape: Shape, o1: Option<Tree>, o2: Option<Tree>, path: Path, j: nat)
    requires shape.ObjectOf? && j < |shape.fields| && (o1.Some? || o2.Some?) && WellFormed(shape)
    ensures FieldPaths(shape, o1, o2, path, j) ==
            ShapePaths(shape.fields[j].1, ChildAt(o1, j), ChildAt(o2, j), path + [Key(shape.fields[j].0)]) +
            FieldPaths(shape, o1, o2, path, j + 1)
    ensures forall p :: p in ShapePaths(shape.fields[j].1, ChildAt(o1, j), ChildAt(o2, j), path + [Key(shape.fields[j].0)]) ==>
                        p !in FieldPaths(shape, o1, o2, path, j + 1)
  {
    PrefixExtend(path, Key(shape.fields[j].0));
    FieldsDistinct(shape, j);
  }

  /** No key after the `j`th repeats it. */
  lemma FieldsDistinct(shape: Shape, j: nat)
    requires shape.ObjectOf? && j < |shape.fields| && NoDuplicates(KeyNames(shape.fields))
    ensures shape.fields[j].0 !in KeyNames(shape.fields)[j + 1..]
  {
    var names := KeyNames(shape.fields);
    assert forall m :: j < m < |names| ==> names[m] != names[j];
  }

  /** Why the merge needs `Dense`: the array loop stops at the first index
      that neither list's head begins with, so a leaf under element 1 of an
      array whose element 0 has no leaf is neither consumed nor diffed. */
  lemma EmptyElementStopsWalk()
    ensures var shape := ArrayOf(ArrayOf(Content));
            var before := TArray([TArray([]), TArray([TLeaf])]);
            Leaves(shape, Some(before), []) == [[Index(1), Index(0)]] &&
            Walk(shape, [], WalkState([[Index(1), Index(0)]], [], [])) ==
              WalkState([[Index(1), Index(0)]], [], [])
  {
    EmptyElementLeaves();
    var s := WalkState([[Index(1), Index(0)]], [], []);
    assert [Index(1), Index(0)][..1] == [Index(1)];
    assert !HeadBegins(s, [] + [Index(0)]);
    WalkArrayStop(ArrayOf(ArrayOf(Content)), [], 0, s);
  }

  lemma EmptyElementLeaves()
    ensures Leaves(ArrayOf(ArrayOf(Content)), Some(TArray([TArray([]), TArray([TLeaf])])), []) ==
            [[Index(1), Index(0)]]
  {
    var shape := ArrayOf(ArrayOf(Content));
    var o := Some(TArray([TArray([]), TArray([TLeaf])]));
    assert ElementPaths(shape, o, None, [], 2) == [];
    assert ElementAt(o, 1) == Some(TArray([TLeaf]));
    assert [] + [Index(1)] == [Index(1)];
    SecondElementLeaves();
    assert ElementPaths(shape, o, None, [], 1) == [[Index(1), Index(0)]];
    assert ElementAt(o, 0) == Some(TArray([]));
    assert [] + [Index(0)] == [Index(0)];
    FirstElementLeaves();
  }

  /** Element 0 has no leaf. */
  lemma FirstElementLeaves()
    ensures ShapePaths(ArrayOf(Content), Some(TArray([])), None, [Index(0)]) == []
  {
    assert ElementPaths(ArrayOf(Content), Some(TArray([])), None, [Index(0)], 0) == [];
  }

  /** Element 1 has one leaf, at its index 0. */
  lemma SecondElementLeaves()
    ensures ShapePaths(ArrayOf(Content), Some(TArray([TLeaf])), None, [Index(1)]) == [[Index(1), Index(0)]]
  {
    var o := Some(TArray([TLeaf]));
    assert [Index(1)] + [Index(0)] == [Index(1), Index(0)];
    assert ElementAt(o, 0) == Some(TLeaf);
    assert ShapePaths(Content, Some(TLeaf), None, [Index(1), Index(0)]) == [[Index(1), Index(0)]];
    assert ElementPaths(ArrayOf(Content), o, None, [Index(1)], 1) == [];
    assert ElementPaths(ArrayOf(Content), o, None, [Index(1)], 0) == [[Index(1), Index(0)]];
  }

  /** The tag names of a leaf's value: nothing for a value that is not an
      array, otherwise the names of its string entries in order. */
  function TagNames(tagIds: Value, idToName: string -> string): (r: seq<string>)
    ensures !tagIds.List? ==> r == []
    ensures tagIds.List? ==> |r| <= |tagIds.items|
    ensures tagIds.List? ==> |r| == |StringEntries(tagIds.items)|
    ensures tagIds.List? ==> forall k :: 0 <= k < |r| ==> r[k] == idToName(StringEntries(tagIds.items)[k])
    ensures tagIds.List? ==> forall v :: v in tagIds.items && v.Str? ==> idToName(v.s) in r
    ensures tagIds.List? ==> forall t :: t in r ==> exists v :: v in tagIds.items && v.Str? && t == idToName(v.s)
  {
    if tagIds.List? then
      NamesOfStringsInOrder(tagIds.items, idToName);
      NamesOfStrings(tagIds.items, idToName)
    else []
  }

  /** The names of the string entries, in order: one name per string entry. */
  function NamesOfStrings(ids: seq<Value>, idToName: string -> string): (r: seq<string>)
    ensures |r| <= |ids|
    ensures forall v :: v in ids && v.Str? ==> idToName(v.s) in r
    ensures forall t :: t in r ==> exists v :: v in ids && v.Str? && t == idToName(v.s)
    decreases |ids|
  {
    if ids == [] then []
    else
      assert ids == [ids[0]] + ids[1..];
      (if ids[0].Str? then [idToName(ids[0].s)] else []) + NamesOfStrings(ids[1..], idToName)
  }

  /** The string entries of a list, in order (`typeof tagId === "string"`). */
  function StringEntries(ids: seq<Value>): seq<string>
    decreases |ids|
  {
    if ids == [] then []
    else (if ids[0].Str? then [ids[0].s] else []) + StringEntries(ids[1..])
  }

  /** One name per string entry, in the order of the entries: the kth name is
      the name of the kth string entry. */
  lemma {:induction false} NamesOfStringsInOrder(ids: seq<Value>, idToName: string -> string)
    ensures |NamesOfStrings(ids, idToName)| == |StringEntries(ids)|
    ensures forall k :: 0 <= k < |StringEntries(ids)| ==>
              NamesOfStrings(ids, idToName)[k] == idToName(StringEntries(ids)[k])
    decreases |ids|
  {
    if ids != [] {
      NamesOfStringsInOrder(ids[1..], idToName);
    }
  }

  /** The tag diff of one path: the tags in both versions, only in the old one
      and only in the new one. */
  datatype TagPartition = TagPartition(intersection: seq<string>, beforeOnly: seq<string>, afterOnly: seq<string>)

  function InTags(tags: seq<string>): string -> bool { t => t in tags }

  function NotInTags(tags: seq<string>): string -> bool { t => t !in tags }

  /** The partition of the tag names: the shared and the old-only tags
      together have as many entries as the old tags, and there are no more
      new-only tags than new tags. */
  function PartitionTags(beforeTags: seq<string>, afterTags: seq<string>): (r: TagPartition)
    ensures |r.intersection| + |r.beforeOnly| == |beforeTags|
    ensures |r.afterOnly| <= |afterTags|
  {
    SplitByMembership(beforeTags, afterTags);
    assert |multiset(beforeTags)| == |beforeTags|;
    TagPartition(
      Filter(beforeTags, InTags(afterTags)),
      Filter(beforeTags, NotInTags(afterTags)),
      Filter(afterTags, NotInTags(beforeTags)))
  }

  /** The intersection and the old-only tags split the old tags between them. */
  lemma PartitionTagsSplitsBefore(beforeTags: seq<string>, afterTags: seq<string>)
    ensures var p := PartitionTags(beforeTags, afterTags);
            multiset(p.intersection) + multiset(p.beforeOnly) == multiset(beforeTags)
  {
    SplitByMembership(beforeTags, afterTags);
  }

  lemma SplitByMembership(s: seq<string>, tags: seq<string>)
    ensures multiset(Filter(s, InTags(tags))) + multiset(Filter(s, NotInTags(tags))) == multiset(s)
  {
    forall x ensures multiset(Filter(s, InTags(tags)))[x] + multiset(Filter(s, NotInTags(tags)))[x] == multiset(s)[x] {
      FilterCount(s, InTags(tags), x);
      FilterCount(s, NotInTags(tags), x);
    }
  }

  /** Each list of the partition keeps the order of the list it comes from and
      holds exactly the tags its name says. */
  lemma PartitionTagsMembers(beforeTags: seq<string>, afterTags: seq<string>)
    ensures var p := PartitionTags(beforeTags, afterTags);
            IsSubsequence(p.intersection, beforeTags) && IsSubsequence(p.beforeOnly, beforeTags) &&
            IsSubsequence(p.afterOnly, afterTags) &&
            (forall t :: t in p.intersection <==> t in beforeTags && t in afterTags) &&
            (forall t :: t in p.beforeOnly <==> t in beforeTags && t !in afterTags) &&
            (forall t :: t in p.afterOnly <==> t in afterTags && t !in beforeTags)
  {
    var p := PartitionTags(beforeTags, afterTags);
    forall t ensures t in p.intersection <==> t in beforeTags && t in afterTags {
      if t in beforeTags && t in afterTags {
        var i :| 0 <= i < |beforeTags| && beforeTags[i] == t;
        assert InTags(afterTags)(beforeTags[i]);
      }
    }
    forall t ensures t in p.beforeOnly <==> t in beforeTags && t !in afterTags {
      if t in beforeTags && t !in afterTags {
        var i :| 0 <= i < |beforeTags| && beforeTags[i] == t;
        assert NotInTags(afterTags)(beforeTags[i]);
      }
    }
    forall t ensures t in p.afterOnly <==> t in afterTags && t !in beforeTags {
      if t in afterTags && t !in beforeTags {
        var i :| 0 <= i < |afterTags| && afterTags[i] == t;
        assert NotInTags(beforeTags)(afterTags[i]);
      }
    }
  }

  /** The separator rule: every diff but the last is followed by a separator. */
  function ShowSeparators(diffCount: nat): (r: seq<bool>)
    ensures |r| == diffCount
    ensures forall n :: 0 <= n < diffCount ==> (r[n] <==> n != diffCount - 1)
  {
    seq(diffCount, n requires 0 <= n < diffCount => n < diffCount - 1)
  }
}
