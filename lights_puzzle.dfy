/** The lights puzzle widget: a grid of lights where clicking a tile flips the
    tiles a 3x3 pattern selects around it, the pattern possibly alternating from
    move to move, and the puzzle is solved when every light is on. */
module LightsPuzzle {
  import opened Common

  /** Rows of lights; `true` is on. */
  type Grid = seq<seq<bool>>

  /** The `flipPattern` prop: which entry of the pattern table is in use. */
  datatype PatternKind = Plus | X | PlusX

  function PlusGrid(): Grid {
    [[false, true, false],
     [true, true, true],
     [false, true, false]]
  }

  function XGrid(): Grid {
    [[true, false, true],
     [false, true, false],
     [true, false, true]]
  }

  /** The pattern table: the pattern used for the move numbered `iter`.
      "plus/x" alternates, starting with plus. */
  function Pattern(kind: PatternKind, iter: nat): (r: Grid)
    ensures |r| == 3 && forall y :: 0 <= y < 3 ==> |r[y]| == 3
    ensures r[1][1]
    ensures kind == PlusX ==> (r == XGrid() <==> iter % 2 == 1)
    ensures kind == PlusX ==> (r == PlusGrid() <==> iter % 2 == 0)
  {
    match kind
    case Plus => PlusGrid()
    case X => XGrid()
    case PlusX => if iter % 2 == 1 then XGrid() else PlusGrid()
  }

  /** `Math.floor`, then clamped into [min, max]. */
  function ClampToInt(value: real, min: int, max: int): (r: int)
    ensures min <= max ==> min <= r <= max
    ensures min <= value.Floor <= max ==> r == value.Floor
    ensures value.Floor < min && min <= max ==> r == min
    ensures max < value.Floor ==> r == max
  {
    var v := value.Floor;
    var v := if v < min then min else v;
    if v > max then max else v
  }

  /** `grid` has the same shape as `other`: as many rows, each as long. */
  predicate SameShape(grid: Grid, other: Grid) {
    |grid| == |other| && forall y :: 0 <= y < |grid| ==> |grid[y]| == |other[y]|
  }

  /** A copy of `cells` in which each tile whose (row, column) satisfies `flip`
      is negated. */
  function FlipTilesPredicate(cells: Grid, flip: (nat, nat) -> bool): (r: Grid)
    ensures SameShape(r, cells)
    ensures forall y, x :: 0 <= y < |cells| && 0 <= x < |cells[y]| ==>
              r[y][x] == (if flip(y, x) then !cells[y][x] else cells[y][x])
  {
    seq(|cells|, y requires 0 <= y < |cells| =>
      seq(|cells[y]|, x requires 0 <= x < |cells[y]| =>
        if flip(y, x) then !cells[y][x] else cells[y][x]))
  }

  /** `pattern[i][j]`, with an index outside the pattern reading as `undefined`
      (falsy). */
  function PatternAt(pattern: Grid, i: int, j: int): bool {
    0 <= i < |pattern| && 0 <= j < |pattern[i]| && pattern[i][j]
  }

  function Abs(n: int): nat { if n < 0 then -n else n }

  /** Whether the tile at (y, x) is flipped by a click on (tileY, tileX). */
  predicate InPattern(pattern: Grid, tileY: int, tileX: int, y: int, x: int) {
    Abs(y - tileY) <= 1 && Abs(x - tileX) <= 1 && PatternAt(pattern, y - tileY + 1, x - tileX + 1)
  }

  /** The grid after a click on (tileY, tileX): a tile outside the 3x3
      neighbourhood of the click is unchanged; one inside it is flipped exactly
      when the pattern entry at its offset is set. */
  function FlipTilesPattern(cells: Grid, tileY: int, tileX: int, pattern: Grid): (r: Grid)
    ensures SameShape(r, cells)
    ensures forall y, x ::
              (0 <= y < |cells| && 0 <= x < |cells[y]| && (Abs(y - tileY) > 1 || Abs(x - tileX) > 1))
              ==> r[y][x] == cells[y][x]
    ensures forall y, x ::
              (0 <= y < |cells| && 0 <= x < |cells[y]| && Abs(y - tileY) <= 1 && Abs(x - tileX) <= 1)
              ==> (r[y][x] != cells[y][x] <==> PatternAt(pattern, y - tileY + 1, x - tileX + 1))
  {
    FlipTilesPredicate(cells, (y: nat, x: nat) => InPattern(pattern, tileY, tileX, y, x))
  }

  /** Flipping is negation, so clicking the same tile twice with the same
      pattern restores the grid. */
  lemma FlipTwice(cells: Grid, tileY: int, tileX: int, pattern: Grid)
    ensures FlipTilesPattern(FlipTilesPattern(cells, tileY, tileX, pattern), tileY, tileX, pattern) == cells
  {
    var once := FlipTilesPattern(cells, tileY, tileX, pattern);
    var twice := FlipTilesPattern(once, tileY, tileX, pattern);
    assert |twice| == |cells|;
    forall y | 0 <= y < |cells| ensures twice[y] == cells[y] {
      assert |twice[y]| == |cells[y]|;
      forall x | 0 <= x < |cells[y]| ensures twice[y][x] == cells[y][x] {
        if InPattern(pattern, tileY, tileX, y, x) {
          assert once[y][x] == !cells[y][x];
        }
      }
    }
  }

  /** `_width`: the length of the first row, or 0 for a grid with no rows; for a
      rectangular grid that is every row's length. */
  function Width(cells: Grid): (r: nat)
    ensures |cells| == 0 ==> r == 0
    ensures (forall y :: 0 <= y < |cells| ==> |cells[y]| == |cells[0]|) ==>
              forall y :: 0 <= y < |cells| ==> |cells[y]| == r
  {
    if |cells| != 0 then |cells[0]| else 0
  }

  /** Every tile of `cells` equals the tile at the same place in `start`; a
      place that `start` lacks reads as `undefined`, which no tile equals. */
  predicate SameAsStart(cells: Grid, start: Grid) {
    forall y :: 0 <= y < |cells| ==> RowSameAsStart(cells, start, y)
  }

  /** Row `y` of `cells` agrees with `start` tile by tile. */
  predicate RowSameAsStart(cells: Grid, start: Grid, y: nat)
    requires y < |cells|
  {
    forall x :: 0 <= x < |cells[y]| ==> y < |start| && x < |start[y]| && cells[y][x] == start[y][x]
  }

  /** Every non-empty row of `cells` from row `y` on has a row of `start`. */
  predicate StartRowsFrom(cells: Grid, start: Grid, y: nat) {
    forall k :: y <= k < |cells| && |cells[k]| > 0 ==> k < |start|
  }

  /** The "nothing clicked yet" test of `validate`, row by row from row `y`,
      stopping at the first differing row. Reading a row of `startCells` that
      does not exist throws a TypeError, reported as `Err`. */
  function MatchesStartFrom(cells: Grid, start: Grid, y: nat): (r: Result<bool, string>)
    requires y <= |cells|
    ensures r.Ok? ==> (r.value <==> forall k :: y <= k < |cells| ==> RowSameAsStart(cells, start, k))
    ensures StartRowsFrom(cells, start, y) ==> r.Ok?
    ensures r.Err? ==> exists k :: y <= k < |cells| && |cells[k]| > 0 && k >= |start|
    decreases |cells| - y
  {
    if y == |cells| then Ok(true)
    else if |cells[y]| == 0 then MatchesStartFrom(cells, start, y + 1)
    else if y >= |start| then Err("TypeError: startCells[y] is undefined")
    else if RowSameAsStart(cells, start, y) then
      MatchesStartFrom(cells, start, y + 1)
    else Ok(false)
  }

  predicate AllOn(cells: Grid) {
    forall y, x :: 0 <= y < |cells| && 0 <= x < |cells[y]| ==> cells[y][x]
  }

  const NotClickedMessage := "Click on the tiles to change the lights."
  const NotSolvedMessage := "You must turn on all of the lights to continue."

  /** `validate(rubric, state)`: checked in this order, an untouched grid is
      invalid, a fully lit grid earns 1/1, an incomplete one earns 0/1 when the
      rubric grades incomplete answers as wrong and is invalid otherwise. */
  function Validate(cells: Grid, startCells: Grid, gradeIncompleteAsWrong: bool): (r: Result<Score, string>)
    ensures StartRowsFrom(cells, startCells, 0) ==> r.Ok?
    ensures r.Ok? && SameAsStart(cells, startCells) ==> r.value == Invalid(Some(NotClickedMessage))
    ensures r.Ok? && !SameAsStart(cells, startCells) && AllOn(cells) ==> r.value == Points(1, 1, None)
    ensures r.Ok? && !SameAsStart(cells, startCells) && !AllOn(cells) ==>
              r.value == if gradeIncompleteAsWrong then Points(0, 1, None) else Invalid(Some(NotSolvedMessage))
  {
    match MatchesStartFrom(cells, startCells, 0)
    case Err(e) => Err(e)
    case Ok(empty) =>
      if empty then Ok(Invalid(Some(NotClickedMessage)))
      else if AllOn(cells) then Ok(Points(1, 1, None))
      else if gradeIncompleteAsWrong then Ok(Points(0, 1, None))
      else Ok(Invalid(Some(NotSolvedMessage)))
  }

  /** The editor's options for the widget. */
  datatype EditorProps = EditorProps(startCells: Grid, flipPattern: PatternKind)

  /** The widget's props as the renderer receives them. */
  datatype WidgetProps = WidgetProps(cells: Grid, startCells: Grid, flipPattern: PatternKind)

  /** `transformProps`: the puzzle starts from the editor's start grid. */
  function TransformProps(editor: EditorProps): (r: WidgetProps)
    ensures r.cells == r.startCells == editor.startCells && r.flipPattern == editor.flipPattern
  {
    WidgetProps(editor.startCells, editor.startCells, editor.flipPattern)
  }

  /** A freshly transformed puzzle grades as "nothing clicked yet", whatever the
      start grid is. */
  lemma {:induction false} FreshPuzzleIsInvalid(editor: EditorProps, gradeIncompleteAsWrong: bool)
    ensures var p := TransformProps(editor);
            Validate(p.cells, p.startCells, gradeIncompleteAsWrong) == Ok(Invalid(Some(NotClickedMessage)))
  {
    var p := TransformProps(editor);
    assert StartRowsFrom(p.cells, p.startCells, 0);
    assert SameAsStart(p.cells, p.startCells);
  }

  /** The mounted widget: the props it changes through `change` (cells and
      moveCount) and the pattern rotation it keeps in instance fields. */
  class Puzzle {
    var cells: Grid
    var startCells: Grid
    var flipPattern: PatternKind
    var moveCount: nat
    var currPattern: Grid
    var nextPattern: Grid
    var patternIndex: nat

    /** The rotation state: the current pattern is the table's entry for
        `patternIndex - 2` and the next one its entry for `patternIndex - 1`. */
    ghost predicate Valid()
      reads this
    {
      patternIndex >= 2 &&
      currPattern == Pattern(flipPattern, patternIndex - 2) &&
      nextPattern == Pattern(flipPattern, patternIndex - 1)
    }

    /** Mounting the widget with its props (`componentDidMount`). */
    constructor (props: WidgetProps, moveCount: nat)
      ensures Valid()
      ensures cells == props.cells && startCells == props.startCells && flipPattern == props.flipPattern
      ensures this.moveCount == moveCount && patternIndex == 2
    {
      cells := props.cells;
      startCells := props.startCells;
      flipPattern := props.flipPattern;
      this.moveCount := moveCount;
      currPattern := Pattern(props.flipPattern, 0);
      nextPattern := Pattern(props.flipPattern, 1);
      patternIndex := 2;
    }

    /** `_initNextPatterns`: the current pattern is entry 0, the next entry 1. */
    method InitNextPatterns()
      modifies this`currPattern, this`nextPattern, this`patternIndex
      ensures Valid() && patternIndex == 2
      ensures currPattern == Pattern(flipPattern, 0) && nextPattern == Pattern(flipPattern, 1)
    {
      currPattern := Pattern(flipPattern, 0);
      nextPattern := Pattern(flipPattern, 1);
      patternIndex := 2;
    }

    /** `_shiftPatterns`: the next pattern becomes current, the next one is the
        table's entry for the old index, and the index advances by one. */
    method ShiftPatterns()
      requires Valid()
      modifies this`currPattern, this`nextPattern, this`patternIndex
      ensures Valid()
      ensures currPattern == old(nextPattern)
      ensures nextPattern == Pattern(flipPattern, old(patternIndex))
      ensures patternIndex == old(patternIndex) + 1
    {
      currPattern := nextPattern;
      nextPattern := Pattern(flipPattern, patternIndex);
      patternIndex := patternIndex + 1;
    }

    /** `componentDidUpdate`: a new flip pattern restarts the rotation; the same
        one leaves it alone. */
    method SetFlipPattern(kind: PatternKind)
      requires Valid()
      modifies this`flipPattern, this`currPattern, this`nextPattern, this`patternIndex
      ensures Valid() && flipPattern == kind
      ensures kind != old(flipPattern) ==> patternIndex == 2
      ensures kind == old(flipPattern) ==>
                patternIndex == old(patternIndex) && currPattern == old(currPattern) &&
                nextPattern == old(nextPattern)
    {
      if kind != flipPattern {
        flipPattern := kind;
        InitNextPatterns();
      }
    }

    /** `_flipTile`: the click flips by the current pattern (the table's entry
        for this move), the rotation advances, and exactly one move is
        counted. */
    method FlipTile(tileY: int, tileX: int)
      requires Valid()
      modifies this`cells, this`moveCount, this`currPattern, this`nextPattern, this`patternIndex
      ensures Valid()
      ensures cells == FlipTilesPattern(old(cells), tileY, tileX, Pattern(flipPattern, old(patternIndex) - 2))
      ensures moveCount == old(moveCount) + 1
      ensures patternIndex == old(patternIndex) + 1
    {
      var newCells := FlipTilesPattern(cells, tileY, tileX, currPattern);
      ShiftPatterns();
      cells := newCells;
      moveCount := moveCount + 1;
    }

    /** `_reset`: back to the start grid with no moves counted; the pattern
        rotation is not restarted. */
    method Reset()
      modifies this`cells, this`moveCount
      ensures cells == startCells && moveCount == 0
    {
      cells := startCells;
      moveCount := 0;
    }
  }

  /** Under "plus/x" two clicks in a row use different patterns. */
  lemma PlusXAlternates(iter: nat)
    ensures Pattern(PlusX, iter) != Pattern(PlusX, iter + 1)
  {
    if iter % 2 == 0 {
      assert Pattern(PlusX, iter)[0][0] != Pattern(PlusX, iter + 1)[0][0];
    } else {
      assert Pattern(PlusX, iter)[0][0] != Pattern(PlusX, iter + 1)[0][0];
    }
  }
}
