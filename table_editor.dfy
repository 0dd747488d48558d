/** The table widget's editor: the author picks a number of rows and columns,
    and the header row and the grid of answers are resized to fit, keeping the
    cells that still fit and filling new ones with empty strings. */
module TableEditor {
  import opened Common

  /** The editor's props as `onChange` reports them and `serialize` returns
      them. */
  datatype TableProps = TableProps(rows: int, columns: int, answers: seq<seq<string>>, headers: seq<string>)

  /** `+x || 0`: a size as typed, where `None` is input that converts to NaN; NaN
      and 0 both become 0. */
  function SizeOf(raw: Option<int>): int {
    if raw.Some? then raw.value else 0
  }

  /** `Math.min(Math.max(lo, v), hi)`. */
  function Clamp(v: int, lo: int, hi: int): (r: int)
    requires lo <= hi
    ensures lo <= r <= hi
    ensures lo <= v <= hi ==> r == v
    ensures v < lo ==> r == lo
    ensures hi < v ==> r == hi
  {
    if v < lo then lo else if v > hi then hi else v
  }

  function Min(a: int, b: int): int { if a < b then a else b }

  /** A blank row of the given width (`Util.stringArrayOfSize`). */
  function Blank(n: nat): (r: seq<string>)
    ensures |r| == n && forall i :: 0 <= i < n ==> r[i] == ""
  {
    seq(n, _ => "")
  }

  /** `fixColumnSizing(cells)`: an array `oldColumns` wide is cut to `columns`
      entries, or padded with empty strings up to `columns`. The entries that
      still fit keep their values. */
  method FixColumnSizing(cells: seq<string>, columns: nat, oldColumns: nat) returns (r: seq<string>)
    requires |cells| == oldColumns
    ensures |r| == columns
    ensures forall c :: 0 <= c < Min(columns, oldColumns) ==> r[c] == cells[c]
    ensures forall c :: oldColumns <= c < columns ==> r[c] == ""
  {
    r := cells;
    if columns <= oldColumns {
      r := r[..columns];
    } else {
      var k := 0;
      while k < columns - oldColumns
        invariant 0 <= k <= columns - oldColumns
        invariant |r| == oldColumns + k
        invariant r[..oldColumns] == cells
        invariant forall c :: oldColumns <= c < |r| ==> r[c] == ""
      {
        r := r + [""];
        k := k + 1;
      }
    }
  }

  class Editor {
    var rows: int
    var columns: int
    var headers: seq<string>
    var answers: seq<seq<string>>
    /** The props handed to `onChange`, oldest first. */
    var changes: seq<TableProps>

    /** The shape every editor state has: `answers` has `rows` rows, and the
        headers and every answer row have `columns` entries, within the sizes
        the editor allows. */
    ghost predicate Valid()
      reads this
    {
      1 <= rows <= 30 && 1 <= columns <= 6 && |answers| == rows && |headers| == columns &&
      forall r :: 0 <= r < |answers| ==> |answers[r]| == columns
    }

    /** `defaultProps`: 4 rows, 1 column, one blank header, blank answers. */
    constructor Default()
      ensures Valid()
      ensures rows == 4 && columns == 1 && headers == [""]
      ensures answers == [[""], [""], [""], [""]]
      ensures changes == []
    {
      rows := 4;
      columns := 1;
      headers := [""];
      answers := [Blank(1), Blank(1), Blank(1), Blank(1)];
      assert Blank(1) == [""];
      changes := [];
    }

    /** `onSizeInput(numRawRows, numRawColumns)`: rows are clamped to [1, 30]
        and columns to [1, 6] (non-numeric input counting as 0, so as 1). The
        answers gain or lose rows at the end and the headers and every row gain
        or lose entries at the end; every cell that fits in both the old and the
        new size keeps its value and every new cell is empty. `onChange` then
        receives exactly the new rows, columns, answers and headers. */
    method OnSizeInput(numRawRows: Option<int>, numRawColumns: Option<int>)
      requires Valid()
      modifies this
      ensures Valid()
      ensures rows == Clamp(SizeOf(numRawRows), 1, 30) && columns == Clamp(SizeOf(numRawColumns), 1, 6)
      ensures forall r, c :: 0 <= r < Min(rows, old(rows)) && 0 <= c < Min(columns, old(columns)) ==>
                answers[r][c] == old(answers)[r][c]
      ensures forall r, c :: 0 <= r < rows && 0 <= c < columns && (r >= old(rows) || c >= old(columns)) ==>
                answers[r][c] == ""
      ensures forall c :: 0 <= c < Min(columns, old(columns)) ==> headers[c] == old(headers)[c]
      ensures forall c :: old(columns) <= c < columns ==> headers[c] == ""
      ensures changes == old(changes) + [TableProps(rows, columns, answers, headers)]
    {
      var newRows := Clamp(SizeOf(numRawRows), 1, 30);
      var newColumns := Clamp(SizeOf(numRawColumns), 1, 6);
      var oldColumns := columns;
      var oldRows := rows;
      var oldChanges := changes;

      var newAnswers := answers;
      if newRows <= oldRows {
        newAnswers := newAnswers[..newRows];
      } else {
        var k := 0;
        while k < newRows - oldRows
          invariant 0 <= k <= newRows - oldRows
          invariant |newAnswers| == oldRows + k
          invariant newAnswers[..oldRows] == answers
          invariant forall r :: oldRows <= r < |newAnswers| ==> newAnswers[r] == Blank(oldColumns)
        {
          newAnswers := newAnswers + [Blank(oldColumns)];
          k := k + 1;
        }
      }
      ghost var resized := newAnswers;
      assert forall r :: 0 <= r < |resized| ==> |resized[r]| == oldColumns;

      var newHeaders := FixColumnSizing(headers, newColumns, oldColumns);
      var i := 0;
      while i < |newAnswers|
        invariant 0 <= i <= |newAnswers| == newRows
        invariant forall r :: 0 <= r < i ==> |newAnswers[r]| == newColumns
        invariant forall r, c :: 0 <= r < i && 0 <= c < Min(newColumns, oldColumns) ==>
                    newAnswers[r][c] == resized[r][c]
        invariant forall r, c :: 0 <= r < i && oldColumns <= c < newColumns ==> newAnswers[r][c] == ""
        invariant forall r :: i <= r < |newAnswers| ==> newAnswers[r] == resized[r]
      {
        var row := FixColumnSizing(newAnswers[i], newColumns, oldColumns);
        newAnswers := newAnswers[i := row];
        i := i + 1;
      }
      rows, columns, answers, headers := newRows, newColumns, newAnswers, newHeaders;
      changes := oldChanges + [TableProps(newRows, newColumns, newAnswers, newHeaders)];
    }

    /** The column-count input: a falsy value (0 or not a number) is ignored. */
    method OnColumnsInput(val: Option<int>)
      requires Valid()
      modifies this
      ensures Valid()
      ensures (val.None? || val.value == 0) ==>
                rows == old(rows) && columns == old(columns) && answers == old(answers) &&
                headers == old(headers) && changes == old(changes)
      ensures val.Some? && val.value != 0 ==>
                rows == old(rows) && columns == Clamp(val.value, 1, 6) &&
                (forall r, c :: 0 <= r < rows && 0 <= c < Min(columns, old(columns)) ==>
                   answers[r][c] == old(answers)[r][c]) &&
                (forall r, c :: 0 <= r < rows && old(columns) <= c < columns ==> answers[r][c] == "") &&
                (forall c :: 0 <= c < Min(columns, old(columns)) ==> headers[c] == old(headers)[c]) &&
                (forall c :: old(columns) <= c < columns ==> headers[c] == "") &&
                changes == old(changes) + [TableProps(rows, columns, answers, headers)]
    {
      if val.Some? && val.value != 0 {
        OnSizeInput(Some(rows), val);
      }
    }

    /** The row-count input: a falsy value (0 or not a number) is ignored. */
    method OnRowsInput(val: Option<int>)
      requires Valid()
      modifies this
      ensures Valid()
      ensures (val.None? || val.value == 0) ==>
                rows == old(rows) && columns == old(columns) && answers == old(answers) &&
                headers == old(headers) && changes == old(changes)
      ensures val.Some? && val.value != 0 ==>
                columns == old(columns) && rows == Clamp(val.value, 1, 30) &&
                (forall r, c :: 0 <= r < Min(rows, old(rows)) && 0 <= c < columns ==>
                   answers[r][c] == old(answers)[r][c]) &&
                (forall r, c :: old(rows) <= r < rows && 0 <= c < columns ==> answers[r][c] == "") &&
                headers == old(headers) &&
                changes == old(changes) + [TableProps(rows, columns, answers, headers)]
    {
      if val.Some? && val.value != 0 {
        OnSizeInput(val, Some(columns));
      }
    }

    /** `serialize`: the headers, the size and a row-by-row copy of the
        answers; after a resize it is what `onChange` last received. */
    method Serialize() returns (json: TableProps)
      requires Valid()
      ensures json.rows == rows && json.columns == columns && json.headers == headers
      ensures |json.answers| == rows && forall r :: 0 <= r < rows ==> json.answers[r] == answers[r]
      ensures |changes| > 0 && changes[|changes| - 1] == TableProps(rows, columns, answers, headers) ==>
                json == changes[|changes| - 1]
    {
      var copy: seq<seq<string>> := [];
      var i := 0;
      while i < |answers|
        invariant 0 <= i <= |answers|
        invariant copy == answers[..i]
      {
        copy := copy + [answers[i]];
        i := i + 1;
      }
      assert answers[..|answers|] == answers;
      json := TableProps(rows, columns, copy, headers);
    }
  }
}
