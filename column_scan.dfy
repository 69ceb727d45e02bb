/**
 * Reading one column of a worksheet into a single text: the optional
 * context line first, then the cell text of rows 2, 3, ... of the column,
 * each followed by a line terminator, up to the first row whose text is
 * empty.
 */
module ColumnScan {
  import ColumnAddress

  /** The line terminator `AppendLine` writes, fixed to a single line feed. */
  const NewLine: string := "\n"

  /**
   * The first worksheet of the opened file: the rendered text of every cell,
   * addressed by (row, column), and a row past which every cell is empty.
   */
  datatype Worksheet = Worksheet(cell: (int, int) -> string, lastRow: nat)

  /** A worksheet holds finitely many rows: every cell below `lastRow` is empty. */
  ghost predicate Bounded(ws: Worksheet) {
    forall r, c :: r > ws.lastRow ==> ws.cell(r, c) == ""
  }

  /** The texts of column `col` from `row` down to, not including, the first empty cell. */
  function RowsFrom(ws: Worksheet, col: int, row: int): seq<string>
    requires Bounded(ws)
    decreases ws.lastRow + 1 - row
  {
    if ws.cell(row, col) == "" then [] else [ws.cell(row, col)] + RowsFrom(ws, col, row + 1)
  }

  /** Each text followed by a line terminator, in order. */
  function Lines(rows: seq<string>): string {
    if rows == [] then "" else rows[0] + NewLine + Lines(rows[1..])
  }

  /** The context as a line of its own when it is non-empty, and no line otherwise. */
  function ContextLines(context: string): seq<string> {
    if context != "" then [context] else []
  }

  /** The text the program builds from a context and the rows read. */
  function Aggregate(context: string, rows: seq<string>): string {
    (if context != "" then context + NewLine else "") + Lines(rows)
  }

  /** What ReadColumnDataFromExcel returns for a worksheet, a column label and a context. */
  function ColumnText(ws: Worksheet, columnLetter: string, context: string): string
    requires Bounded(ws)
  {
    Aggregate(context, RowsFrom(ws, ColumnAddress.LabelValue(columnLetter), 2))
  }

  /**
   * ReadColumnDataFromExcel, with the opened worksheet given: the buffer gets
   * the context line, then one line per cell of the column from row 2 on
   * while the cell's text is not empty.
   */
  method ReadColumnData(ws: Worksheet, columnLetter: string, context: string) returns (text: string)
    requires Bounded(ws)
    ensures text == Aggregate(context, RowsFrom(ws, ColumnAddress.LabelValue(columnLetter), 2))
  {
    var buffer := "";
    if context != "" {
      buffer := buffer + context + NewLine;
    }
    var column := ColumnAddress.GetColumnNumber(columnLetter);
    var row := 2;
    while ws.cell(row, column) != ""
      invariant buffer + Lines(RowsFrom(ws, column, row)) == Aggregate(context, RowsFrom(ws, column, 2))
      decreases ws.lastRow + 1 - row
    {
      buffer := buffer + ws.cell(row, column) + NewLine;
      row := row + 1;
    }
    text := buffer;
  }

  /**
   * The rows read are exactly the cells from `row` on, in order, all
   * non-empty, and the cell just after them is empty: the scan stops at the
   * first gap.
   */
  lemma {:induction false} RowsFromFirstGap(ws: Worksheet, col: int, row: int)
    requires Bounded(ws)
    ensures forall i :: 0 <= i < |RowsFrom(ws, col, row)| ==>
      RowsFrom(ws, col, row)[i] == ws.cell(row + i, col) != ""
    ensures ws.cell(row + |RowsFrom(ws, col, row)|, col) == ""
    decreases ws.lastRow + 1 - row
  {
    if ws.cell(row, col) != "" {
      RowsFromFirstGap(ws, col, row + 1);
      var rows := RowsFrom(ws, col, row);
      forall i | 0 <= i < |rows|
        ensures rows[i] == ws.cell(row + i, col) != ""
      {
        if i > 0 {
          assert rows[i] == RowsFrom(ws, col, row + 1)[i - 1];
        }
      }
    }
  }

  /** Any sequence of non-empty cells from `row` on that ends at an empty cell is what the scan reads. */
  lemma {:induction false} RowsFromUnique(ws: Worksheet, col: int, row: int, rows: seq<string>)
    requires Bounded(ws)
    requires forall i :: 0 <= i < |rows| ==> rows[i] == ws.cell(row + i, col) != ""
    requires ws.cell(row + |rows|, col) == ""
    ensures RowsFrom(ws, col, row) == rows
    decreases |rows|
  {
    if rows != [] {
      assert rows[0] == ws.cell(row, col);
      var rest := rows[1..];
      forall i | 0 <= i < |rest|
        ensures rest[i] == ws.cell(row + 1 + i, col) != ""
      {
        assert rest[i] == rows[i + 1];
      }
      RowsFromUnique(ws, col, row + 1, rest);
      assert rows == [rows[0]] + rest;
    } else {
      assert ws.cell(row + 0, col) == "";
    }
  }

  /**
   * When rows 2 .. gap-1 of a column hold text and row `gap` is empty, the
   * scan reads exactly those gap - 2 cells, whatever lies below the gap.
   */
  lemma ScanStopsAtFirstGap(ws: Worksheet, col: int, gap: int)
    requires Bounded(ws)
    requires 2 <= gap && ws.cell(gap, col) == ""
    requires forall r :: 2 <= r < gap ==> ws.cell(r, col) != ""
    ensures |RowsFrom(ws, col, 2)| == gap - 2
    ensures forall i :: 0 <= i < gap - 2 ==> RowsFrom(ws, col, 2)[i] == ws.cell(2 + i, col)
  {
    var rows := seq(gap - 2, i requires 0 <= i < gap - 2 => ws.cell(2 + i, col));
    RowsFromUnique(ws, col, 2, rows);
  }

  /** Two worksheets that agree on a column down to its first gap give the same rows for it. */
  lemma TruncatesAtFirstGap(ws: Worksheet, other: Worksheet, col: int)
    requires Bounded(ws) && Bounded(other)
    requires forall r :: 2 <= r <= 2 + |RowsFrom(ws, col, 2)| ==> other.cell(r, col) == ws.cell(r, col)
    ensures RowsFrom(other, col, 2) == RowsFrom(ws, col, 2)
  {
    var rows := RowsFrom(ws, col, 2);
    RowsFromFirstGap(ws, col, 2);
    forall i | 0 <= i < |rows|
      ensures rows[i] == other.cell(2 + i, col) != ""
    {
      assert rows[i] == ws.cell(2 + i, col) != "";
      assert 2 <= 2 + i <= 2 + |rows|;
    }
    assert other.cell(2 + |rows|, col) == ws.cell(2 + |rows|, col);
    RowsFromUnique(other, col, 2, rows);
  }

  /** Lines distributes over concatenation. */
  lemma {:induction false} LinesAppend(a: seq<string>, b: seq<string>)
    ensures Lines(a + b) == Lines(a) + Lines(b)
    decreases |a|
  {
    if a != [] {
      assert (a + b)[1..] == a[1..] + b;
      LinesAppend(a[1..], b);
    } else {
      assert a + b == b;
    }
  }

  /** The aggregate is the context line, when there is one, followed by the rows, as lines. */
  lemma AggregateIsLines(context: string, rows: seq<string>)
    ensures Aggregate(context, rows) == Lines(ContextLines(context) + rows)
  {
    LinesAppend(ContextLines(context), rows);
    if context != "" {
      assert [context][1..] == [];
    }
  }

  /**
   * The aggregate is empty exactly when there is no context and no row was
   * read; in particular a non-empty context always gives a non-empty text.
   */
  lemma AggregateEmpty(context: string, rows: seq<string>)
    ensures Aggregate(context, rows) == "" <==> context == "" && rows == []
  {
    if rows != [] {
      assert |Lines(rows)| >= |NewLine|;
    }
  }

  /** A context "X" and rows "a", "b" give "X\na\nb\n": every line, the last included, is terminated. */
  lemma AggregateExample()
    ensures Aggregate("X", ["a", "b"]) == "X\na\nb\n"
    ensures Aggregate("", []) == ""
  {
    assert ["a", "b"][1..] == ["b"];
    assert ["b"][1..] == [];
  }

  /** The index of the first line terminator in `s`, or |s| when there is none. */
  function NewlineIndex(s: string): (k: nat)
    ensures k <= |s|
    ensures forall i :: 0 <= i < k ==> s[i] != '\n'
    ensures k < |s| ==> s[k] == '\n'
  {
    if s == [] || s[0] == '\n' then 0 else 1 + NewlineIndex(s[1..])
  }

  /** Splits a text into its lines; the inverse of Lines on texts without line terminators inside. */
  function SplitLines(s: string): seq<string>
    decreases |s|
  {
    if s == [] then []
    else
      var k := NewlineIndex(s);
      [s[..k]] + (if k < |s| then SplitLines(s[k + 1..]) else [])
  }

  predicate NoNewline(s: string) {
    forall i :: 0 <= i < |s| ==> s[i] != '\n'
  }

  /** Lines followed by SplitLines gives the rows back, when no row holds a line terminator. */
  lemma {:induction false} SplitLinesOfLines(rows: seq<string>)
    requires forall j :: 0 <= j < |rows| ==> NoNewline(rows[j])
    ensures SplitLines(Lines(rows)) == rows
    decreases |rows|
  {
    if rows != [] {
      var r, rest := rows[0], Lines(rows[1..]);
      var s := Lines(rows);
      assert s == r + "\n" + rest;
      assert s[|r|] == '\n';
      var k := NewlineIndex(s);
      assert forall i :: 0 <= i < |r| ==> s[i] == r[i];
      assert k == |r|;
      assert s[..k] == r;
      assert s[k + 1..] == rest;
      SplitLinesOfLines(rows[1..]);
      assert rows == [r] + rows[1..];
    }
  }

  /**
   * The lines of the aggregate are the context (when non-empty) and then the
   * rows, in order, and nothing else.
   */
  lemma AggregateLines(context: string, rows: seq<string>)
    requires NoNewline(context)
    requires forall j :: 0 <= j < |rows| ==> NoNewline(rows[j])
    ensures SplitLines(Aggregate(context, rows)) == ContextLines(context) + rows
  {
    AggregateIsLines(context, rows);
    var all := ContextLines(context) + rows;
    forall j | 0 <= j < |all|
      ensures NoNewline(all[j])
    {
      if context != "" && j > 0 {
        assert all[j] == rows[j - 1];
      } else if context == "" {
        assert all[j] == rows[j];
      }
    }
    SplitLinesOfLines(all);
  }
}
