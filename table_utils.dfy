/**
 * Copying a table to the clipboard as tab-separated text: the rows copied,
 * a header line of column titles, one line per row with a cell per column,
 * every line ended by the line separator. The table is a grid of cell texts.
 */
module TableCopy {
  import opened Text

  /** The rows copied: all of them when nothing is selected or all are forced, else the selection in its order. */
  function RowsToCopy(selected: seq<int>, nItems: nat, forceCopyAll: bool): (rows: seq<int>)
    ensures |selected| == 0 || forceCopyAll ==> |rows| == nItems && forall i | 0 <= i < nItems :: rows[i] == i
    ensures |selected| > 0 && !forceCopyAll ==> rows == selected
  {
    if |selected| == 0 || forceCopyAll then seq(nItems, i => i) else selected
  }

  /** The texts of one row's cells, one per column. */
  function RowCells(cell: (int, int) -> string, row: int, nCols: nat): (cells: seq<string>)
    ensures |cells| == nCols
  {
    seq(nCols, c => cell(row, c))
  }

  /** The lines of the copy without their separators: the column titles, then each copied row, tab-separated. */
  function Lines(headers: seq<string>, cell: (int, int) -> string, rows: seq<int>): (ls: seq<string>)
    ensures |ls| == |rows| + 1
  {
    [Join(headers, "\t")] + seq(|rows|, k requires 0 <= k < |rows| => Join(RowCells(cell, rows[k], |headers|), "\t"))
  }

  /** Lines each followed by the line separator. */
  function Terminated(lines: seq<string>, nl: string): string
  {
    if |lines| == 0 then "" else Terminated(lines[..|lines| - 1], nl) + lines[|lines| - 1] + nl
  }

  /**
   * copyTableToClipboard: the text the clipboard receives. The header and
   * each row are written cell by cell with a tab between cells, and every
   * line ends with the separator nl.
   */
  method CopyTableToClipboard(headers: seq<string>, cell: (int, int) -> string, selected: seq<int>, nItems: nat,
                              forceCopyAll: bool, nl: string) returns (clipboard: string)
    ensures clipboard == Terminated(Lines(headers, cell, RowsToCopy(selected, nItems, forceCopyAll)), nl)
  {
    var rowsToCopy := RowsToCopy(selected, nItems, forceCopyAll);
    var text := Join(headers, "\t") + nl;
    assert text == Terminated(Lines(headers, cell, rowsToCopy[..0]), nl) by {
      assert Lines(headers, cell, rowsToCopy[..0]) == [Join(headers, "\t")];
      assert [Join(headers, "\t")][..0] == [];
    }
    var n := |headers|;
    var lastColumnIndex := n - 1;
    var i := 0;
    while i < |rowsToCopy|
      invariant 0 <= i <= |rowsToCopy|
      invariant text == Terminated(Lines(headers, cell, rowsToCopy[..i]), nl)
    {
      text := AppendRow(text, cell, rowsToCopy[i], n, lastColumnIndex);
      text := text + nl;
      LinesStep(headers, cell, rowsToCopy, i, nl);
      i := i + 1;
    }
    assert rowsToCopy[..i] == rowsToCopy;
    clipboard := text;
  }

  /** One row's line: its cells written one by one, a tab after each but the last. */
  method AppendRow(text: string, cell: (int, int) -> string, rowIndex: int, n: nat, lastColumnIndex: int)
    returns (next: string)
    requires lastColumnIndex == n - 1
    ensures next == text + Join(RowCells(cell, rowIndex, n), "\t")
  {
    ghost var cells := RowCells(cell, rowIndex, n);
    next := text;
    var colIndex := 0;
    while colIndex < n
      invariant 0 <= colIndex <= n
      invariant next == text + Join(cells[..colIndex], "\t") + (if 0 < colIndex < n then "\t" else "")
    {
      next := AppendCell(text, cells, colIndex, next, cell(rowIndex, colIndex), colIndex != lastColumnIndex);
      colIndex := colIndex + 1;
    }
    assert cells[..n] == cells;
  }

  /** One cell of a row line: the cell, then a tab unless it is the last column. */
  method AppendCell(ghost before: string, ghost cells: seq<string>, ghost c: nat, text: string, value: string, tab: bool)
    returns (next: string)
    requires c < |cells| && value == cells[c] && tab == (c != |cells| - 1)
    requires text == before + Join(cells[..c], "\t") + (if 0 < c < |cells| then "\t" else "")
    ensures next == before + Join(cells[..c + 1], "\t") + (if 0 < c + 1 < |cells| then "\t" else "")
  {
    next := text + value;
    assert cells[..c + 1] == cells[..c] + [cells[c]];
    JoinAppend(cells[..c], cells[c], "\t");
    if c == 0 {
      assert next == before + Join(cells[..c + 1], "\t");
    } else {
      assert next == before + (Join(cells[..c], "\t") + "\t" + cells[c]);
    }
    if tab {
      next := next + "\t";
    }
  }

  /** Copying one more row adds its line at the end. */
  lemma {:induction false} LinesStep(headers: seq<string>, cell: (int, int) -> string, rows: seq<int>, i: nat, nl: string)
    requires i < |rows|
    ensures Terminated(Lines(headers, cell, rows[..i + 1]), nl)
      == Terminated(Lines(headers, cell, rows[..i]), nl) + Join(RowCells(cell, rows[i], |headers|), "\t") + nl
  {
    var longer := Lines(headers, cell, rows[..i + 1]);
    var shorter := Lines(headers, cell, rows[..i]);
    assert longer[..|longer| - 1] == shorter;
  }

  /** Text terminated line by line is the lines joined by the separator, with an empty piece after the last. */
  lemma {:induction false} TerminatedIsJoin(lines: seq<string>, nl: string)
    requires |lines| >= 1
    ensures Terminated(lines, nl) == Join(lines + [""], nl)
    decreases |lines|
  {
    var init := lines[..|lines| - 1];
    var last := lines[|lines| - 1];
    assert lines == init + [last];
    JoinAppend(lines, "", nl);
    if |init| == 0 {
      JoinAppend(init, last, nl);
    } else {
      TerminatedIsJoin(init, nl);
      JoinAppend(init, "", nl);
      JoinAppend(init, last, nl);
    }
  }

  /** A join of pieces free of a character, with a separator free of it, is free of it. */
  lemma {:induction false} JoinFree(parts: seq<string>, sep: string, x: char)
    requires x !in sep && forall i | 0 <= i < |parts| :: x !in parts[i]
    ensures x !in Join(parts, sep)
    decreases |parts|
  {
    if |parts| > 1 {
      JoinFree(parts[1..], sep, x);
    }
  }

  /**
   * The copy reads back: split on newlines it has one line for the headers,
   * one per copied row and an empty end, and each line split on tabs gives
   * back that line's cells, when no header or cell holds a tab or newline.
   */
  lemma {:induction false} CopyReadsBack(headers: seq<string>, cell: (int, int) -> string, rows: seq<int>)
    requires |headers| >= 1
    requires forall c | 0 <= c < |headers| :: '\t' !in headers[c] && '\n' !in headers[c]
    requires forall k, c | 0 <= k < |rows| && 0 <= c < |headers| :: '\t' !in cell(rows[k], c) && '\n' !in cell(rows[k], c)
    ensures var lines := Split(Terminated(Lines(headers, cell, rows), "\n"), '\n');
      |lines| == |rows| + 2 && lines[|rows| + 1] == ""
      && Split(lines[0], '\t') == headers
      && forall k | 0 <= k < |rows| :: Split(lines[k + 1], '\t') == RowCells(cell, rows[k], |headers|)
  {
    var ls := Lines(headers, cell, rows);
    var lines := Split(Terminated(ls, "\n"), '\n');
    assert lines == ls + [""] by {
      TerminatedIsJoin(ls, "\n");
      LinesFree(headers, cell, rows);
      SplitJoin(ls + [""], '\n');
    }
    assert Split(lines[0], '\t') == headers by {
      SplitJoin(headers, '\t');
    }
    forall k | 0 <= k < |rows|
      ensures Split(lines[k + 1], '\t') == RowCells(cell, rows[k], |headers|)
    {
      assert lines[k + 1] == ls[k + 1];
      RowReadsBack(headers, cell, rows, k);
    }
  }

  /** No line of the copy, nor the empty end, holds a newline. */
  lemma {:induction false} LinesFree(headers: seq<string>, cell: (int, int) -> string, rows: seq<int>)
    requires forall c | 0 <= c < |headers| :: '\n' !in headers[c]
    requires forall k, c | 0 <= k < |rows| && 0 <= c < |headers| :: '\n' !in cell(rows[k], c)
    ensures var ls := Lines(headers, cell, rows) + [""];
      forall j | 0 <= j < |ls| :: '\n' !in ls[j]
  {
    var ls := Lines(headers, cell, rows) + [""];
    forall j | 0 <= j < |ls|
      ensures '\n' !in ls[j]
    {
      if j == 0 {
        JoinFree(headers, "\t", '\n');
      } else if j <= |rows| {
        JoinFree(RowCells(cell, rows[j - 1], |headers|), "\t", '\n');
      }
    }
  }

  /** A row's line split on tabs gives back its cells. */
  lemma {:induction false} RowReadsBack(headers: seq<string>, cell: (int, int) -> string, rows: seq<int>, k: nat)
    requires k < |rows| && |headers| >= 1
    requires forall c | 0 <= c < |headers| :: '\t' !in cell(rows[k], c)
    ensures Split(Lines(headers, cell, rows)[k + 1], '\t') == RowCells(cell, rows[k], |headers|)
  {
    SplitJoin(RowCells(cell, rows[k], |headers|), '\t');
  }
}
