/** The second copy of the table helpers. Its rectangle, column and row tests and its column
    cell collection repeat the first copy's code, so the model shares `TableUtils`' definitions.
    Only the select commands differ: they check whether the library found any cells instead of
    checking the index against the grid. */
module UtilsTable {
  import opened Js
  import opened Editor
  import opened Tables
  import TableUtils

  /** `selectColumn(index)` / `selectRow(index)` of this copy: the line's cells are asked for
      without a range check; with at least one cell, a cell selection from the first (head) to the
      last (anchor); otherwise the transaction is left as it was. */
  function Select(line: TableUtils.Line, index: int, s: Selection, m: TableMap): (r: SelectOutcome)
    ensures r != Threw
    ensures r.Unchanged? <==> TableUtils.FindTable(s).None? || m.cellsInRect(TableUtils.LineRect(line, m, index)) == []
    ensures r.Selected? ==>
      var cells := m.cellsInRect(TableUtils.LineRect(line, m, index));
      && r.head == TableUtils.FindTable(s).value.start + cells[0]
      && r.anchor == TableUtils.FindTable(s).value.start + cells[|cells| - 1]
  {
    match TableUtils.FindTable(s)
    case None => Unchanged
    case Some(t) =>
      var cells := m.cellsInRect(TableUtils.LineRect(line, m, index));
      if |cells| > 0 then Selected(t.start + cells[|cells| - 1], t.start + cells[0]) else Unchanged
  }

  /** For an index in range whose line has cells, both copies make the same selection. */
  lemma CopiesAgreeInRange(line: TableUtils.Line, index: int, s: Selection, m: TableMap)
    requires 0 <= index < TableUtils.LineCount(line, m)
    requires m.cellsInRect(TableUtils.LineRect(line, m, index)) != []
    ensures Select(line, index, s, m) == TableUtils.Select(line, index, s, m)
  {
    if TableUtils.FindTable(s).Some? {
      TableUtils.SelectSpansLine(line, index, s, m);
    }
  }

  /** For an index in range whose line has no cells, the first copy throws and this one does nothing. */
  lemma CopiesDifferOnEmptyLine(line: TableUtils.Line, index: int, s: Selection, m: TableMap)
    requires TableUtils.FindTable(s).Some?
    requires 0 <= index < TableUtils.LineCount(line, m)
    requires m.cellsInRect(TableUtils.LineRect(line, m, index)) == []
    ensures TableUtils.Select(line, index, s, m) == Threw
    ensures Select(line, index, s, m) == Unchanged
  {
    TableUtils.SelectSpansLine(line, index, s, m);
  }

  /** For an index one past the last column the first copy does nothing, while this one selects
      whatever the `cellsInRect` oracle reports for that rectangle. The oracle is unconstrained
      outside the grid, so this states the difference of the two guards, not what ProseMirror's
      own table map yields there. */
  lemma CopiesDifferOutOfRange(s: Selection, m: TableMap)
    requires TableUtils.FindTable(s).Some?
    requires m.cellsInRect(ColumnRect(m, m.width)) != []
    ensures TableUtils.Select(TableUtils.Column, m.width, s, m) == Unchanged
    ensures Select(TableUtils.Column, m.width, s, m).Selected?
  {
  }
}
