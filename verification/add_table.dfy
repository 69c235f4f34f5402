/** Inserting a table column or row at an index: locating the table around the cursor, the
    position arithmetic that puts the cursor into the target cell, the command chosen, and the
    fallbacks. Each call is modelled as the commands it runs at once plus the cursor position
    its deferred timer callback sets. */
module AddTable {
  import opened Js
  import opened Editor

  datatype Command =
    | Focus
    | SetTextSelection(pos: int)
    | AddColumnBefore
    | AddColumnAfter
    | AddRowBefore
    | AddRowAfter

  /** The commands run at once, and the cursor position set later, if any. */
  datatype Plan = Plan(now: seq<Command>, later: Option<int>)

  const ColumnFallback: Plan := Plan([Focus, AddColumnAfter], None)
  const RowFallback: Plan := Plan([Focus, AddRowAfter], None)

  predicate IsTable(n: Node) {
    TypeName(n) == "table"
  }

  /** The table around the cursor and the position just in front of it (0 when there is none). */
  datatype TablePosition = TablePosition(table: Option<Node>, start: int)

  /** `findTablePosition`: the innermost ancestor named "table", scanning from the cursor's depth down to 1. */
  function FindTablePosition(from: Path): (r: TablePosition)
    ensures Innermost(from, IsTable).None? <==> r == TablePosition(None, 0)
    ensures Innermost(from, IsTable).Some? ==>
      var d := Innermost(from, IsTable).value;
      r.table == Some(from[d].node) && r.start == Before(from, d)
  {
    match Innermost(from, IsTable)
    case None => TablePosition(None, 0)
    case Some(d) => TablePosition(Some(from[d].node), Before(from, d))
  }

  function Children(n: Node): seq<Node> {
    if n.Branch? then n.children else []
  }

  /** The source's accumulation loop: starting at `pos`, add the sizes of children `i` to `n - 1`. */
  function Advance(pos: int, cs: seq<Node>, i: nat, n: nat): (r: int)
    requires i <= n <= |cs|
    ensures r == pos + Offset(cs, n) - Offset(cs, i)
    decreases n - i
  {
    if i == n then pos
    else
      OffsetStep(cs, i);
      Advance(pos + Size(cs[i]), cs, i + 1, n)
  }

  /** Where the content of child `i` starts, given where its parent's content starts. */
  function ChildContentStart(parentContentStart: int, cs: seq<Node>, i: nat): int
    requires i <= |cs|
  {
    parentContentStart + Offset(cs, i) + 1
  }

  /** `addTableColumn(editor, columnIndex)` */
  function AddTableColumn(from: Path, columnIndex: Option<int>): (r: Plan)
    ensures columnIndex.None? || FindTablePosition(from).table.None? ==> r == ColumnFallback
  {
    if columnIndex.None? then ColumnFallback
    else
      var tp := FindTablePosition(from);
      if tp.table.None? then ColumnFallback
      else if ChildCount(tp.table.value) == 0 then Plan([], None)
      else
        var cells := Children(Children(tp.table.value)[0]);
        var index := columnIndex.value;
        if index < 0 || index > |cells| then ColumnFallback
        else if index == |cells| then
          // `firstRow.child(-1)` throws on an empty first row; the catch falls back.
          if |cells| == 0 then ColumnFallback
          else
            var cellStart := Advance(tp.start + 2, cells, 0, |cells| - 1);
            Plan([Focus, SetTextSelection(cellStart + 1), AddColumnAfter],
                 Some(cellStart + Size(cells[|cells| - 1]) + 1))
        else
          var cellStart := Advance(tp.start + 2, cells, 0, index);
          Plan([Focus, SetTextSelection(cellStart + 1), AddColumnBefore], Some(cellStart + 1))
  }

  /** The first row's cells of the table around the cursor. */
  function FirstRowCells(from: Path): seq<Node>
    requires FindTablePosition(from).table.Some?
  {
    var t := FindTablePosition(from).table.value;
    if ChildCount(t) == 0 then [] else Children(Children(t)[0])
  }

  /** The branch taken: no command for a table without rows, the plain fallback for an index out of
      range or an append to an empty first row, `addColumnAfter` for an append and `addColumnBefore`
      otherwise. */
  lemma ColumnBranches(from: Path, index: int)
    requires FindTablePosition(from).table.Some?
    ensures var t := FindTablePosition(from).table.value;
      var n := |FirstRowCells(from)|;
      var r := AddTableColumn(from, Some(index));
      && (ChildCount(t) == 0 ==> r == Plan([], None))
      && (ChildCount(t) > 0 && (index < 0 || index > n || (index == n == 0)) ==> r == ColumnFallback)
      && (ChildCount(t) > 0 && 0 <= index < n ==> |r.now| == 3 && r.now[2] == AddColumnBefore)
      && (ChildCount(t) > 0 && 0 < index == n ==> |r.now| == 3 && r.now[2] == AddColumnAfter)
  {
  }

  /** Before an existing column: the cursor is put at the content start of the target cell in the
      first row, and after `addColumnBefore` it is put at the same position, which is the content
      start of the new cell that now occupies the index. */
  lemma ColumnBeforeCursor(from: Path, index: nat, newCell: Node)
    requires FindTablePosition(from).table.Some?
    requires ChildCount(FindTablePosition(from).table.value) > 0
    requires index < |FirstRowCells(from)|
    ensures var tp := FindTablePosition(from);
      var cells := FirstRowCells(from);
      var rows := Children(tp.table.value);
      var cell := ChildContentStart(ChildContentStart(tp.start + 1, rows, 0), cells, index);
      var r := AddTableColumn(from, Some(index));
      && r.now[1] == SetTextSelection(cell)
      && r.later == Some(cell)
      && r.later == Some(ChildContentStart(ChildContentStart(tp.start + 1, rows, 0), cells[..index] + [newCell] + cells[index..], index))
  {
    var cells := FirstRowCells(from);
    OffsetAfterInsert(cells, index, newCell);
    assert Offset(Children(FindTablePosition(from).table.value), 0) == 0;
  }

  /** After the last column: the cursor is put into the last cell of the first row, and after
      `addColumnAfter` it is put at the content start of the cell appended after it. */
  lemma ColumnAfterCursor(from: Path, newCell: Node)
    requires FindTablePosition(from).table.Some?
    requires ChildCount(FindTablePosition(from).table.value) > 0
    requires |FirstRowCells(from)| > 0
    ensures var tp := FindTablePosition(from);
      var cells := FirstRowCells(from);
      var n := |cells|;
      var rowContent := ChildContentStart(tp.start + 1, Children(tp.table.value), 0);
      var r := AddTableColumn(from, Some(n));
      && r.now[1] == SetTextSelection(ChildContentStart(rowContent, cells, n - 1))
      && r.later == Some(ChildContentStart(rowContent, cells + [newCell], n))
  {
    var cells := FirstRowCells(from);
    var n := |cells|;
    OffsetStep(cells, n - 1);
    assert cells[..n] == cells;
    assert (cells + [newCell])[..n] == cells;
    assert Offset(Children(FindTablePosition(from).table.value), 0) == 0;
  }

  /** `addTableRow(editor, rowIndex)` */
  function AddTableRow(from: Path, rowIndex: Option<int>): (r: Plan)
    ensures rowIndex.None? || FindTablePosition(from).table.None? ==> r == RowFallback
  {
    var tp := FindTablePosition(from);
    if tp.table.None? then RowFallback
    else
      var rows := Children(tp.table.value);
      if rowIndex.None? then RowFallback
      else
        var index := rowIndex.value;
        if index < 0 || index > |rows| then RowFallback
        // `tableNode.child(-1)` throws on a table without rows; the catch falls back.
        else if index == |rows| && |rows| == 0 then RowFallback
        else
          var append := index == |rows|;
          var target := if append then |rows| - 1 else index;
          var rowStart := Advance(tp.start + 1, rows, 0, target);
          if append then
            Plan([Focus, SetTextSelection(rowStart + 2), AddRowAfter], Some(rowStart + Size(rows[target]) + 2))
          else
            Plan([Focus, SetTextSelection(rowStart + 2), AddRowBefore], Some(rowStart + 2))
  }

  /** The branch taken: the plain fallback for an index out of range or an append to a table
      without rows, `addRowAfter` for an append and `addRowBefore` otherwise. */
  lemma RowBranches(from: Path, index: int)
    requires FindTablePosition(from).table.Some?
    ensures var n := ChildCount(FindTablePosition(from).table.value);
      var r := AddTableRow(from, Some(index));
      && (index < 0 || index > n || index == n == 0 ==> r == RowFallback)
      && (0 <= index < n ==> |r.now| == 3 && r.now[2] == AddRowBefore)
      && (0 < index == n ==> |r.now| == 3 && r.now[2] == AddRowAfter)
  {
  }

  /** The cursor goes to the first cell of the target row (the last row when appending); after
      the insertion it is put at the first cell of the new row, which takes the target's index
      when inserting before and follows the last row when appending. */
  lemma RowCursor(from: Path, index: nat, newRow: Node)
    requires FindTablePosition(from).table.Some?
    requires index <= ChildCount(FindTablePosition(from).table.value)
    requires 0 < ChildCount(FindTablePosition(from).table.value)
    ensures var tp := FindTablePosition(from);
      var rows := Children(tp.table.value);
      var n := |rows|;
      var target := if index == n then n - 1 else index;
      var r := AddTableRow(from, Some(index));
      && r.now[1] == SetTextSelection(ChildContentStart(ChildContentStart(tp.start + 1, rows, target), Children(rows[target]), 0))
      && (index < n ==> r.later == Some(ChildContentStart(tp.start + 1, rows[..index] + [newRow] + rows[index..], index) + 1))
      && (index == n ==> r.later == Some(ChildContentStart(tp.start + 1, rows + [newRow], n) + 1))
  {
    var tp := FindTablePosition(from);
    var rows := Children(tp.table.value);
    var n := |rows|;
    var target := if index == n then n - 1 else index;
    assert Offset(Children(rows[target]), 0) == 0;
    if index < n {
      OffsetAfterInsert(rows, index, newRow);
    } else {
      OffsetStep(rows, n - 1);
      assert rows[..n] == rows;
      assert (rows + [newRow])[..n] == rows;
    }
  }
}
