/** The table vocabulary shared by the table helpers: rectangles of grid coordinates, a table's
    map with its two geometric queries left uninterpreted, and the three kinds of selection. */
module Tables {
  import opened Js
  import opened Editor

  /** Grid columns `left..right-1` and rows `top..bottom-1`. */
  datatype Rect = Rect(left: int, top: int, right: int, bottom: int)

  /** `TableMap.get(table)`: the grid size, the cell position of every grid slot in row-major
      order, and the library's `cellsInRect` and `rectBetween` as opaque functions. Cell
      positions are relative to the start of the table's content. */
  datatype TableMap = TableMap(
    width: nat,
    height: nat,
    slots: seq<int>,
    cellsInRect: Rect -> seq<int>,
    rectBetween: (int, int) -> Rect)

  function WholeTable(m: TableMap): Rect {
    Rect(0, 0, m.width, m.height)
  }

  function ColumnRect(m: TableMap, c: int): Rect {
    Rect(c, 0, c + 1, m.height)
  }

  function RowRect(m: TableMap, r: int): Rect {
    Rect(0, r, m.width, r + 1)
  }

  /** An editor selection. A cell selection records the absolute positions of its anchor and
      head cells and where the content of their table starts; every selection has `$from` and
      `$anchor`. */
  datatype Selection =
    | CellSelection(from: Path, anchor: Path, anchorCell: int, headCell: int, tableStart: int)
    | NodeSelection(from: Path, anchor: Path, node: Node)
    | TextSelection(from: Path, anchor: Path)

  /** The rectangle spanned by a cell selection. */
  function SelectedRect(s: Selection, m: TableMap): Rect
    requires s.CellSelection?
  {
    m.rectBetween(s.anchorCell - s.tableStart, s.headCell - s.tableStart)
  }

  /** What a selection command does to the transaction: nothing, a new cell selection between two
      absolute positions, or a thrown error (resolving a position that is not a number). */
  datatype SelectOutcome = Unchanged | Selected(anchor: int, head: int) | Threw
}
