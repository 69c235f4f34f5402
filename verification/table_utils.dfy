/** The table helpers of the editor's table extension: whether a rectangle, a column, a row or the
    whole table is selected, the cells of columns and rows with their absolute positions, the
    ancestor search, and the commands that select a row, a column or the table. */
module TableUtils {
  import opened Js
  import opened Editor
  import opened Tables

  /** The source's loop over the rectangle's cells, stopping at the first one not selected. */
  function AllSelected(cells: seq<int>, selected: seq<int>): (r: bool)
    ensures r <==> forall i :: 0 <= i < |cells| ==> cells[i] in selected
  {
    if |cells| == 0 then true
    else if cells[0] !in selected then false
    else AllSelected(cells[1..], selected)
  }

  /** `isRectSelected(rect)(selection)`: every cell of the rectangle is among the cells of the
      rectangle the selection spans; an empty rectangle counts as selected. */
  function IsRectSelected(rect: Rect, s: Selection, m: TableMap): (r: bool)
    requires s.CellSelection?
    ensures r <==> forall c :: c in m.cellsInRect(rect) ==> c in m.cellsInRect(SelectedRect(s, m))
    ensures m.cellsInRect(rect) == [] ==> r
  {
    var cells := m.cellsInRect(rect);
    var selected := m.cellsInRect(SelectedRect(s, m));
    AllSelectedMeansSubset(cells, selected);
    AllSelected(cells, selected)
  }

  lemma AllSelectedMeansSubset(cells: seq<int>, selected: seq<int>)
    ensures AllSelected(cells, selected) <==> forall c :: c in cells ==> c in selected
  {
    if !AllSelected(cells, selected) {
      var i :| 0 <= i < |cells| && cells[i] !in selected;
      var x := cells[i];
      assert x in cells && x !in selected;
    } else {
      forall c | c in cells
        ensures c in selected
      {
        var i :| 0 <= i < |cells| && cells[i] == c;
      }
    }
  }

  /** `isColumnSelected`, `isRowSelected` and `isTableSelected` on a given rectangle: false for any
      selection that is not a cell selection. */
  function IsSelected(rect: Rect, s: Selection, m: TableMap): (r: bool)
    ensures !s.CellSelection? ==> !r
    ensures s.CellSelection? ==> (r <==> forall c :: c in m.cellsInRect(rect) ==> c in m.cellsInRect(SelectedRect(s, m)))
  {
    s.CellSelection? && IsRectSelected(rect, s, m)
  }

  /** `isColumnSelected(c)`: the rectangle `[c, c+1) x [0, height)`. */
  function IsColumnSelected(c: int, s: Selection, m: TableMap): (r: bool)
    ensures r <==> s.CellSelection? && forall x :: x in m.cellsInRect(Rect(c, 0, c + 1, m.height)) ==> x in m.cellsInRect(SelectedRect(s, m))
  {
    IsSelected(ColumnRect(m, c), s, m)
  }

  /** `isRowSelected(r)`: the rectangle `[0, width) x [r, r+1)`. */
  function IsRowSelected(row: int, s: Selection, m: TableMap): (r: bool)
    ensures r <==> s.CellSelection? && forall x :: x in m.cellsInRect(Rect(0, row, m.width, row + 1)) ==> x in m.cellsInRect(SelectedRect(s, m))
  {
    IsSelected(RowRect(m, row), s, m)
  }

  /** `isTableSelected`: the whole grid. */
  function IsTableSelected(s: Selection, m: TableMap): (r: bool)
    ensures r <==> s.CellSelection? && forall x :: x in m.cellsInRect(Rect(0, 0, m.width, m.height)) ==> x in m.cellsInRect(SelectedRect(s, m))
  {
    IsSelected(WholeTable(m), s, m)
  }

  /** A fully selected table has every row and every column selected, provided each row's and each
      column's cells are among the whole grid's cells. */
  lemma TableSelectedCoversLines(s: Selection, m: TableMap, c: int, row: int)
    requires IsTableSelected(s, m)
    requires forall x :: x in m.cellsInRect(ColumnRect(m, c)) ==> x in m.cellsInRect(WholeTable(m))
    requires forall x :: x in m.cellsInRect(RowRect(m, row)) ==> x in m.cellsInRect(WholeTable(m))
    ensures IsColumnSelected(c, s, m) && IsRowSelected(row, s, m)
  {
  }

  /** `isAtLeastTwoCellsSelected` */
  function IsAtLeastTwoCellsSelected(s: Selection, m: TableMap): (r: bool)
    ensures r <==> s.CellSelection? && |m.cellsInRect(SelectedRect(s, m))| >= 2
  {
    if s.CellSelection? then |m.cellsInRect(SelectedRect(s, m))| >= 2 else false
  }

  /** What the ancestor search returns: the node's position, its content start and its depth. */
  datatype Found = Found(pos: int, start: int, depth: nat, node: Node)

  /** `findParentNodeClosestToPos`: the deepest ancestor at depth 1 or more satisfying the
      predicate, or `None`. */
  function FindParentNodeClosestToPos(p: Path, pred: Node -> bool): (r: Option<Found>)
    ensures r.None? <==> forall d :: 1 <= d < |p| ==> !pred(p[d].node)
    ensures r.Some? ==> 1 <= r.value.depth < |p| && pred(r.value.node) && r.value.node == p[r.value.depth].node
    ensures r.Some? ==> r.value.pos == r.value.start - 1 && r.value.start == p[r.value.depth].start
    ensures r.Some? ==> forall d :: r.value.depth < d < |p| ==> !pred(p[d].node)
  {
    match Innermost(p, pred)
    case None => None
    case Some(d) => Some(Found(Before(p, d), p[d].start, d, p[d].node))
  }

  predicate HasTableRole(n: Node) {
    TableRole(n) == "table"
  }

  /** `/cell/i.test(tableRole)` */
  predicate IsCellRole(n: Node) {
    Contains(ToLower(TableRole(n)), "cell")
  }

  /** `findTable`: the closest ancestor of `$from` whose table role is "table". */
  function FindTable(s: Selection): (r: Option<Found>)
    ensures r.None? <==> forall d :: 1 <= d < |s.from| ==> TableRole(s.from[d].node) != "table"
    ensures r.Some? ==> 1 <= r.value.depth < |s.from|
    ensures r.Some? ==> TableRole(r.value.node) == "table" && r.value.node == s.from[r.value.depth].node
    ensures r.Some? ==> forall d :: r.value.depth < d < |s.from| ==> TableRole(s.from[d].node) != "table"
  {
    FindParentNodeClosestToPos(s.from, HasTableRole)
  }

  /** `findCellClosestToPos` */
  function FindCellClosestToPos(p: Path): (r: Option<Found>)
    ensures r.None? <==> forall d :: 1 <= d < |p| ==> !IsCellRole(p[d].node)
    ensures r.Some? ==> 1 <= r.value.depth < |p|
    ensures r.Some? ==> IsCellRole(r.value.node) && r.value.node == p[r.value.depth].node
    ensures r.Some? ==> forall d :: r.value.depth < d < |p| ==> !IsCellRole(p[d].node)
  {
    FindParentNodeClosestToPos(p, IsCellRole)
  }

  /** `s.includes(sub)` needs `s` to be at least as long as `sub`. */
  lemma {:induction false} ContainsNeedsLength(s: string, sub: string)
    requires Contains(s, sub)
    ensures |sub| <= |s|
    decreases |s|
  {
    if !StartsWith(s, sub) {
      ContainsNeedsLength(s[1..], sub);
    }
  }

  /** Both the cell and the header cell roles count as cells; the row role does not. */
  lemma CellRoles()
    ensures IsCellRole(Branch("tableCell", "cell", []))
    ensures IsCellRole(Branch("tableHeader", "header_cell", []))
    ensures !IsCellRole(Branch("tableRow", "row", []))
  {
    assert StartsWith("cell", "cell");
    ToLowerIdentity("header_cell");
    assert "header_cell"[7..] == "cell";
    ContainsAt("header_cell", "cell", 7);
    if Contains(ToLower("row"), "cell") {
      ContainsNeedsLength(ToLower("row"), "cell");
    }
  }

  /** A cell with its absolute position and the start of its content. */
  datatype CellInfo = CellInfo(pos: int, start: int)

  /** Table-relative cell positions made absolute. */
  function Locate(cells: seq<int>, tableStart: int): (r: seq<CellInfo>)
    ensures |r| == |cells|
    ensures forall i :: 0 <= i < |cells| ==> r[i] == CellInfo(cells[i] + tableStart, cells[i] + tableStart + 1)
  {
    if |cells| == 0 then [] else [CellInfo(cells[0] + tableStart, cells[0] + tableStart + 1)] + Locate(cells[1..], tableStart)
  }

  /** The column or row lines to collect. */
  datatype Line = Column | Row

  function LineCount(line: Line, m: TableMap): nat {
    if line == Column then m.width else m.height
  }

  function LineRect(line: Line, m: TableMap, i: int): Rect {
    if line == Column then ColumnRect(m, i) else RowRect(m, i)
  }

  /** The source's `reduce`: a left fold appending the located cells of each index in range. */
  function Collect(line: Line, indexes: seq<int>, m: TableMap, tableStart: int, acc: seq<CellInfo>): seq<CellInfo>
    decreases |indexes|
  {
    if |indexes| == 0 then acc
    else
      var i := indexes[0];
      var acc' := if 0 <= i <= LineCount(line, m) - 1 then acc + Locate(m.cellsInRect(LineRect(line, m, i)), tableStart) else acc;
      Collect(line, indexes[1..], m, tableStart, acc')
  }

  /** The cells of one requested index, empty when it is out of range. */
  function CellsOfIndex(line: Line, i: int, m: TableMap, tableStart: int): seq<CellInfo> {
    if 0 <= i < LineCount(line, m) then Locate(m.cellsInRect(LineRect(line, m, i)), tableStart) else []
  }

  /** The cells of each requested index in request order, independently of the fold. */
  function CellsOfIndexes(line: Line, indexes: seq<int>, m: TableMap, tableStart: int): seq<CellInfo>
    decreases |indexes|
  {
    if |indexes| == 0 then [] else CellsOfIndex(line, indexes[0], m, tableStart) + CellsOfIndexes(line, indexes[1..], m, tableStart)
  }

  lemma {:induction false} CollectIsConcatenation(line: Line, indexes: seq<int>, m: TableMap, tableStart: int, acc: seq<CellInfo>)
    ensures Collect(line, indexes, m, tableStart, acc) == acc + CellsOfIndexes(line, indexes, m, tableStart)
    decreases |indexes|
  {
    if |indexes| > 0 {
      var i := indexes[0];
      var acc' := acc + CellsOfIndex(line, i, m, tableStart);
      if !(0 <= i < LineCount(line, m)) {
        assert acc + [] == acc;
      }
      assert Collect(line, indexes, m, tableStart, acc) == Collect(line, indexes[1..], m, tableStart, acc');
      assert CellsOfIndexes(line, indexes, m, tableStart)
          == CellsOfIndex(line, i, m, tableStart) + CellsOfIndexes(line, indexes[1..], m, tableStart);
      CollectIsConcatenation(line, indexes[1..], m, tableStart, acc');
      assert acc' + CellsOfIndexes(line, indexes[1..], m, tableStart)
          == acc + CellsOfIndexes(line, indexes, m, tableStart);
    }
  }

  /** `getCellsInColumn(indexes)` and `getCellsInRow(indexes)` (a single index is passed as a
      one-element list): no result without a table; otherwise the cells of each index in
      range, in the order the indexes were requested. */
  function GetCellsInLine(line: Line, indexes: seq<int>, s: Selection, m: TableMap): (r: Option<seq<CellInfo>>)
    ensures FindTable(s).None? <==> r.None?
    ensures r.Some? ==> r.value == CellsOfIndexes(line, indexes, m, FindTable(s).value.start)
  {
    match FindTable(s)
    case None => None
    case Some(t) =>
      CollectIsConcatenation(line, indexes, m, t.start, []);
      Some(Collect(line, indexes, m, t.start, []))
  }

  /** Every returned cell lies in the line of some requested index in range, its content starting
      one past its position; and every cell of every requested line is returned. */
  lemma {:induction false} CellsOfIndexesMembership(line: Line, indexes: seq<int>, m: TableMap, tableStart: int, x: CellInfo)
    ensures x in CellsOfIndexes(line, indexes, m, tableStart) <==>
      exists k :: 0 <= k < |indexes| && 0 <= indexes[k] < LineCount(line, m)
        && x.pos - tableStart in m.cellsInRect(LineRect(line, m, indexes[k])) && x.start == x.pos + 1
    decreases |indexes|
  {
    if |indexes| > 0 {
      CellsOfIndexesMembership(line, indexes[1..], m, tableStart, x);
      var head := CellsOfIndex(line, indexes[0], m, tableStart);
      var cells := m.cellsInRect(LineRect(line, m, indexes[0]));
      var inHead := 0 <= indexes[0] < LineCount(line, m) && x.pos - tableStart in cells && x.start == x.pos + 1;
      assert x in head <==> inHead by {
        if 0 <= indexes[0] < LineCount(line, m) {
          if x in head {
            var j :| 0 <= j < |head| && head[j] == x;
            assert cells[j] == x.pos - tableStart;
          }
          if inHead {
            var j :| 0 <= j < |cells| && cells[j] == x.pos - tableStart;
            assert head[j] == x;
          }
        }
      }
      if inHead {
        assert 0 <= 0 < |indexes|;
      }
      forall k | 1 <= k < |indexes|
        ensures indexes[1..][k - 1] == indexes[k]
      {
      }
      if exists k :: (1 <= k < |indexes| && 0 <= indexes[k] < LineCount(line, m)
        && x.pos - tableStart in m.cellsInRect(LineRect(line, m, indexes[k])) && x.start == x.pos + 1) {
        var k :| 1 <= k < |indexes| && 0 <= indexes[k] < LineCount(line, m)
          && x.pos - tableStart in m.cellsInRect(LineRect(line, m, indexes[k])) && x.start == x.pos + 1;
        assert indexes[1..][k - 1] == indexes[k];
      }
    }
  }

  /** `getCellsInTable`: every cell of the whole grid, located; no result without a table. */
  function GetCellsInTable(s: Selection, m: TableMap): (r: Option<seq<CellInfo>>)
    ensures FindTable(s).None? <==> r.None?
    ensures r.Some? ==> |r.value| == |m.cellsInRect(WholeTable(m))|
    ensures r.Some? ==> forall i :: 0 <= i < |r.value| ==>
      r.value[i].pos == m.cellsInRect(WholeTable(m))[i] + FindTable(s).value.start && r.value[i].start == r.value[i].pos + 1
  {
    match FindTable(s)
    case None => None
    case Some(t) => Some(Locate(m.cellsInRect(WholeTable(m)), t.start))
  }

  /** `select("row" | "column")(index)`: with a table and an index in range, a cell selection from
      the first cell of the line (the head) to its last cell (the anchor); the transaction is left
      as it was otherwise. The library is asked twice for a column's cells when the table has
      more than one row, once for the first and once for the last, both over the whole column. */
  function Select(line: Line, index: int, s: Selection, m: TableMap): (r: SelectOutcome)
    ensures FindTable(s).None? || index < 0 || index >= LineCount(line, m) ==> r == Unchanged
  {
    match FindTable(s)
    case None => Unchanged
    case Some(t) =>
      if 0 <= index < LineCount(line, m) then
        var isRow := line == Row;
        var left := if isRow then 0 else index;
        var top := if isRow then index else 0;
        var right := if isRow then m.width else index + 1;
        var bottom := if isRow then index + 1 else m.height;
        var first := m.cellsInRect(Rect(left, top, if isRow then right else left + 1, if isRow then top + 1 else bottom));
        var last := if bottom - top == 1 then first
          else m.cellsInRect(Rect(if isRow then left else right - 1, if isRow then bottom - 1 else top, right, bottom));
        if |first| == 0 || |last| == 0 then Threw
        else Selected(t.start + last[|last| - 1], t.start + first[0])
      else Unchanged
  }

  /** In range, the selection runs from the line's first cell (head) to its last cell (anchor), or
      the command throws when the library reports no cells for the line. */
  lemma SelectSpansLine(line: Line, index: int, s: Selection, m: TableMap)
    requires FindTable(s).Some? && 0 <= index < LineCount(line, m)
    ensures var cells := m.cellsInRect(LineRect(line, m, index));
      var start := FindTable(s).value.start;
      && (cells == [] ==> Select(line, index, s, m) == Threw)
      && (cells != [] ==> Select(line, index, s, m) == Selected(start + cells[|cells| - 1], start + cells[0]))
  {
  }

  /** `selectTable`: a cell selection from the first slot of the map (the head) to the last (the
      anchor); unchanged without a table or with an empty map. */
  function SelectTable(s: Selection, m: TableMap): (r: SelectOutcome)
    ensures r != Threw
    ensures r.Unchanged? <==> FindTable(s).None? || |m.slots| == 0
    ensures r.Selected? ==> r.head == FindTable(s).value.start + m.slots[0]
    ensures r.Selected? ==> r.anchor == FindTable(s).value.start + m.slots[|m.slots| - 1]
  {
    match FindTable(s)
    case None => Unchanged
    case Some(t) =>
      if |m.slots| > 0 then Selected(t.start + m.slots[|m.slots| - 1], t.start + m.slots[0]) else Unchanged
  }
}
