/** Classifying the editor's selection: how much of a table a selection covers, which decides the
    table toolbar, and which kind of element a selection is on. */
module TableSelection {
  import opened Js
  import opened Editor
  import opened Tables

  datatype Kind = KindNone | KindRow | KindColumn | KindTable

  function KindName(k: Kind): string {
    match k
    case KindNone => "none"
    case KindRow => "row"
    case KindColumn => "column"
    case KindTable => "table"
  }

  predicate FullWidth(r: Rect, m: TableMap) {
    r.left == 0 && r.right == m.width
  }

  predicate FullHeight(r: Rect, m: TableMap) {
    r.top == 0 && r.bottom == m.height
  }

  /** `TableUtils.getTableSelection`. `inTable` is `editor.isActive("table")`; `m` is the map of the
      table the cell selection lies in. */
  function GetTableSelection(inTable: bool, s: Selection, m: TableMap): (k: Kind)
    ensures k == KindNone <==> !inTable
    ensures k == KindTable <==> inTable && s.CellSelection? && FullWidth(SelectedRect(s, m), m) && FullHeight(SelectedRect(s, m), m)
    ensures k == KindColumn <==> inTable && s.CellSelection? && !FullWidth(SelectedRect(s, m), m) && FullHeight(SelectedRect(s, m), m)
    ensures k == KindRow <==> inTable && (!s.CellSelection? || !FullHeight(SelectedRect(s, m), m))
  {
    if !inTable then KindNone
    else if !s.CellSelection? then KindRow
    else
      var rect := SelectedRect(s, m);
      if rect.left == 0 && rect.right == m.width && rect.top == 0 && rect.bottom == m.height then KindTable
      else if rect.left == 0 && rect.right == m.width then KindRow
      else if rect.top == 0 && rect.bottom == m.height then KindColumn
      else KindRow
  }

  /** A one-row table whose only row is selected counts as the whole table, not a row. */
  lemma SingleRowSelectionIsTable(s: Selection, m: TableMap)
    requires s.CellSelection? && m.height == 1
    requires SelectedRect(s, m) == Rect(0, 0, m.width, 1)
    ensures GetTableSelection(true, s, m) == KindTable
  {
  }
}

/** `getSelectionElementType`: the kind of element a selection is on. */
module SelectionElement {
  import opened Js
  import opened Editor
  import opened Tables
  import TableUtils

  const TableType: string := "table"

  /** A cell selection is "table"; a node selection is its node's type, even inside a table; a
      text selection inside a table is "table"; any other gives the anchor's parent's type. */
  function ElementType(s: Selection): (r: string)
    ensures s.CellSelection? ==> r == TableType
    ensures s.NodeSelection? ==> r == TypeName(s.node)
    ensures s.TextSelection? && TableUtils.FindTable(s).Some? ==> r == TableType
    ensures s.TextSelection? && TableUtils.FindTable(s).None? ==> r == TypeName(Parent(s.anchor))
  {
    if s.CellSelection? then TableType
    else if s.NodeSelection? then TypeName(s.node)
    else if TableUtils.FindTable(s).Some? then TableType
    else TypeName(Parent(s.anchor))
  }

  /** A text selection is "table" exactly when some ancestor of its start, below the document, has
      the table role; an image selected inside a table is still "image". */
  lemma TextInTable(s: Selection)
    requires s.TextSelection?
    ensures ElementType(s) == TableType <==>
      (exists d :: 1 <= d < |s.from| && TableRole(s.from[d].node) == "table") || TypeName(Parent(s.anchor)) == TableType
  {
    if TableUtils.FindTable(s).Some? {
      var d := TableUtils.FindTable(s).value.depth;
      assert TableUtils.HasTableRole(s.from[d].node);
    }
  }

  lemma NodeSelectionIgnoresTable(from: Path, anchor: Path)
    ensures ElementType(NodeSelection(from, anchor, Leaf("image"))) == "image"
  {
  }
}
