/** The emoji suggestion's item filter: an emoji is offered when one of its shortcodes or tags
    starts with the lower-cased query, at most five of them, in storage order. */
module EmojiSuggestion {
  import opened Js

  datatype EmojiData = EmojiData(name: string, shortcodes: seq<string>, tags: seq<string>)

  const MaxItems: nat := 5

  /** The index of the first element with the prefix. */
  function FirstWithPrefix(xs: seq<string>, q: string): (r: Option<nat>)
    ensures r.None? <==> forall i :: 0 <= i < |xs| ==> !StartsWith(xs[i], q)
    ensures r.Some? ==> r.value < |xs| && StartsWith(xs[r.value], q)
    ensures r.Some? ==> forall j :: 0 <= j < r.value ==> !StartsWith(xs[j], q)
  {
    if |xs| == 0 then None
    else if StartsWith(xs[0], q) then Some(0)
    else
      var r := FirstWithPrefix(xs[1..], q);
      if r.Some? then Some(r.value + 1) else None
  }

  /** `xs.find(x => x.startsWith(q))` */
  function Find(xs: seq<string>, q: string): (r: Option<string>)
    ensures r.None? <==> forall i :: 0 <= i < |xs| ==> !StartsWith(xs[i], q)
    ensures r.Some? ==> r.value == xs[FirstWithPrefix(xs, q).value]
  {
    var k := FirstWithPrefix(xs, q);
    if k.Some? then Some(xs[k.value]) else None
  }

  /** `find(...)` used as a condition: a found empty string is falsy. */
  predicate FoundTruthy(o: Option<string>) {
    o.Some? && o.value != ""
  }

  /** The filter's condition for an already lower-cased query. */
  predicate Kept(e: EmojiData, q: string) {
    FoundTruthy(Find(e.shortcodes, q)) || FoundTruthy(Find(e.tags, q))
  }

  function FilterEmojis(es: seq<EmojiData>, q: string): (r: seq<EmojiData>)
    ensures IsSubsequence(r, es)
    ensures forall e :: e in r <==> e in es && Kept(e, q)
    ensures |r| <= |es|
  {
    if |es| == 0 then []
    else if Kept(es[0], q) then [es[0]] + FilterEmojis(es[1..], q)
    else FilterEmojis(es[1..], q)
  }

  /** `items({editor, query})`: only the query is lower-cased; the shortcodes and tags are
      compared as stored. */
  function Items(emojis: seq<EmojiData>, query: string): (r: seq<EmojiData>)
    ensures var all := FilterEmojis(emojis, ToLower(query));
      && |r| == (if |all| < MaxItems then |all| else MaxItems)
      && r == all[..|r|]
  {
    var all := FilterEmojis(emojis, ToLower(query));
    if |all| <= MaxItems then all else all[..MaxItems]
  }

  /** For a non-empty query the truthiness test is the plain prefix test. */
  lemma NonEmptyQuery(e: EmojiData, q: string)
    requires q != ""
    ensures Kept(e, q) <==>
      (exists i :: 0 <= i < |e.shortcodes| && StartsWith(e.shortcodes[i], q))
      || (exists i :: 0 <= i < |e.tags| && StartsWith(e.tags[i], q))
  {
  }

  /** For the empty query every string matches, so `find` returns the first one, and the emoji
      is kept only when a first shortcode or first tag is non-empty. */
  lemma EmptyQuery(e: EmojiData)
    ensures Kept(e, "") <==>
      (|e.shortcodes| > 0 && e.shortcodes[0] != "") || (|e.tags| > 0 && e.tags[0] != "")
  {
    if |e.shortcodes| > 0 {
      assert StartsWith(e.shortcodes[0], "");
    }
    if |e.tags| > 0 {
      assert StartsWith(e.tags[0], "");
    }
  }

  /** A later match does not help when the first match is the empty string. */
  lemma EmptyFirstMatchHides()
    ensures !Kept(EmojiData("smile", ["", "smile"], []), "")
  {
    EmptyQuery(EmojiData("smile", ["", "smile"], []));
  }

  /** A shortcode or tag stored with a leading capital is never offered for a non-empty query,
      since the lower-cased query cannot start with a capital. */
  lemma CapitalisedNeverMatches(e: EmojiData, query: string)
    requires query != ""
    requires forall i :: 0 <= i < |e.shortcodes| ==> |e.shortcodes[i]| > 0 && IsUpperAscii(e.shortcodes[i][0])
    requires forall i :: 0 <= i < |e.tags| ==> |e.tags[i]| > 0 && IsUpperAscii(e.tags[i][0])
    ensures !Kept(e, ToLower(query))
  {
    var q := ToLower(query);
    NonEmptyQuery(e, q);
    assert !IsUpperAscii(q[0]);
  }
}

/** The emoji pop-up's key handler: arrows move the selection, Enter inserts the selected emoji
    when there is one. */
module EmojiList {
  import opened Js
  import opened MenuNavigation

  datatype EmojiItem = EmojiItem(name: string, emoji: string)

  datatype Key = ArrowUp | ArrowDown | Enter | OtherKey(name: string)

  /** Whether the key was handled, the new index, and the name passed to `command`, if any. */
  datatype KeyOutcome = KeyOutcome(handled: bool, index: Option<int>, command: Option<string>)

  /** The index after mounting. */
  const InitialIndex: Option<int> := Some(0)

  /** `onKeyDown({event})` with `upHandler`, `downHandler` and `enterHandler`. */
  function OnKeyDown(items: seq<EmojiItem>, index: Option<int>, key: Key): (r: KeyOutcome)
    ensures r.handled <==> !key.OtherKey?
    ensures key.ArrowUp? ==> r.index == Up(index, |items|)
    ensures key.ArrowDown? ==> r.index == Down(index, |items|)
    ensures !key.ArrowUp? && !key.ArrowDown? ==> r.index == index
    ensures r.command.Some? <==> key.Enter? && Pick(items, index).Some?
    ensures r.command.Some? ==> r.command.value == items[index.value].name
  {
    match key
    case ArrowUp => KeyOutcome(true, Up(index, |items|), None)
    case ArrowDown => KeyOutcome(true, Down(index, |items|), None)
    case Enter =>
      var item := Pick(items, index);
      KeyOutcome(true, index, if item.Some? then Some(item.value.name) else None)
    case OtherKey(_) => KeyOutcome(false, index, None)
  }

  /** Enter on an empty list is swallowed and inserts nothing. */
  lemma EnterOnEmptyList(index: Option<int>)
    ensures OnKeyDown([], index, Enter) == KeyOutcome(true, index, None)
  {
  }

  /** An arrow key on an empty list makes the index NaN; when matches come back, Enter is still
      swallowed and inserts nothing. */
  lemma ArrowOnEmptyListDisablesEnter(items: seq<EmojiItem>)
    ensures var i := OnKeyDown([], InitialIndex, ArrowDown).index;
      i.None? && OnKeyDown(items, i, Enter) == KeyOutcome(true, None, None)
  {
  }

  /** From the initial index on a non-empty list, Enter inserts the first emoji. */
  lemma EnterAfterMount(items: seq<EmojiItem>)
    requires |items| > 0
    ensures OnKeyDown(items, InitialIndex, Enter).command == Some(items[0].name)
  {
  }
}

/** The table-size picker: an 8 by 8 grid whose hovered cell fixes the size to insert. */
module TableGridSelector {
  import opened Js

  const MaxRows: nat := 8
  const MaxCols: nat := 8

  datatype Grid = Grid(hoveredRows: nat, hoveredCols: nat)

  const Initial: Grid := Grid(0, 0)

  predicate IsCell(row: int, col: int) {
    0 <= row < MaxRows && 0 <= col < MaxCols
  }

  /** `handleCellHover(row, col)` */
  function Hover(g: Grid, row: nat, col: nat): (r: Grid)
    requires IsCell(row, col)
    ensures 1 <= r.hoveredRows <= MaxRows && 1 <= r.hoveredCols <= MaxCols
    ensures r.hoveredRows - 1 == row && r.hoveredCols - 1 == col
  {
    Grid(row + 1, col + 1)
  }

  /** The cell's class: highlighted inside the hovered rectangle. */
  predicate Highlighted(g: Grid, row: nat, col: nat) {
    row < g.hoveredRows && col < g.hoveredCols
  }

  /** The "rows×cols" label, shown once both dimensions are positive. */
  function Label(g: Grid): (r: Option<(nat, nat)>)
    ensures r.Some? <==> g.hoveredRows > 0 && g.hoveredCols > 0
    ensures r.Some? ==> r.value == (g.hoveredRows, g.hoveredCols)
  {
    if g.hoveredRows > 0 && g.hoveredCols > 0 then Some((g.hoveredRows, g.hoveredCols)) else None
  }

  datatype Insert = Insert(rows: nat, cols: nat, withHeaderRow: bool)

  /** What a click does: the table inserted, if any, and whether `onClose` runs. */
  datatype Click = Click(inserted: Option<Insert>, closed: bool)

  /** `handleCellClick(row, col)` through `insertTable`; without an editor nothing happens. */
  function OnClick(hasEditor: bool, row: nat, col: nat): (r: Click)
    requires IsCell(row, col)
    ensures !hasEditor ==> r == Click(None, false)
    ensures hasEditor ==> r.closed && r.inserted.Some? && r.inserted.value.withHeaderRow
    ensures r.inserted.Some? ==>
      1 <= r.inserted.value.rows <= MaxRows && 1 <= r.inserted.value.cols <= MaxCols
  {
    if !hasEditor then Click(None, false)
    else Click(Some(Insert(row + 1, col + 1, true)), true)
  }

  /** Hovering a cell highlights exactly the cells from the top-left corner to it. */
  lemma HoverHighlightsRectangle(g: Grid, row: nat, col: nat, i: nat, j: nat)
    requires IsCell(row, col)
    ensures Highlighted(Hover(g, row, col), i, j) <==> i <= row && j <= col
  {
  }

  /** The size inserted by clicking the hovered cell is the size the label shows. */
  lemma ClickInsertsLabelledSize(g: Grid, row: nat, col: nat)
    requires IsCell(row, col)
    ensures var h := Hover(g, row, col);
      Label(h).Some? && OnClick(true, row, col).inserted == Some(Insert(Label(h).value.0, Label(h).value.1, true))
  {
  }

  /** Nothing is highlighted or labelled before the first hover. */
  lemma InitiallyBlank(i: nat, j: nat)
    ensures !Highlighted(Initial, i, j) && Label(Initial).None?
  {
  }
}
