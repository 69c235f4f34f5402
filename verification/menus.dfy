/** Keyboard navigation shared by the editor's pop-up lists: the selected index as React state,
    moved up and down modulo the list length. On an empty list the arithmetic yields NaN, which
    the model writes as `None` and which every later step keeps. */
module MenuNavigation {
  import opened Js

  lemma ModSmall(x: int, n: int)
    requires 0 <= x < n
    ensures x % n == x
  {
  }

  lemma ModWrap(x: int, n: int)
    requires n <= x < 2 * n
    ensures x % n == x - n
  {
  }

  lemma UpArith(i: int, n: int)
    requires n > 0
    ensures 0 <= i < n ==> JsRem(i + n - 1, n) == if i == 0 then n - 1 else i - 1
  {
    if 0 < i < n {
      ModWrap(i + n - 1, n);
    } else if i == 0 {
      ModSmall(n - 1, n);
    }
  }

  lemma DownArith(i: int, n: int)
    requires n > 0
    ensures 0 <= i < n ==> JsRem(i + 1, n) == if i == n - 1 then 0 else i + 1
  {
    if 0 <= i < n - 1 {
      ModSmall(i + 1, n);
    } else if i == n - 1 {
      ModWrap(n, n);
    }
  }

  /** `(i + n - 1) % n`: the previous item, wrapping from the first to the last. */
  function Up(i: Option<int>, n: nat): (r: Option<int>)
    ensures n == 0 || i.None? ==> r.None?
    ensures n > 0 && i.Some? && i.value >= 0 ==> r.Some? && 0 <= r.value < n
    ensures n > 0 && i.Some? && 0 <= i.value < n ==> r == Some(if i.value == 0 then n - 1 else i.value - 1)
  {
    if n == 0 || i.None? then None
    else
      UpArith(i.value, n);
      Some(JsRem(i.value + n - 1, n))
  }

  /** `(i + 1) % n`: the next item, wrapping from the last to the first. */
  function Down(i: Option<int>, n: nat): (r: Option<int>)
    ensures n == 0 || i.None? ==> r.None?
    ensures n > 0 && i.Some? && i.value >= 0 ==> r.Some? && 0 <= r.value < n
    ensures n > 0 && i.Some? && 0 <= i.value < n ==> r == Some(if i.value == n - 1 then 0 else i.value + 1)
  {
    if n == 0 || i.None? then None
    else
      DownArith(i.value, n);
      Some(JsRem(i.value + 1, n))
  }

  /** Up and down undo each other on an index inside the list. */
  lemma UpDownInverse(i: int, n: nat)
    requires 0 <= i < n
    ensures Down(Up(Some(i), n), n) == Some(i)
    ensures Up(Down(Some(i), n), n) == Some(i)
  {
  }

  /** Once NaN, the index stays NaN whatever the list becomes. */
  lemma NaNIsSticky(n: nat, m: nat)
    ensures Up(Up(Some(0), 0), m).None? && Down(Down(Some(0), 0), m).None?
  {
  }

  /** `items[i]`: the item at a numeric index inside the list, else undefined. */
  function Pick<T>(items: seq<T>, i: Option<int>): (r: Option<T>)
    ensures r.Some? <==> i.Some? && 0 <= i.value < |items|
    ensures r.Some? ==> r.value == items[i.value]
  {
    if i.Some? && 0 <= i.value < |items| then Some(items[i.value]) else None
  }
}

/** The slash menu's nine commands and its filter. */
module SlashMenuItems {
  import opened Js

  /** What an item's command does after focusing the editor and deleting the typed range. */
  datatype Action =
    | ToggleParagraph
    | SetHeading(level: nat)
    | ToggleBulletList
    | ToggleOrderedList
    | ToggleCodeBlock
    | ToggleBlockquote
    | ToggleCallout

  datatype CommandItem = CommandItem(title: string, description: string, action: Action)

  const Items: seq<CommandItem> := [
    CommandItem("Text", "Just start typing with plain text", ToggleParagraph),
    CommandItem("Heading 1", "Large section heading", SetHeading(1)),
    CommandItem("Heading 2", "Medium section heading", SetHeading(2)),
    CommandItem("Heading 3", "Small section heading", SetHeading(3)),
    CommandItem("Bullet List", "Create a simple bullet list", ToggleBulletList),
    CommandItem("Numbered List", "Create a numbered list", ToggleOrderedList),
    CommandItem("Code Block", "Add a code block", ToggleCodeBlock),
    CommandItem("Quote", "Add a quote block", ToggleBlockquote),
    CommandItem("Callout", "Add a Callout", ToggleCallout)
  ]

  predicate Matches(item: CommandItem, query: string) {
    Contains(ToLower(item.title), ToLower(query))
  }

  function Filter(items: seq<CommandItem>, query: string): (r: seq<CommandItem>)
    ensures IsSubsequence(r, items)
    ensures forall x :: x in r <==> x in items && Matches(x, query)
  {
    if |items| == 0 then []
    else
      var rest := Filter(items[1..], query);
      if Matches(items[0], query) then [items[0]] + rest
      else rest
  }

  /** `getSuggestionItems({query})` */
  function GetSuggestionItems(query: string): (r: seq<CommandItem>)
    ensures IsSubsequence(r, Items)
    ensures forall x :: x in r <==> x in Items && Matches(x, query)
  {
    Filter(Items, query)
  }

  lemma {:induction false} FilterKeepsAll(items: seq<CommandItem>, query: string)
    requires forall x :: x in items ==> Matches(x, query)
    ensures Filter(items, query) == items
    decreases |items|
  {
    if |items| > 0 {
      FilterKeepsAll(items[1..], query);
      assert items == [items[0]] + items[1..];
    }
  }

  /** The empty query lists every command. */
  lemma EmptyQueryListsAll()
    ensures GetSuggestionItems("") == Items
  {
    forall x | x in Items
      ensures Matches(x, "")
    {
      EmptyIsContained(ToLower(x.title));
    }
    FilterKeepsAll(Items, "");
  }

  /** An occurrence of a non-empty text includes its first character. */
  lemma {:induction false} ContainsFirstChar(s: string, sub: string)
    requires |sub| > 0 && Contains(s, sub)
    ensures sub[0] in s
    decreases |s|
  {
    if !StartsWith(s, sub) {
      ContainsFirstChar(s[1..], sub);
      assert sub[0] in s[1..];
    } else {
      assert s[0] == sub[0];
    }
  }

  lemma NoLetterH(t: string)
    requires forall i :: 0 <= i < |t| ==> t[i] != 'h' && t[i] != 'H'
    ensures !Contains(ToLower(t), "heading")
  {
    if Contains(ToLower(t), "heading") {
      ContainsFirstChar(ToLower(t), "heading");
      assert false;
    }
  }

  lemma HeadingTitle(t: string)
    requires |t| >= 7 && t[..7] == "Heading"
    ensures Contains(ToLower(t), "heading")
  {
    var l := ToLower(t);
    assert l[..7] == ToLower(t[..7]);
    assert ToLower("Heading") == "heading";
    ContainsAt(l, "heading", 0);
  }

  lemma FilterStep(items: seq<CommandItem>, query: string)
    requires |items| > 0
    ensures Filter(items, query) == (if Matches(items[0], query) then [items[0]] else []) + Filter(items[1..], query)
  {
  }

  /** Which of the nine titles the query "HEADING" matches. */
  lemma HeadingMatches(k: nat)
    requires k < |Items|
    ensures Matches(Items[k], "HEADING") <==> 1 <= k <= 3
  {
    assert ToLower("HEADING") == "heading";
    var t := Items[k].title;
    if 1 <= k <= 3 {
      HeadingTitle(t);
    } else {
      NoLetterH(t);
    }
  }

  /** The filter keeps exactly the items at the indexes the query matches; here, a block. */
  lemma {:induction false} FilterBlock(items: seq<CommandItem>, query: string, lo: nat, hi: nat)
    requires lo <= hi <= |items|
    requires forall k :: 0 <= k < |items| ==> (Matches(items[k], query) <==> lo <= k < hi)
    ensures Filter(items, query) == items[lo..hi]
    decreases |items|
  {
    if |items| > 0 {
      FilterStep(items, query);
      var rest := items[1..];
      assert forall k :: 0 <= k < |rest| ==> rest[k] == items[k + 1];
      if lo == 0 && hi > 0 {
        assert Matches(items[0], query);
        FilterBlock(rest, query, 0, hi - 1);
        assert items[lo..hi] == [items[0]] + rest[0..hi - 1];
      } else if lo == 0 {
        assert !Matches(items[0], query);
        FilterBlock(rest, query, 0, 0);
      } else {
        assert !Matches(items[0], query);
        FilterBlock(rest, query, lo - 1, hi - 1);
        assert items[lo..hi] == rest[lo - 1..hi - 1];
      }
    }
  }

  /** Matching ignores case: the upper-case query "HEADING" lists exactly the three headings. */
  lemma CaseInsensitiveHeading()
    ensures GetSuggestionItems("HEADING") == Items[1..4]
  {
    forall k | 0 <= k < |Items|
      ensures Matches(Items[k], "HEADING") <==> 1 <= k < 4
    {
      HeadingMatches(k);
    }
    FilterBlock(Items, "HEADING", 1, 4);
  }
}

/** The slash menu's key handler: arrows move the selection, Enter runs the selected command.
    The selected index is kept when the filtered list changes. */
module CommandList {
  import opened Js
  import opened MenuNavigation
  import opened SlashMenuItems

  datatype Key = ArrowUp | ArrowDown | Enter | OtherKey(name: string)

  /** Whether `command` is called, and with which argument (`None` is `undefined`). */
  datatype Call = NoCall | CallWith(item: Option<CommandItem>)

  datatype KeyOutcome = KeyOutcome(handled: bool, index: Option<int>, call: Call)

  /** `onKeyDown({event})` */
  function OnKeyDown(items: seq<CommandItem>, index: Option<int>, key: Key): (r: KeyOutcome)
    ensures r.handled <==> !key.OtherKey?
    ensures !key.ArrowUp? && !key.ArrowDown? ==> r.index == index
    ensures key.ArrowUp? ==> r.index == Up(index, |items|)
    ensures key.ArrowDown? ==> r.index == Down(index, |items|)
    ensures r.call != NoCall <==> key.Enter?
    ensures key.Enter? ==> r.call == CallWith(Pick(items, index))
  {
    match key
    case ArrowUp => KeyOutcome(true, Up(index, |items|), NoCall)
    case ArrowDown => KeyOutcome(true, Down(index, |items|), NoCall)
    case Enter => KeyOutcome(true, index, CallWith(Pick(items, index)))
    case OtherKey(_) => KeyOutcome(false, index, NoCall)
  }

  /** The menu session: the current items and the selected index. */
  datatype Menu = Menu(items: seq<CommandItem>, index: Option<int>)

  /** A key, or a re-render with the items of the new query (React keeps the state). */
  datatype Event = Press(key: Key) | Render(items: seq<CommandItem>)

  function Opened(items: seq<CommandItem>): Menu {
    Menu(items, Some(0))
  }

  /** One event as written: a key moves the index over the current items; a re-render swaps in
      the new items and keeps whatever index `useState` holds. */
  function Step(m: Menu, e: Event): (r: Menu)
    ensures e.Press? ==> r.items == m.items && r.index == OnKeyDown(m.items, m.index, e.key).index
    ensures e.Render? ==> r.items == e.items && r.index == m.index
  {
    match e
    case Press(k) => m.(index := OnKeyDown(m.items, m.index, k).index)
    case Render(items) => m.(items := items)
  }

  function Run(m: Menu, es: seq<Event>): Menu
    decreases |es|
  {
    if |es| == 0 then m else Run(Step(m, es[0]), es[1..])
  }

  predicate InRange(m: Menu) {
    m.index.Some? && 0 <= m.index.value < |m.items|
  }

  /** Keys alone keep a selection inside a non-empty list. */
  lemma {:induction false} KeysStayInRange(m: Menu, ks: seq<Event>)
    requires InRange(m)
    requires forall i :: 0 <= i < |ks| ==> ks[i].Press?
    ensures InRange(Run(m, ks))
    decreases |ks|
  {
    if |ks| > 0 {
      KeysStayInRange(Step(m, ks[0]), ks[1..]);
    }
  }

  /** As written, a query that shortens the list leaves a stale index: opened on the empty query,
      moved up to the last command, then narrowed by "HEADING", Enter passes `undefined` to the
      command, which the slash extension dereferences. */
  lemma StaleIndexAfterQuery()
    ensures var m := Run(Opened(Items), [Press(ArrowUp), Render(Items[1..4])]);
      m.index == Some(8) && OnKeyDown(m.items, m.index, Enter).call == CallWith(None)
  {
    var m0 := Opened(Items);
    var m1 := Step(m0, Press(ArrowUp));
    assert m1.index == Some(8);
    var m2 := Step(m1, Render(Items[1..4]));
    assert |m2.items| == 3;
    var es := [Press(ArrowUp), Render(Items[1..4])];
    assert es[1..] == [Render(Items[1..4])];
    assert Run(m0, es) == Run(m1, es[1..]);
    assert Run(m1, es[1..]) == Run(m2, []);
  }

  /** The evidently intended session: new items reset the selection to the first one. */
  function StepCorrected(m: Menu, e: Event): (r: Menu)
    ensures e.Render? ==> r == Opened(e.items)
    ensures e.Press? ==> r == Step(m, e)
  {
    match e
    case Press(k) => Step(m, e)
    case Render(items) => Menu(items, Some(0))
  }

  function RunCorrected(m: Menu, es: seq<Event>): Menu
    decreases |es|
  {
    if |es| == 0 then m else RunCorrected(StepCorrected(m, es[0]), es[1..])
  }

  /** The correction's invariant: whenever there are items, the selection is one of them. */
  predicate SelectionValid(m: Menu) {
    |m.items| > 0 ==> InRange(m)
  }

  lemma {:induction false} CorrectedSelectionValid(m: Menu, es: seq<Event>)
    requires SelectionValid(m)
    ensures SelectionValid(RunCorrected(m, es))
    decreases |es|
  {
    if |es| > 0 {
      var n := StepCorrected(m, es[0]);
      assert SelectionValid(n);
      CorrectedSelectionValid(n, es[1..]);
    }
  }

  /** With the correction, Enter on a non-empty list always runs an existing command. */
  lemma CorrectedEnterRunsAnItem(items: seq<CommandItem>, es: seq<Event>)
    ensures var m := RunCorrected(Opened(items), es);
      |m.items| > 0 ==> InRange(m) && OnKeyDown(m.items, m.index, Enter).call == CallWith(Some(m.items[m.index.value]))
  {
    CorrectedSelectionValid(Opened(items), es);
  }
}
