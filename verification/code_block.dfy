/** The code block's keyboard shortcuts: Tab inserts two no-break spaces, and Mod-a selects the
    content of the innermost enclosing code block. */
module CodeBlock {
  import opened Js
  import Editor

  const NodeName: string := "codeBlock"
  const NoBreakSpace: char := '\U{00A0}'
  const TabText: string := [NoBreakSpace, NoBreakSpace]

  /** What a shortcut does to the editor. */
  datatype Effect = InsertText(text: string) | SelectText(from: int, to: int)

  /** A shortcut handler's return value and effects; `handled == false` lets the key through. */
  datatype Handled = Handled(handled: bool, effects: seq<Effect>)

  predicate IsCodeBlock(n: Editor.Node) {
    Editor.TypeName(n) == NodeName
  }

  /** Tab: inside a code block (`isActive`), two no-break spaces; elsewhere nothing. */
  function OnTab(inCodeBlock: bool): (r: Handled)
    ensures r.handled == inCodeBlock
    ensures !inCodeBlock ==> r.effects == []
    ensures inCodeBlock ==> r.effects == [InsertText(TabText)]
  {
    if inCodeBlock then Handled(true, [InsertText(TabText)]) else Handled(false, [])
  }

  /** The inserted indentation is two characters, both no-break spaces, and so survives
      whitespace collapsing. */
  lemma TabIsTwoNoBreakSpaces()
    ensures |OnTab(true).effects[0].text| == 2
    ensures forall i :: 0 <= i < 2 ==> OnTab(true).effects[0].text[i] == '\U{00A0}'
  {
  }

  /** Mod-a: when active, scan the ancestors of `$from` from its depth down to 1 for a code
      block; select from just inside its opening token to just inside its closing token. */
  function OnSelectAll(inCodeBlock: bool, from: Editor.Path): (r: Handled)
    ensures !inCodeBlock ==> r == Handled(false, [])
    ensures inCodeBlock && Editor.Innermost(from, IsCodeBlock).None? ==> r == Handled(false, [])
    ensures inCodeBlock && Editor.Innermost(from, IsCodeBlock).Some? ==>
      var d := Editor.Innermost(from, IsCodeBlock).value;
      && r.handled
      && r.effects == [SelectText(from[d].start, from[d].start + Editor.Size(from[d].node) - 2)]
  {
    if !inCodeBlock then Handled(false, [])
    else
      match Editor.Innermost(from, IsCodeBlock)
      case None => Handled(false, [])
      case Some(d) =>
        var pos := from[d].start - 1;
        var end := pos + Editor.Size(from[d].node);
        Handled(true, [SelectText(pos + 1, end - 1)])
  }

  /** The selection covers exactly the block's content: it starts where the content starts and
      spans the content size of the deepest code block around the cursor. */
  lemma SelectAllCoversContent(from: Editor.Path, d: nat)
    requires Editor.Innermost(from, IsCodeBlock) == Some(d)
    ensures OnSelectAll(true, from).effects[0].from == from[d].start
    ensures from[d].node.Branch? ==>
      OnSelectAll(true, from).effects[0].to - from[d].start == Editor.ContentSize(from[d].node.children)
  {
    var n := from[d].node;
    var r := OnSelectAll(true, from);
    assert r.effects[0] == SelectText(from[d].start, from[d].start - 1 + Editor.Size(n) - 1);
    if n.Branch? {
      assert Editor.Size(n) == 2 + Editor.ContentSize(n.children);
    }
  }

  /** With no code block among the ancestors the key is let through even when `isActive` said yes. */
  lemma SelectAllOutsideCodeBlock(docStart: int, paragraph: Editor.Node)
    requires !IsCodeBlock(paragraph)
    ensures OnSelectAll(true, [Editor.Level(Editor.Branch("doc", "", [paragraph]), docStart), Editor.Level(paragraph, docStart + 1)]).handled == false
  {
  }
}
