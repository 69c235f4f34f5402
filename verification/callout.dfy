/** The callout node: the ":::" input rule that creates one, the toggle command with its
    default attributes, and the attribute serialisation. */
module Callout {
  import opened Js
  import Dom
  import Editor

  const NodeName: string := "callout"
  const DefaultIcon: string := "\U{1F4A1}"
  const DefaultBackground: string := "#FFF5EB"

  predicate IsLowerTag(t: string) {
    forall i :: 0 <= i < |t| ==> 'a' <= t[i] <= 'z'
  }

  /** The input rule's pattern, anchored at both ends: three colons, an optional run of lower-case
      ASCII letters, and exactly one whitespace character (`[\s\n]`, where `\n` is already in `\s`).
      Yields the captured run ("" when the group is absent). */
  function Trigger(text: string): (r: Option<string>)
    ensures r.Some? ==> |text| >= 4 && text == ":::" + r.value + [text[|text| - 1]]
  {
    if |text| >= 4 && text[..3] == ":::" && IsLowerTag(text[3..|text| - 1]) && IsWhitespace(text[|text| - 1])
    then Some(text[3..|text| - 1])
    else None
  }

  /** The text the rule reacts to is exactly ":::" + tag + one whitespace character. */
  lemma TriggerExactly(text: string)
    ensures Trigger(text).Some? <==>
      exists tag: string, ws: char :: IsLowerTag(tag) && IsWhitespace(ws) && text == ":::" + tag + [ws]
  {
    if Trigger(text).Some? {
      var tag, ws := text[3..|text| - 1], text[|text| - 1];
      assert IsLowerTag(tag) && IsWhitespace(ws) && text == ":::" + tag + [ws];
    }
    if exists tag: string, ws: char :: IsLowerTag(tag) && IsWhitespace(ws) && text == ":::" + tag + [ws] {
      var tag: string, ws: char :| IsLowerTag(tag) && IsWhitespace(ws) && text == ":::" + tag + [ws];
      assert text[..3] == ":::";
      assert text[3..|text| - 1] == tag;
    }
  }

  /** Three colons alone, an upper-case tag and a digit do not trigger. */
  lemma NonTriggers()
    ensures Trigger(":::").None?
    ensures Trigger(":::Info ").None?
    ensures Trigger(":::1 ").None?
    ensures Trigger(":::info  ").None?
    ensures Trigger(":::info\n") == Some("info")
    ensures Trigger("::: ") == Some("")
  {
    assert !IsLowerTag(":::Info "[3..7]) by { assert ":::Info "[3..7][0] == 'I'; }
    assert !IsLowerTag(":::1 "[3..4]) by { assert ":::1 "[3..4][0] == '1'; }
    assert !IsLowerTag(":::info  "[3..8]) by { assert ":::info  "[3..8][4] == ' '; }
    assert ":::info\n"[..3] == ":::" && ":::info\n"[3..7] == "info";
  }

  /** The node's attributes. */
  datatype CalloutAttrs = CalloutAttrs(icon: string, backgroundColor: string)

  const Defaults: CalloutAttrs := CalloutAttrs(DefaultIcon, DefaultBackground)

  /** `toggleCallout(attrs)`: the attribute object handed to `toggleWrap`, the defaults spread
      first and the caller's keys after them. */
  function ToggleAttrs(attrs: map<string, string>): (r: map<string, string>)
    ensures r.Keys == {"icon", "backgroundColor"} + attrs.Keys
    ensures forall k :: k in attrs ==> r[k] == attrs[k]
    ensures "icon" !in attrs ==> r["icon"] == DefaultIcon
    ensures "backgroundColor" !in attrs ==> r["backgroundColor"] == DefaultBackground
  {
    map["icon" := DefaultIcon, "backgroundColor" := DefaultBackground] + attrs
  }

  /** The node attributes an attribute object gives: the declared attributes are taken, unknown
      keys are ignored and missing ones default. */
  function NodeAttrs(given: map<string, string>): CalloutAttrs {
    CalloutAttrs(
      if "icon" in given then given["icon"] else Defaults.icon,
      if "backgroundColor" in given then given["backgroundColor"] else Defaults.backgroundColor)
  }

  /** With no arguments the wrapped block gets the attribute defaults; a caller's value wins. */
  lemma ToggleDefaults(attrs: map<string, string>)
    ensures NodeAttrs(ToggleAttrs(map[])) == Defaults
    ensures "icon" in attrs ==> NodeAttrs(ToggleAttrs(attrs)).icon == attrs["icon"]
    ensures "icon" !in attrs ==> NodeAttrs(ToggleAttrs(attrs)).icon == DefaultIcon
  {
  }

  function RenderAttrs(a: CalloutAttrs): map<string, string> {
    map["data-callout-icon" := a.icon, "data-callout-bg" := a.backgroundColor]
  }

  /** A missing attribute (`null`) keeps the default. */
  function ParseAttrs(e: Dom.Element): CalloutAttrs {
    CalloutAttrs(
      Dom.GetAttribute(e, "data-callout-icon").GetOr(Defaults.icon),
      Dom.GetAttribute(e, "data-callout-bg").GetOr(Defaults.backgroundColor))
  }

  function Render(a: CalloutAttrs): Dom.Element {
    Dom.TaggedDiv(NodeName, RenderAttrs(a))
  }

  /** `parseHTML`: only `div[data-type="callout"]` is read; a present attribute is kept even
      when empty, and only a missing one falls back to the default. */
  function Parse(e: Dom.Element): (r: Option<CalloutAttrs>)
    ensures r.Some? <==> Dom.IsTaggedDiv(e, NodeName)
    ensures r.Some? ==> var icon := Dom.GetAttribute(e, "data-callout-icon");
      r.value.icon == (if icon.Some? then icon.value else Defaults.icon)
    ensures r.Some? ==> var bg := Dom.GetAttribute(e, "data-callout-bg");
      r.value.backgroundColor == (if bg.Some? then bg.value else Defaults.backgroundColor)
  {
    if Dom.IsTaggedDiv(e, NodeName) then Some(ParseAttrs(e)) else None
  }

  /** Both attributes survive rendering and parsing back, and a bare tagged `div` parses to the defaults. */
  lemma RenderParseRoundTrip(a: CalloutAttrs)
    ensures Parse(Render(a)) == Some(a)
    ensures Parse(Dom.Element("div", map["data-type" := NodeName])) == Some(Defaults)
  {
    Dom.TaggedDivRecognised(NodeName, RenderAttrs(a));
  }

  /** The editor commands the input rule issues. */
  datatype RuleCommand =
    | DeleteRange(from: int, to: int)
    | InsertAt(pos: int, node: Editor.Node)
    | SetTextSelection(pos: int)

  /** A callout holding one empty paragraph. */
  const EmptyCallout: Editor.Node := Editor.Branch(NodeName, "", [Editor.Branch("paragraph", "", [])])

  /** The input rule on the text before the cursor and the matched range: nothing unless the
      pattern matches; then delete the range, insert an empty callout where it began, and put
      the cursor one position after that point. */
  function InputRule(text: string, from: int, to: int): (r: seq<RuleCommand>)
    ensures Trigger(text).None? ==> r == []
    ensures Trigger(text).Some? ==> |r| == 3 && r[0] == DeleteRange(from, to)
    ensures Trigger(text).Some? ==> r[1].InsertAt? && r[1].pos == from && Editor.ChildCount(r[1].node) == 1
    ensures Trigger(text).Some? ==> r[2] == SetTextSelection(from + 1)
  {
    if Trigger(text).Some? then [DeleteRange(from, to), InsertAt(from, EmptyCallout), SetTextSelection(from + 1)]
    else []
  }

  /** The inserted callout holds a single empty paragraph, four positions in all. */
  lemma InsertedCalloutShape()
    ensures Editor.Size(EmptyCallout) == 4
    ensures Editor.TypeName(EmptyCallout) == NodeName
  {
    assert [Editor.Branch("paragraph", "", [])][..0] == [];
  }
}
