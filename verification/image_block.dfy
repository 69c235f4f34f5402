/** The image block node: its attributes with their HTML serialisation, and the insert, align and
    width commands. */
module ImageBlock {
  import opened Js
  import Dom

  const NodeName: string := "imageBlock"

  /** The node's attributes; `alt` is `None` while undefined. */
  datatype ImageAttrs = ImageAttrs(src: string, width: string, align: string, alt: Option<string>)

  const Defaults: ImageAttrs := ImageAttrs("", "100%", "center", None)

  datatype Align = Left | Center | Right

  function AlignName(a: Align): string {
    match a
    case Left => "left"
    case Center => "center"
    case Right => "right"
  }

  /** The rendered HTML attributes; an undefined `alt` is not written. */
  function RenderAttrs(a: ImageAttrs): (m: map<string, string>)
    ensures m.Keys == {"src", "data-width", "data-align"} + (if a.alt.Some? then {"alt"} else {})
    ensures m["src"] == a.src && m["data-width"] == a.width && m["data-align"] == a.align
    ensures a.alt.Some? ==> m["alt"] == a.alt.value
  {
    map["src" := a.src, "data-width" := a.width, "data-align" := a.align] + Dom.Optional("alt", a.alt)
  }

  /** Each attribute is read from its HTML attribute; a missing one (`null`) keeps the default. */
  function ParseAttrs(e: Dom.Element): ImageAttrs {
    ImageAttrs(
      Dom.GetAttribute(e, "src").GetOr(Defaults.src),
      Dom.GetAttribute(e, "data-width").GetOr(Defaults.width),
      Dom.GetAttribute(e, "data-align").GetOr(Defaults.align),
      if Dom.GetAttribute(e, "alt").Some? then Dom.GetAttribute(e, "alt") else Defaults.alt)
  }

  /** `renderHTML`: an `img` element. */
  function Render(a: ImageAttrs): Dom.Element {
    Dom.Element("img", RenderAttrs(a))
  }

  /** Every attribute value survives rendering and parsing back, empty strings included. */
  lemma RenderParseRoundTrip(a: ImageAttrs)
    ensures ParseAttrs(Render(a)) == a
  {
  }

  /** An element with none of the attributes parses to the defaults. */
  lemma BareElementGivesDefaults(tag: string)
    ensures ParseAttrs(Dom.Element(tag, map[])) == Defaults
  {
  }

  /** Where an inserted block goes: the cursor, a position, or a range it replaces. */
  datatype Place = AtCursor | AtPos(pos: int) | OverRange(from: int, to: int)

  datatype Insertion = Insertion(place: Place, attrs: ImageAttrs)

  /** `setImageBlock` and `setImageBlockAt`: a node with only `src` given, the rest default. */
  function SetImageBlock(src: string, place: Place): (r: Insertion)
    ensures r.place == place && r.attrs.src == src
    ensures r.attrs.width == "100%" && r.attrs.align == "center" && r.attrs.alt.None?
  {
    Insertion(place, Defaults.(src := src))
  }

  /** `setImageBlockAlign` */
  function SetAlign(a: ImageAttrs, align: Align): (r: ImageAttrs)
    ensures r.align == AlignName(align)
    ensures r.src == a.src && r.width == a.width && r.alt == a.alt
  {
    a.(align := AlignName(align))
  }

  /** `Math.max(0, Math.min(100, w))` */
  function ClampPercent(w: int): (r: nat)
    ensures r <= 100
    ensures 0 <= w <= 100 ==> r == w
    ensures w < 0 ==> r == 0
    ensures w > 100 ==> r == 100
  {
    if w < 0 then 0 else if w > 100 then 100 else w
  }

  lemma ClampIdempotent(w: int)
    ensures ClampPercent(ClampPercent(w)) == ClampPercent(w)
  {
  }

  /** The stored width text for a requested width. */
  function WidthText(w: int): string {
    NatToString(ClampPercent(w)) + "%"
  }

  /** `setImageBlockWidth` */
  function SetWidth(a: ImageAttrs, w: int): (r: ImageAttrs)
    ensures r.src == a.src && r.align == a.align && r.alt == a.alt
  {
    a.(width := WidthText(w))
  }

  /** Reads a stored width of the form "<digits>%" back as a number. */
  function PercentValue(s: string): Option<nat> {
    if |s| >= 2 && s[|s| - 1] == '%' && AllDigits(s[..|s| - 1]) then Some(DigitsValue(s[..|s| - 1])) else None
  }

  /** The stored width is always a percentage between 0 and 100 that reads back as the clamped
      request, and it survives serialisation. */
  lemma WidthReadsBack(a: ImageAttrs, w: int)
    ensures PercentValue(SetWidth(a, w).width) == Some(ClampPercent(w))
    ensures PercentValue(ParseAttrs(Render(SetWidth(a, w))).width) == Some(ClampPercent(w))
  {
    var digits := NatToString(ClampPercent(w));
    NatToStringRoundTrip(ClampPercent(w));
    assert (digits + "%")[..|digits + "%"| - 1] == digits;
    RenderParseRoundTrip(SetWidth(a, w));
  }

  /** Setting a width twice leaves the second, and re-applying the stored percentage changes nothing. */
  lemma WidthIdempotent(a: ImageAttrs, w: int)
    ensures SetWidth(SetWidth(a, w), ClampPercent(w)) == SetWidth(a, w)
  {
  }
}
