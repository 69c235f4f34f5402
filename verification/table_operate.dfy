/** The table's grip and add-row widgets: their class names and styles, the camelCase to
    kebab-case conversion of style overrides, and the add-row button's hover, tooltip and
    clean-up behaviour as a small event-driven state machine. */
module TableOperate {
  import opened Js

  const SelectedColor: string := "#3b82f6"
  const IdleColor: string := "#f5f5f5"
  const DefaultButtonText: string := "添加行"
  const DefaultButtonClass: string := "grip-pseudo rounded-full size-4 absolute bg-green-100"

  predicate IsLowerAscii(c: char) {
    'a' <= c <= 'z'
  }

  function UpperChar(c: char): (r: char)
    ensures IsLowerAscii(c) ==> IsUpperAscii(r) && LowerChar(r) == c
  {
    if IsLowerAscii(c) then (c as int - 32) as char else c
  }

  function UpperCount(s: string): nat {
    if |s| == 0 then 0 else (if IsUpperAscii(s[0]) then 1 else 0) + UpperCount(s[1..])
  }

  /** `key.replace(/[A-Z]/g, m => "-" + m.toLowerCase())` */
  function Kebab(s: string): (r: string)
    ensures |r| == |s| + UpperCount(s)
    ensures forall i :: 0 <= i < |r| ==> !IsUpperAscii(r[i])
  {
    if |s| == 0 then ""
    else (if IsUpperAscii(s[0]) then ['-', LowerChar(s[0])] else [s[0]]) + Kebab(s[1..])
  }

  /** The reverse naming rule of the DOM's style object: each `-x` with a lower-case `x`
      becomes `X`. */
  function Camel(s: string): string {
    if |s| == 0 then ""
    else if |s| >= 2 && s[0] == '-' && IsLowerAscii(s[1]) then [UpperChar(s[1])] + Camel(s[2..])
    else [s[0]] + Camel(s[1..])
  }

  /** A style key without hyphens is recovered from its kebab-case form, so distinct keys
      give distinct CSS properties. */
  lemma {:induction false} KebabRoundTrip(s: string)
    requires forall i :: 0 <= i < |s| ==> s[i] != '-'
    ensures Camel(Kebab(s)) == s
  {
    if |s| > 0 {
      var rest := Kebab(s[1..]);
      KebabRoundTrip(s[1..]);
      if IsUpperAscii(s[0]) {
        var k := ['-', LowerChar(s[0])] + rest;
        assert Kebab(s) == k;
        assert k[2..] == rest;
        assert UpperChar(LowerChar(s[0])) == s[0];
      } else {
        var k := [s[0]] + rest;
        assert Kebab(s) == k;
        assert k[1..] == rest;
      }
      assert s == [s[0]] + s[1..];
    }
  }

  /** The conversion works character by character, so it distributes over concatenation. */
  lemma {:induction false} KebabAppend(a: string, b: string)
    ensures Kebab(a + b) == Kebab(a) + Kebab(b)
    decreases |a|
  {
    if |a| > 0 {
      assert (a + b)[0] == a[0];
      assert (a + b)[1..] == a[1..] + b;
      KebabAppend(a[1..], b);
    } else {
      assert a + b == b;
    }
  }

  /** A key with no upper-case letter is already in kebab case. */
  lemma {:induction false} KebabKeepsLowerCase(s: string)
    requires forall i :: 0 <= i < |s| ==> !IsUpperAscii(s[i])
    ensures Kebab(s) == s
    decreases |s|
  {
    if |s| > 0 {
      KebabKeepsLowerCase(s[1..]);
      assert s == [s[0]] + s[1..];
    }
  }

  lemma KebabExample()
    ensures Kebab("fontSize") == "font-size"
    ensures Camel("font-size") == "fontSize"
  {
    KebabRoundTrip("fontSize");
  }

  /** One declaration of the add-row button's override CSS. */
  function Declaration(entry: (string, string)): (r: string)
    ensures StartsWith(r, Kebab(entry.0))
    ensures r[|Kebab(entry.0)|..] == ": " + entry.1
  {
    Kebab(entry.0) + ": " + entry.1
  }

  function Declarations(entries: seq<(string, string)>): (r: seq<string>)
    ensures |r| == |entries|
    ensures forall i :: 0 <= i < |entries| ==> r[i] == Declaration(entries[i])
  {
    if |entries| == 0 then [] else [Declaration(entries[0])] + Declarations(entries[1..])
  }

  /** The override CSS: the declarations of `Object.entries(style)`, joined by "; ". */
  function OverrideCss(entries: seq<(string, string)>): (r: string)
    ensures entries == [] ==> r == ""
    ensures |entries| == 1 ==> r == Declaration(entries[0])
    ensures |entries| > 1 ==> r == Declaration(entries[0]) + "; " + OverrideCss(entries[1..])
  {
    Join(Declarations(entries), "; ")
  }

  // ---- grips ----

  datatype GripKind = ColumnGrip | RowGrip

  /** The style properties a grip is created with, before overrides. */
  function BaseGripStyle(kind: GripKind, selected: bool): (r: map<string, string>)
    ensures "background-color" in r && r["background-color"] == (if selected then SelectedColor else IdleColor)
    ensures kind.ColumnGrip? ==> "top" in r && r["top"] == "-12px" && "height" in r && r["height"] == "12px"
    ensures kind.RowGrip? ==> "left" in r && r["left"] == "-12px" && "width" in r && r["width"] == "12px"
  {
    var color := if selected then SelectedColor else IdleColor;
    match kind
    case ColumnGrip =>
      map["position" := "absolute", "top" := "-12px", "left" := "0", "right" := "-1px",
          "height" := "12px", "background-color" := color,
          "border-right" := "1px solid oklch(0.922 0 0)", "pointer-events" := "auto",
          "cursor" := "pointer", "text-decoration" := "none"]
    case RowGrip =>
      map["position" := "absolute", "left" := "-12px", "top" := "0", "width" := "12px",
          "height" := "100%", "background-color" := color,
          "border-bottom" := "1px solid oklch(0.922 0 0)", "cursor" := "pointer",
          "text-decoration" := "none"]
  }

  /** The value the last override for CSS property `p` sets, if any. */
  function LastOverride(entries: seq<(string, string)>, p: string): Option<string> {
    if |entries| == 0 then None
    else if Kebab(entries[|entries| - 1].0) == p then Some(entries[|entries| - 1].1)
    else LastOverride(entries[..|entries| - 1], p)
  }

  /** The value property `p` ends up with: the last override of it, else its base value. */
  function Effective(base: map<string, string>, entries: seq<(string, string)>, p: string): Option<string> {
    if LastOverride(entries, p).Some? then LastOverride(entries, p)
    else if p in base then Some(base[p])
    else None
  }

  /** The `forEach` over the overrides: each `style[key] = value` sets the kebab-case property,
      so a later override of the same property wins and untouched properties keep their base value. */
  method ApplyOverrides(base: map<string, string>, entries: seq<(string, string)>) returns (style: map<string, string>)
    ensures forall p :: p in style <==> Effective(base, entries, p).Some?
    ensures forall p :: p in style ==> style[p] == Effective(base, entries, p).value
  {
    style := base;
    var i := 0;
    while i < |entries|
      invariant 0 <= i <= |entries|
      invariant forall p :: p in style <==> Effective(base, entries[..i], p).Some?
      invariant forall p :: p in style ==> style[p] == Effective(base, entries[..i], p).value
    {
      assert entries[..i + 1][..i] == entries[..i];
      style := style[Kebab(entries[i].0) := entries[i].1];
      i := i + 1;
    }
    assert entries[..i] == entries;
  }

  /** A created grip: its class, its style after overrides. */
  datatype Grip = Grip(className: string, style: map<string, string>)

  /** `createGrip` (column) and `createRowGrip`: the column grip adds the class "grid". */
  method CreateGrip(kind: GripKind, className: string, selected: bool, overrides: seq<(string, string)>) returns (g: Grip)
    ensures g.className == (if kind.ColumnGrip? then className + " grid" else className)
    ensures LastOverride(overrides, "background-color").None? ==>
      "background-color" in g.style && g.style["background-color"] == (if selected then SelectedColor else IdleColor)
    ensures forall p :: p in BaseGripStyle(kind, selected) ==> p in g.style
    ensures forall p :: LastOverride(overrides, p).Some? ==> p in g.style && g.style[p] == LastOverride(overrides, p).value
  {
    var style := ApplyOverrides(BaseGripStyle(kind, selected), overrides);
    g := Grip(if kind.ColumnGrip? then className + " grid" else className, style);
  }

  datatype MouseDownEffect = PreventDefault | StopImmediatePropagation | StopPropagation | CallHandler | LogRow(index: int)

  /** A grip's mousedown listener: the event is stopped before the selection handler runs. */
  function GripMouseDown(): (r: seq<MouseDownEffect>)
    ensures |r| > 0 && r[|r| - 1] == CallHandler && CallHandler !in r[..|r| - 1]
    ensures PreventDefault in r[..|r| - 1] && StopImmediatePropagation in r[..|r| - 1]
  {
    var r := [PreventDefault, StopImmediatePropagation, CallHandler];
    assert r[..2] == [PreventDefault, StopImmediatePropagation];
    r
  }

  // ---- add-row button ----

  /** `CreateAddRowButtonOptions`; `None` is an omitted (undefined) option. */
  datatype ButtonOptions = ButtonOptions(
    text: Option<string>,
    className: Option<string>,
    style: Option<seq<(string, string)>>,
    hasOnClick: bool,
    rowIndex: Option<int>,
    hasEditor: bool)

  /** The created button: its class, the override CSS appended to its fixed declarations, and
      its tooltip's text. */
  datatype Button = Button(className: string, overrideCss: string, tooltipText: string)

  /** `createAddRowButton`'s element: destructuring defaults apply to omitted options only. */
  function CreateAddRowButton(o: ButtonOptions): (b: Button)
    ensures b.tooltipText == (if o.text.Some? then o.text.value else DefaultButtonText)
    ensures b.className == (if o.className.Some? then o.className.value else DefaultButtonClass)
    ensures o.style.None? ==> b.overrideCss == ""
    ensures o.style.Some? ==> b.overrideCss == OverrideCss(o.style.value)
  {
    Button(o.className.GetOr(DefaultButtonClass), OverrideCss(o.style.GetOr([])), o.text.GetOr(DefaultButtonText))
  }

  /** What the button's listeners and its clean-up change: whether it is still mounted, its
      scale, the tooltip's opacity and whether it is attached to the page, whether an animation
      frame is pending, whether the listeners are installed, and the click calls and logs made. */
  datatype ButtonState = ButtonState(
    mounted: bool,
    scale: nat,
    tooltipOpacity: string,
    tooltipAttached: bool,
    framePending: bool,
    listening: bool,
    clicks: nat,
    logged: seq<int>)

  datatype ButtonEvent = MouseOver | FrameFires | MouseOut | MouseDown | Cleanup

  /** The state just after creation: the tooltip is appended to the page and hidden. */
  const Created: ButtonState := ButtonState(true, 1, "0", true, false, true, 0, [])

  /** The mousedown listener: the click callback when there is one, and a log line when a row
      index and an editor are given. */
  function Press(o: ButtonOptions, s: ButtonState): (t: ButtonState)
    ensures t.clicks == s.clicks + (if o.hasOnClick then 1 else 0)
    ensures t.logged == s.logged + (if o.rowIndex.Some? && o.hasEditor then [o.rowIndex.value] else [])
    ensures t.(clicks := s.clicks, logged := s.logged) == s
  {
    s.(clicks := s.clicks + (if o.hasOnClick then 1 else 0),
       logged := s.logged + (if o.rowIndex.Some? && o.hasEditor then [o.rowIndex.value] else []))
  }

  /** One event as the code is written. Mouse-over cancels any pending frame and requests a new
      one; the frame shows the tooltip only while mounted; mouse-out shrinks the button and hides
      the tooltip but leaves a pending frame in place; clean-up unmounts, cancels the frame,
      removes the listeners and detaches the tooltip. */
  function Step(o: ButtonOptions, s: ButtonState, e: ButtonEvent): (t: ButtonState)
    ensures e.Cleanup? ==> !t.mounted && !t.framePending && !t.listening && !t.tooltipAttached
    ensures !s.listening && !e.FrameFires? && !e.Cleanup? ==> t == s
  {
    match e
    case MouseOver => if s.listening then s.(scale := 5, framePending := true) else s
    case FrameFires =>
      if !s.framePending then s
      else if s.mounted then s.(framePending := false, tooltipOpacity := "1")
      else s.(framePending := false)
    case MouseOut => if s.listening then s.(scale := 1, tooltipOpacity := "0") else s
    case MouseDown => if s.listening then Press(o, s) else s
    case Cleanup => s.(mounted := false, framePending := false, listening := false, tooltipAttached := false)
  }

  /** A sequence of events. Listeners, the mount and the tooltip, once gone, never come back. */
  function Run(o: ButtonOptions, s: ButtonState, es: seq<ButtonEvent>): (r: ButtonState)
    ensures !s.listening ==> !r.listening
    ensures !s.mounted ==> !r.mounted
    ensures !s.tooltipAttached ==> !r.tooltipAttached
    decreases |es|
  {
    if |es| == 0 then s else Run(o, Step(o, s, es[0]), es[1..])
  }

  predicate Disposed(s: ButtonState) {
    !s.mounted && !s.framePending && !s.listening && !s.tooltipAttached
  }

  /** After clean-up nothing any later event does changes the button or calls back. */
  lemma {:induction false} CleanupIsFinal(o: ButtonOptions, s: ButtonState, es: seq<ButtonEvent>)
    requires Disposed(s)
    ensures Run(o, s, es) == s
    decreases |es|
  {
    if |es| > 0 {
      var t := Step(o, s, es[0]);
      assert t == s;
      CleanupIsFinal(o, s, es[1..]);
    }
  }

  /** Clean-up followed by any events leaves the tooltip detached and the callbacks uncalled. */
  lemma CleanupThenAnything(o: ButtonOptions, s: ButtonState, es: seq<ButtonEvent>)
    ensures var t := Run(o, s, [Cleanup] + es);
      Disposed(t) && t.clicks == s.clicks && t.logged == s.logged
  {
    var c := Step(o, s, Cleanup);
    assert ([Cleanup] + es)[1..] == es;
    CleanupIsFinal(o, c, es);
  }

  /** As written, a pointer that leaves before the pending frame runs still gets the tooltip
      shown: over, out, frame ends with the button at rest and the tooltip visible. */
  lemma TooltipShownAfterLeaving(o: ButtonOptions)
    ensures var t := Run(o, Created, [MouseOver, MouseOut, FrameFires]);
      t.scale == 1 && t.tooltipOpacity == "1"
  {
  }

  /** The evidently intended mouse-out, which also cancels the pending frame. */
  function StepCorrected(o: ButtonOptions, s: ButtonState, e: ButtonEvent): (t: ButtonState)
    ensures e.MouseOut? && s.listening ==> !t.framePending && t.tooltipOpacity == "0"
    ensures !e.MouseOut? ==> t == Step(o, s, e)
  {
    match e
    case MouseOut => if s.listening then s.(scale := 1, tooltipOpacity := "0", framePending := false) else s
    case _ => Step(o, s, e)
  }

  function RunCorrected(o: ButtonOptions, s: ButtonState, es: seq<ButtonEvent>): ButtonState
    decreases |es|
  {
    if |es| == 0 then s else RunCorrected(o, StepCorrected(o, s, es[0]), es[1..])
  }

  /** With the correction the tooltip stays hidden from a mouse-out until the next mouse-over,
      whatever frames, presses or further mouse-outs come between. */
  lemma {:induction false} HiddenUntilNextOver(o: ButtonOptions, s: ButtonState, es: seq<ButtonEvent>)
    requires !s.framePending && s.tooltipOpacity == "0"
    requires forall i :: 0 <= i < |es| ==> es[i] != MouseOver
    ensures RunCorrected(o, s, es).tooltipOpacity == "0"
    decreases |es|
  {
    if |es| > 0 {
      var t := StepCorrected(o, s, es[0]);
      assert !t.framePending && t.tooltipOpacity == "0";
      HiddenUntilNextOver(o, t, es[1..]);
    }
  }

  lemma CorrectedLeaveKeepsTooltipHidden(o: ButtonOptions, es: seq<ButtonEvent>)
    requires forall i :: 0 <= i < |es| ==> es[i] != MouseOver
    ensures RunCorrected(o, Created, [MouseOver, MouseOut] + es).tooltipOpacity == "0"
  {
    var s1 := StepCorrected(o, Created, MouseOver);
    var s2 := StepCorrected(o, s1, MouseOut);
    assert ([MouseOver, MouseOut] + es)[1..] == [MouseOut] + es;
    assert ([MouseOut] + es)[1..] == es;
    HiddenUntilNextOver(o, s2, es);
  }
}
