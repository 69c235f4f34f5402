/** The AI block node: its five attributes with their HTML serialisation, the insert command
    with its defaults, and the attribute update command. */
module AiNode {
  import opened Js
  import opened AiTypes
  import Dom
  import AiApi

  const NodeName: string := "ai"

  /** The node's attributes. `state` is kept as the text it was parsed from, since parsing does
      not check it against the states. */
  datatype AiAttrs = AiAttrs(prompt: string, state: string, content: string, model: string, error: string)

  /** The attribute defaults. */
  const Defaults: AiAttrs := AiAttrs("", StateName(Input), "", AiApi.DefaultModel, "")

  /** The rendered HTML attributes: `data-state` and `data-model` always, `data-prompt`,
      `data-content` and `data-error` only when non-empty. */
  function RenderAttrs(a: AiAttrs): (m: map<string, string>)
    ensures m.Keys == {"data-state", "data-model"}
      + (if a.prompt != "" then {"data-prompt"} else {})
      + (if a.content != "" then {"data-content"} else {})
      + (if a.error != "" then {"data-error"} else {})
    ensures m["data-state"] == a.state && m["data-model"] == a.model
    ensures "data-prompt" in m ==> m["data-prompt"] == a.prompt
    ensures "data-content" in m ==> m["data-content"] == a.content
    ensures "data-error" in m ==> m["data-error"] == a.error
  {
    Dom.Optional("data-prompt", if a.prompt != "" then Some(a.prompt) else None)
    + map["data-state" := a.state]
    + Dom.Optional("data-content", if a.content != "" then Some(a.content) else None)
    + map["data-model" := a.model]
    + Dom.Optional("data-error", if a.error != "" then Some(a.error) else None)
  }

  /** Each attribute is read back with `||`, so a missing or empty value gives the default. */
  function ParseAttrs(e: Dom.Element): AiAttrs {
    AiAttrs(
      OrElse(Dom.GetAttribute(e, "data-prompt"), Defaults.prompt),
      OrElse(Dom.GetAttribute(e, "data-state"), Defaults.state),
      OrElse(Dom.GetAttribute(e, "data-content"), Defaults.content),
      OrElse(Dom.GetAttribute(e, "data-model"), Defaults.model),
      OrElse(Dom.GetAttribute(e, "data-error"), Defaults.error))
  }

  /** `renderHTML`: a `div` tagged `data-type="ai"`. */
  function Render(a: AiAttrs): Dom.Element {
    Dom.TaggedDiv(NodeName, RenderAttrs(a))
  }

  /** `parseHTML`: only `div[data-type="ai"]` is read as an AI node. */
  function Parse(e: Dom.Element): (r: Option<AiAttrs>)
    ensures r.Some? <==> Dom.IsTaggedDiv(e, NodeName)
    ensures r.Some? ==> r.value.model != "" && r.value.state != ""
    ensures r.Some? && Dom.GetAttribute(e, "data-state") == Some("") ==> r.value.state == Defaults.state
  {
    if Dom.IsTaggedDiv(e, NodeName) then Some(ParseAttrs(e)) else None
  }

  /** Rendering and parsing back gives the same node, except that an empty state or model
      comes back as its default; the optional attributes survive whatever their text. */
  lemma RenderParseRoundTrip(a: AiAttrs)
    ensures Parse(Render(a)).Some?
    ensures var b := Parse(Render(a)).value;
      && b.prompt == a.prompt && b.content == a.content && b.error == a.error
      && b.state == (if a.state == "" then StateName(Input) else a.state)
      && b.model == (if a.model == "" then AiApi.DefaultModel else a.model)
    ensures a.state != "" && a.model != "" ==> Parse(Render(a)) == Some(a)
  {
    Dom.TaggedDivRecognised(NodeName, RenderAttrs(a));
  }

  /** A state outside the four names is kept as it is. */
  lemma UnknownStateKept(s: string)
    requires s != ""
    ensures Parse(Dom.Element("div", map["data-type" := NodeName, "data-state" := s])).value.state == s
  {
  }

  /** What the insert command is given; absent options are `None`. */
  datatype SetOptions = SetOptions(prompt: Option<string>, state: Option<AIState>, content: Option<string>)

  /** `setAI`: the inserted node takes prompt, state and content with `||` fallbacks, always the
      default model whatever the caller wanted, and no error. */
  function SetAI(o: SetOptions): (a: AiAttrs)
    ensures a.prompt == (if o.prompt.Some? then o.prompt.value else "")
    ensures a.content == (if o.content.Some? then o.content.value else "")
    ensures o.state.Some? ==> a.state == StateName(o.state.value)
    ensures o.state.None? ==> a.state == StateName(Input)
    ensures a.model == AiApi.DefaultModel && a.error == ""
  {
    AiAttrs(OrElse(o.prompt, ""), StateName(o.state.GetOr(Input)), OrElse(o.content, ""), AiApi.DefaultModel, "")
  }

  /** Every inserted node survives serialisation unchanged. */
  lemma InsertedNodeRoundTrips(o: SetOptions)
    ensures Parse(Render(SetAI(o))) == Some(SetAI(o))
  {
    RenderParseRoundTrip(SetAI(o));
  }

  /** A partial attribute update; absent keys are `None`. */
  datatype Patch = Patch(prompt: Option<string>, state: Option<string>, content: Option<string>,
                         model: Option<string>, error: Option<string>)

  const EmptyPatch: Patch := Patch(None, None, None, None, None)

  /** `updateAI`: the supplied attributes replace the node's, the rest stay. */
  function UpdateAI(a: AiAttrs, p: Patch): (r: AiAttrs)
    ensures p.prompt.Some? ==> r.prompt == p.prompt.value
    ensures p.prompt.None? ==> r.prompt == a.prompt
    ensures p.state.Some? ==> r.state == p.state.value
    ensures p.state.None? ==> r.state == a.state
    ensures p.content.Some? ==> r.content == p.content.value
    ensures p.content.None? ==> r.content == a.content
    ensures p.model.Some? ==> r.model == p.model.value
    ensures p.model.None? ==> r.model == a.model
    ensures p.error.Some? ==> r.error == p.error.value
    ensures p.error.None? ==> r.error == a.error
  {
    AiAttrs(p.prompt.GetOr(a.prompt), p.state.GetOr(a.state), p.content.GetOr(a.content),
            p.model.GetOr(a.model), p.error.GetOr(a.error))
  }

  /** An empty update changes nothing, and applying the same update twice is applying it once. */
  lemma UpdateLaws(a: AiAttrs, p: Patch)
    ensures UpdateAI(a, EmptyPatch) == a
    ensures UpdateAI(UpdateAI(a, p), p) == UpdateAI(a, p)
  {
  }

  /** The hook's reports map onto updates: a state change sets only `state`. */
  lemma StateUpdateTouchesOnlyState(a: AiAttrs, s: AIState)
    ensures UpdateAI(a, EmptyPatch.(state := Some(StateName(s)))) == a.(state := StateName(s))
  {
  }
}
