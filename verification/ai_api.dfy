/** The states an AI block moves through, with their serialized names. */
module AiTypes {
  datatype AIState = Input | Loading | Display | Error

  function StateName(s: AIState): string {
    match s
    case Input => "input"
    case Loading => "loading"
    case Display => "display"
    case Error => "error"
  }
}

/** The AI generation endpoint: request parameters with their defaults, decoding of one
    server-sent data line, and the routing of stream errors to the caller's handler. */
module AiApi {
  import opened Js
  import ErrorDispatch

  const GeneratePath: string := "/ai/generate"
  const DefaultModel: string := "gpt-3.5-turbo"
  const DefaultTemperature: real := 0.7
  const DefaultMaxTokens: int := 1000

  /** What a caller asks for; absent options are `None`. */
  datatype GenerateParams = GenerateParams(prompt: string, model: Option<string>, temperature: Option<real>, maxTokens: Option<int>)

  /** The parameters sent to the endpoint. */
  datatype GenerateBody = GenerateBody(prompt: string, model: string, temperature: real, maxTokens: int, stream: bool)

  /** `model || default` (an empty model falls back) but `temperature ?? 0.7` and
      `maxTokens ?? 1000` (an explicit zero is kept). */
  function BuildBody(p: GenerateParams, stream: bool): (b: GenerateBody)
    ensures b.prompt == p.prompt && b.stream == stream
    ensures (p.model.Some? && p.model.value != "") ==> b.model == p.model.value
    ensures (p.model.None? || p.model.value == "") ==> b.model == DefaultModel
    ensures p.temperature.Some? ==> b.temperature == p.temperature.value
    ensures p.temperature.None? ==> b.temperature == DefaultTemperature
    ensures p.maxTokens.Some? ==> b.maxTokens == p.maxTokens.value
    ensures p.maxTokens.None? ==> b.maxTokens == DefaultMaxTokens
  {
    GenerateBody(p.prompt, OrElse(p.model, DefaultModel), p.temperature.GetOr(DefaultTemperature),
                 p.maxTokens.GetOr(DefaultMaxTokens), stream)
  }

  /** The streaming and the one-shot request send the same parameters except for `stream`. */
  lemma StreamingDiffersOnlyInFlag(p: GenerateParams)
    ensures BuildBody(p, true).(stream := false) == BuildBody(p, false)
  {
  }

  /** An empty model name falls back, an explicit zero temperature or token budget does not. */
  lemma FalsyDefaults(prompt: string)
    ensures var b := BuildBody(GenerateParams(prompt, Some(""), Some(0.0), Some(0)), true);
      b.model == DefaultModel && b.temperature == 0.0 && b.maxTokens == 0
  {
  }

  /** The chunk callback: `data` is one data line of the stream, `parsed` is `JSON.parse(data)`
      (`None` when it throws). Yields the text handed to `onChunk`, if any. */
  function DecodeChunk(data: string, parsed: Option<Value>): (r: Option<string>)
    // An object with a non-empty string `content` contributes exactly that string.
    ensures (parsed.Some? && parsed.value.Obj? && Lookup(parsed.value.fields, "content").Str?
             && Lookup(parsed.value.fields, "content").s != "") ==> r == Some(Lookup(parsed.value.fields, "content").s)
    // A JSON string contributes itself.
    ensures parsed.Some? && parsed.value.Str? ==> r == Some(parsed.value.s)
    // Every other parsed value contributes nothing.
    ensures (parsed.Some? && parsed.value != Null && parsed.value != Undefined && !parsed.value.Str?
             && !(parsed.value.Obj? && Lookup(parsed.value.fields, "content").Str?
                  && Lookup(parsed.value.fields, "content").s != "")) ==> r.None?
    // Text that is not JSON (and `null`, whose `content` cannot be read) is passed on verbatim unless blank.
    ensures parsed.None? || parsed.value == Null || parsed.value == Undefined ==>
      (r.Some? <==> !IsBlank(data)) && (r.Some? ==> r.value == data)
  {
    var verbatim := if Trim(data) != "" then Some(data) else None;
    TrimEmptyIffBlank(data);
    match parsed
    case None => verbatim
    case Some(v) =>
      match Prop(v, "content")
      case None => verbatim
      case Some(content) =>
        if Truthy(content) && content.Str? then Some(content.s)
        else if v.Str? then Some(v.s)
        else None
  }

  /** The data line `null` parses, then fails on `.content`, and so reaches the caller as the text "null". */
  lemma NullChunkPassedVerbatim()
    ensures DecodeChunk("null", Some(Null)) == Some("null")
  {
    assert !IsWhitespace("null"[0]);
  }

  /** A line of only whitespace that is not JSON is dropped. */
  lemma BlankChunkDropped(data: string)
    requires IsBlank(data)
    ensures DecodeChunk(data, None) == None
  {
  }

  /** Where a stream error goes. */
  datatype StreamSink = Callback(hook: ErrorDispatch.Hook) | ConsoleLog | Dropped

  /** Exactly one destination: the bare function, else `onError`, else `default`;
      the console only when there is no handler at all. */
  function StreamErrorSink(h: ErrorDispatch.ErrorHandler): (r: StreamSink)
    ensures h.NoHandler? <==> r == ConsoleLog
    ensures h.BareFunction? ==> r == Callback(ErrorDispatch.BareHook)
    ensures h.HookObject? && h.hooks.onError ==> r == Callback(ErrorDispatch.OnErrorHook)
    ensures h.HookObject? && !h.hooks.onError && h.hooks.default ==> r == Callback(ErrorDispatch.DefaultHook)
    ensures r == Dropped <==> h.HookObject? && !h.hooks.onError && !h.hooks.default
  {
    match h
    case NoHandler => ConsoleLog
    case BareFunction => Callback(ErrorDispatch.BareHook)
    case HookObject(hs) =>
      if hs.onError then Callback(ErrorDispatch.OnErrorHook)
      else if hs.default then Callback(ErrorDispatch.DefaultHook)
      else Dropped
  }

  /** The stream prefers `onError` over `default`, the reverse of the request dispatcher's default slot. */
  lemma StreamPrefersOnError(hs: ErrorDispatch.Hooks)
    requires hs.onError && hs.default
    ensures StreamErrorSink(ErrorDispatch.HookObject(hs)) == Callback(ErrorDispatch.OnErrorHook)
    ensures ErrorDispatch.EffectiveDefault(ErrorDispatch.HookObject(hs)) == Some(ErrorDispatch.DefaultHook)
  {
  }
}
