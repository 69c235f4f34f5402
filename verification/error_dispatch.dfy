/** The error dispatcher (`handleRequestError`) and the public call wrapper (`handleRequest`):
    which caller hooks run, in which order, and the `{data, error, status}` result that every
    public verb resolves to. */
module ErrorDispatch {
  import opened Js
  import opened Http

  /** Which optional hooks a structured handler object supplies. */
  datatype Hooks = Hooks(
    byStatus: set<int>,
    onError: bool,
    default: bool,
    unauthorized: bool,
    forbidden: bool,
    serverError: bool,
    networkError: bool)

  /** The `errorHandler` a caller passes: nothing, a bare function, or a hook object. */
  datatype ErrorHandler = NoHandler | BareFunction | HookObject(hooks: Hooks)

  /** One invocation of a caller-supplied callback. */
  datatype Hook =
    | StatusHook(status: int)
    | UnauthorizedHook
    | ForbiddenHook
    | ServerErrorHook
    | NetworkErrorHook
    | DefaultHook
    | OnErrorHook
    | BareHook

  const GenericFallback: string := "请求失败，请稍后重试"
  const NetworkMessage: string := "网络连接错误，请检查您的网络"
  const CancelledMessage: string := "请求已取消"

  /** The callback `handleRequest` installs as `default`: the bare function, else `default`, else `onError`. */
  function EffectiveDefault(h: ErrorHandler): (r: Option<Hook>)
    ensures h.BareFunction? ==> r == Some(BareHook)
    ensures h.HookObject? && h.hooks.default ==> r == Some(DefaultHook)
    ensures h.HookObject? && !h.hooks.default && h.hooks.onError ==> r == Some(OnErrorHook)
    ensures r.None? <==> h.NoHandler? || (h.HookObject? && !h.hooks.default && !h.hooks.onError)
  {
    match h
    case NoHandler => None
    case BareFunction => Some(BareHook)
    case HookObject(hs) =>
      if hs.default then Some(DefaultHook) else if hs.onError then Some(OnErrorHook) else None
  }

  /** The hooks of the object `handleRequest` builds (a bare function contributes none but `default`). */
  function HooksOf(h: ErrorHandler): Hooks {
    match h
    case HookObject(hs) => hs
    case _ => Hooks({}, false, false, false, false, false, false)
  }

  function AsList(o: Option<Hook>): (r: seq<Hook>)
    ensures o.None? ==> r == []
    ensures o.Some? ==> r == [o.value]
  {
    if o.Some? then [o.value] else []
  }

  predicate IsNetworkTypeError(e: Failure) {
    e.TypeErr? && (Contains(e.message, "Failed to fetch") || Contains(e.message, "Network request failed"))
  }

  /** The hook a status-bearing `RequestError` selects, by precedence. */
  function StatusDispatch(status: int, h: ErrorHandler): (r: seq<Hook>)
    ensures |r| <= 1
    ensures status in HooksOf(h).byStatus ==> r == [StatusHook(status)]
    ensures status !in HooksOf(h).byStatus && status == 401 && HooksOf(h).unauthorized ==> r == [UnauthorizedHook]
    ensures status !in HooksOf(h).byStatus && status == 403 && HooksOf(h).forbidden ==> r == [ForbiddenHook]
    ensures status !in HooksOf(h).byStatus && status >= 500 && HooksOf(h).serverError ==> r == [ServerErrorHook]
    ensures r == [] <==>
      && status !in HooksOf(h).byStatus
      && !(status == 401 && HooksOf(h).unauthorized)
      && !(status == 403 && HooksOf(h).forbidden)
      && !(status >= 500 && HooksOf(h).serverError)
      && EffectiveDefault(h).None?
  {
    var hs := HooksOf(h);
    if status in hs.byStatus then [StatusHook(status)]
    else if status == 401 && hs.unauthorized then [UnauthorizedHook]
    else if status == 403 && hs.forbidden then [ForbiddenHook]
    else if status >= 500 && hs.serverError then [ServerErrorHook]
    else AsList(EffectiveDefault(h))
  }

  /** `handleRequestError`: the hooks it runs and the message it returns. */
  function HandleRequestError(e: Failure, h: ErrorHandler): (r: (seq<Hook>, string))
    ensures e.ReqErr? && e.status.Some? && e.status.value != 0 ==> r.0 == StatusDispatch(e.status.value, h)
    ensures e.ReqErr? && (e.status.None? || e.status.value == 0) ==> r.0 == AsList(EffectiveDefault(h))
    ensures e.ReqErr? ==> r.1 == (if e.message != "" then e.message else GenericFallback) && r.1 != ""
    ensures IsNetworkTypeError(e) ==>
      r.1 == NetworkMessage && r.0 == (if HooksOf(h).networkError then [NetworkErrorHook] else [])
    ensures e.AbortErr? ==> r == ([], CancelledMessage)
    ensures !e.ReqErr? && !IsNetworkTypeError(e) && !e.AbortErr? ==> r.0 == AsList(EffectiveDefault(h))
    ensures (e.TypeErr? && !IsNetworkTypeError(e)) || e.OtherErr? ==> r.1 == e.message
    ensures e.NotAnError? ==> r.1 == GenericFallback
  {
    match e
    case ReqErr(message, _, status, _, _) =>
      var hooks := if status.Some? && status.value != 0 then StatusDispatch(status.value, h) else AsList(EffectiveDefault(h));
      (hooks, if message != "" then message else GenericFallback)
    case TypeErr(message) =>
      if IsNetworkTypeError(e) then (if HooksOf(h).networkError then [NetworkErrorHook] else [], NetworkMessage)
      else (AsList(EffectiveDefault(h)), message)
    case AbortErr => ([], CancelledMessage)
    case OtherErr(message) => (AsList(EffectiveDefault(h)), message)
    case NotAnError => (AsList(EffectiveDefault(h)), GenericFallback)
  }

  /** What every public verb resolves to. */
  datatype RequestResult = RequestResult(data: Option<Reply>, error: Option<string>, status: Option<int>)

  /** `handleRequest`: the call never rejects; on failure the dispatcher runs, then the bare
      function or `onError` once more, directly. */
  function HandleRequest(o: Outcome, h: ErrorHandler): (r: (RequestResult, seq<Hook>))
    ensures o.Success? ==> r == (RequestResult(Some(o.reply), None, None), [])
    ensures o.Failed? ==>
      && r.0.data.None?
      && r.0.error == Some(HandleRequestError(o.error, h).1)
      && r.0.status == (if o.error.ReqErr? then o.error.status else None)
    ensures o.Failed? && h.BareFunction? ==> r.1 == HandleRequestError(o.error, h).0 + [BareHook]
    ensures o.Failed? && h.HookObject? && h.hooks.onError ==> r.1 == HandleRequestError(o.error, h).0 + [OnErrorHook]
    ensures o.Failed? && (h.NoHandler? || (h.HookObject? && !h.hooks.onError)) ==> r.1 == HandleRequestError(o.error, h).0
  {
    match o
    case Success(reply) => (RequestResult(Some(reply), None, None), [])
    case Failed(e) =>
      var (hooks, message) := HandleRequestError(e, h);
      var direct := match h
        case BareFunction => [BareHook]
        case HookObject(hs) => if hs.onError then [OnErrorHook] else []
        case NoHandler => [];
      (RequestResult(None, Some(message), if e.ReqErr? then e.status else None), hooks + direct)
  }

  /** A bare-function handler runs twice for a failure that reaches the default slot:
      once as the dispatcher's default and once directly. */
  lemma BareFunctionRunsTwice(message: string, url: string)
    ensures var e := ReqErr(message, url, Some(404), Some("Not Found"), Null);
      HandleRequest(Failed(e), BareFunction).1 == [BareHook, BareHook]
  {
  }

  /** An `onError` hook without `default` fills the default slot, so it too runs twice,
      while an abort runs it only once. */
  lemma OnErrorRunsTwice(message: string, url: string)
    ensures var hs := Hooks({}, true, false, false, false, false, false);
      && HandleRequest(Failed(ReqErr(message, url, Some(400), None, Null)), HookObject(hs)).1 == [OnErrorHook, OnErrorHook]
      && HandleRequest(Failed(AbortErr), HookObject(hs)).1 == [OnErrorHook]
  {
  }

  /** A 401 goes to a hook keyed 401 ahead of `unauthorized`, and to `unauthorized` ahead of `default`. */
  lemma UnauthorizedPrecedence(hs: Hooks, e: Failure)
    requires e.ReqErr? && e.status == Some(401)
    requires hs.unauthorized && hs.default
    ensures 401 in hs.byStatus ==> HandleRequestError(e, HookObject(hs)).0 == [StatusHook(401)]
    ensures 401 !in hs.byStatus ==> HandleRequestError(e, HookObject(hs)).0 == [UnauthorizedHook]
  {
  }

  /** At most one hook runs inside the dispatcher, whatever the error. */
  lemma AtMostOneDispatchedHook(e: Failure, h: ErrorHandler)
    ensures |HandleRequestError(e, h).0| <= 1
  {
  }
}
