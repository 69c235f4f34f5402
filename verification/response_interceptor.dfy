/** The response interceptor and one attempt of a call (`makeRequest`):
    the race against the timer, HTTP-level errors and the `{code, message}` envelope. */
module ResponseInterceptor {
  import opened Js
  import opened Http

  /** The result of `response.json()` on the body: the value, or the message of the `SyntaxError`. */
  datatype JsonBody = Parsed(value: Value) | Unparsable(syntaxError: string)

  /** A `Response`: status line, the `content-type` header if present,
      and the body read as text or as JSON (whichever the interceptor asks for). */
  datatype Response = Response(status: int, statusText: string, contentType: Option<string>, text: string, json: JsonBody)

  const ParseFailureMessage: string := "解析响应数据失败"
  const EnvelopeFallbackMessage: string := "请求失败"

  predicate JsonTyped(contentType: Option<string>) {
    contentType.Some? && Contains(contentType.value, "application/json")
  }

  /** A non-empty content type that is not JSON: the response is handed back untouched. */
  predicate RawTyped(contentType: Option<string>) {
    contentType.Some? && contentType.value != "" && !Contains(contentType.value, "application/json")
  }

  function DefaultErrorMessage(status: int, statusText: string): (m: string)
    ensures StatusMessage(status).Some? ==> m == StatusMessage(status).value
    ensures StatusMessage(status).None? ==> m == "HTTP 错误: " + IntToString(status) + " " + statusText
  {
    match StatusMessage(status)
    case Some(known) => known
    case None => "HTTP 错误: " + IntToString(status) + " " + statusText
  }

  /** The error thrown for a non-2xx response. A JSON body contributes its truthy `message`
      and becomes the error's data; reading `message` of a `null` body throws and is ignored.
      Any other body contributes its text when non-empty. */
  function HttpError(res: Response, url: string): (e: Failure)
    ensures e.ReqErr? && e.url == url && e.status == Some(res.status) && e.statusText == Some(res.statusText)
    ensures JsonTyped(res.contentType) && res.json.Unparsable? ==>
      e.message == DefaultErrorMessage(res.status, res.statusText) && e.data == Null
    ensures JsonTyped(res.contentType) && res.json.Parsed? ==> e.data == res.json.value
    ensures JsonTyped(res.contentType) && res.json.Parsed? && res.json.value.Obj?
            && Truthy(Lookup(res.json.value.fields, "message")) ==>
      e.message == ToJsString(Lookup(res.json.value.fields, "message"))
    ensures JsonTyped(res.contentType) && res.json.Parsed? && res.json.value.Obj?
            && !Truthy(Lookup(res.json.value.fields, "message")) ==>
      e.message == DefaultErrorMessage(res.status, res.statusText)
    ensures JsonTyped(res.contentType) && res.json.Parsed? && !res.json.value.Obj? ==>
      e.message == DefaultErrorMessage(res.status, res.statusText)
    ensures !JsonTyped(res.contentType) ==>
      e.message == (if res.text != "" then res.text else DefaultErrorMessage(res.status, res.statusText)) && e.data == Null
  {
    var fallback := DefaultErrorMessage(res.status, res.statusText);
    var (message, data) :=
      if JsonTyped(res.contentType) then
        match res.json
        case Unparsable(_) => (fallback, Null)
        case Parsed(v) =>
          match Prop(v, "message")
          case None => (fallback, v)
          case Some(m) => (if Truthy(m) then ToJsString(m) else fallback, v)
      else (if res.text != "" then res.text else fallback, Null);
    ReqErr(message, url, Some(res.status), Some(res.statusText), data)
  }

  /** `data && code !== undefined && code !== 0 && (code < 200 || code >= 300)` */
  predicate EnvelopeFails(v: Value) {
    Truthy(v) && v.Obj? && CodeFails(Lookup(v.fields, "code"))
  }

  /** `data.message || data.reason || "请求失败"` */
  function EnvelopeMessage(v: Value): (m: string)
    requires v.Obj?
    ensures Truthy(Lookup(v.fields, "message")) ==> m == ToJsString(Lookup(v.fields, "message"))
    ensures !Truthy(Lookup(v.fields, "message")) && Truthy(Lookup(v.fields, "reason")) ==>
      m == ToJsString(Lookup(v.fields, "reason"))
    ensures !Truthy(Lookup(v.fields, "message")) && !Truthy(Lookup(v.fields, "reason")) ==> m == EnvelopeFallbackMessage
  {
    var message := Lookup(v.fields, "message");
    var reason := Lookup(v.fields, "reason");
    if Truthy(message) then ToJsString(message)
    else if Truthy(reason) then ToJsString(reason)
    else EnvelopeFallbackMessage
  }

  /** A primitive body has no `code` property, so only objects can fail the envelope test. */
  lemma PrimitiveBodiesPass(v: Value)
    requires !v.Obj?
    ensures !(Truthy(v) && CodeFails(Prop(v, "code").GetOr(Undefined)))
  {
  }

  function Intercept(res: Response, url: string): (r: Outcome)
    ensures !IsOk(res.status) ==> r == Failed(HttpError(res, url))
    ensures IsOk(res.status) && RawTyped(res.contentType) ==> r == Success(RawResponse)
    ensures IsOk(res.status) && !RawTyped(res.contentType) && res.json.Unparsable? ==>
      r == Failed(ReqErr(ParseFailureMessage, url, Some(res.status), Some(res.statusText), Undefined))
    ensures IsOk(res.status) && !RawTyped(res.contentType) && res.json.Parsed? ==>
      && (r.Failed? <==> EnvelopeFails(res.json.value))
      && (r.Success? ==> r.reply == Data(res.json.value))
      && (r.Failed? ==> r.error == ReqErr(EnvelopeMessage(res.json.value), url, Some(res.status),
                                          Some(res.statusText), res.json.value))
  {
    if !IsOk(res.status) then Failed(HttpError(res, url))
    else if RawTyped(res.contentType) then Success(RawResponse)
    else
      match res.json
      case Unparsable(_) => Failed(ReqErr(ParseFailureMessage, url, Some(res.status), Some(res.statusText), Undefined))
      case Parsed(v) =>
        if EnvelopeFails(v) then Failed(ReqErr(EnvelopeMessage(v), url, Some(res.status), Some(res.statusText), v))
        else Success(Data(v))
  }

  /** How `fetch` itself settles: with a response, or by rejecting (network failure, abort). */
  datatype FetchResult = Responded(res: Response) | Rejected(error: Failure)

  /** `makeRequest`: with a non-zero timeout the fetch races a timer; `timerFirst` says who won. */
  function Attempt(timeout: nat, timerFirst: bool, fetch: FetchResult, url: string): (r: Outcome)
    ensures timeout > 0 && timerFirst ==> r == Failed(TimeoutError)
    ensures (timeout == 0 || !timerFirst) && fetch.Rejected? ==> r == Failed(fetch.error)
    ensures (timeout == 0 || !timerFirst) && fetch.Responded? ==> r == Intercept(fetch.res, url)
  {
    if timeout > 0 && timerFirst then Failed(TimeoutError)
    else
      match fetch
      case Rejected(e) => Failed(e)
      case Responded(res) => Intercept(res, url)
  }

  /** Only a genuine HTTP 401 (or a rejection that already was one) starts the refresh path:
      an envelope whose `code` is 401 inside a 2xx response keeps the 2xx status,
      and a timeout carries no status at all. */
  lemma Only401ResponsesRefresh(timeout: nat, timerFirst: bool, fetch: FetchResult, url: string)
    requires Attempt(timeout, timerFirst, fetch, url).Failed?
    requires Is401(Attempt(timeout, timerFirst, fetch, url).error)
    ensures (fetch.Responded? && fetch.res.status == 401) || (fetch.Rejected? && Is401(fetch.error))
  {
  }

  /** A 200 response whose envelope says `{code: 401}` fails, but with status 200. */
  lemma EnvelopeCodeKeepsHttpStatus(url: string)
    ensures var res := Response(200, "OK", Some("application/json"), "", Parsed(Obj([("code", Num(401))])));
      Intercept(res, url) == Failed(ReqErr(EnvelopeFallbackMessage, url, Some(200), Some("OK"),
                                           Obj([("code", Num(401))])))
  {
    assert Contains("application/json", "application/json");
  }
}
