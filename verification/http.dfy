/** Vocabulary shared by the request layer: verbs, the thrown-error taxonomy,
    the per-status message table, login redirect targets and the domain `code` test. */
module Http {
  import opened Js

  datatype Method = GET | POST | PUT | DELETE | PATCH

  /** What a failed call rejects with. */
  datatype Failure =
      /** `RequestError(message, url, status?, statusText?, data?)`. */
    | ReqErr(message: string, url: string, status: Option<int>, statusText: Option<string>, data: Value)
      /** A `TypeError`, e.g. from `fetch` ("Failed to fetch") or from reading a property of `null`. */
    | TypeErr(message: string)
      /** A `DOMException` named "AbortError". */
    | AbortErr
      /** Any other `Error`, e.g. the `SyntaxError` of a body that is not JSON. */
    | OtherErr(message: string)
      /** A thrown value that is not an `Error` at all. */
    | NotAnError

  /** A successful call yields the parsed JSON body, or the raw `Response` when it is not JSON. */
  datatype Reply = Data(value: Value) | RawResponse

  /** How one attempt settles. */
  datatype Outcome = Success(reply: Reply) | Failed(error: Failure)

  /** The rejection of the per-attempt timer. */
  const TimeoutError: Failure := ReqErr("请求超时", "", None, Some("Timeout"), Undefined)

  predicate Is401(e: Failure) {
    e.ReqErr? && e.status == Some(401)
  }

  /** The message a TypeError carries when a property of `null` or `undefined` is read.
      Its exact wording is engine-specific; it never mentions fetching. */
  const PropertyReadMessage: string := "Cannot read properties of null"

  /** `HTTP_STATUS_MESSAGES` */
  function StatusMessage(status: int): Option<string> {
    if status == 200 then Some("请求成功")
    else if status == 201 then Some("创建成功")
    else if status == 300 then Some("重定向")
    else if status == 400 then Some("请求参数错误")
    else if status == 401 then Some("未授权，请重新登录")
    else if status == 403 then Some("拒绝访问")
    else if status == 404 then Some("请求地址不存在")
    else if status == 418 then Some("我是一个茶壶")
    else if status == 500 then Some("服务器内部错误")
    else None
  }

  /** `response.ok` */
  predicate IsOk(status: int) {
    200 <= status <= 299
  }

  /** The envelope test `code !== undefined && code !== 0 && (code < 200 || code >= 300)`,
      with JavaScript's relational operators (NaN compares false). */
  predicate CodeFails(code: Value) {
    && code != Undefined
    && code != Num(0)
    && match ToNumber(code)
       case None => false
       case Some(n) => n < 200 || n >= 300
  }

  lemma NumericCodeFails(n: int)
    ensures CodeFails(Num(n)) <==> n != 0 && (n < 200 || n >= 300)
  {
  }

  /** `new Error(m)` with `m` possibly `undefined`: the message is "" or `String(m)`. */
  function ErrorMessage(m: Value): string {
    if m == Undefined then "" else ToJsString(m)
  }

  /** `window.location`: the path and the query part. */
  datatype Location = Location(pathname: string, search: string)

  /** Where the browser is sent when authentication is lost. */
  datatype LoginTarget =
    | PlainLogin
      /** "/login?redirect_to=" followed by the URI-component encoding of `path`. */
    | LoginWithRedirect(path: string)

  const LoginPath: string := "/login"

  /** The href for a target, given the `encodeURIComponent` function. */
  function Href(t: LoginTarget, encodeComponent: string -> string): string {
    match t
    case PlainLogin => LoginPath
    case LoginWithRedirect(p) => LoginPath + "?redirect_to=" + encodeComponent(p)
  }
}
