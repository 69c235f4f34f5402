/** The sign-up and login forms: their validation schemas, the request each submits, and what
    each does with the request's result (store the tokens, navigate, or report a failure). */
module AuthSchema {
  import opened Js

  /** A validation issue: the field it is attached to and its message. */
  datatype Issue = Issue(path: string, message: string)

  predicate Fits(s: string, lo: nat, hi: nat) {
    lo <= |s| <= hi
  }

  /** A string's `.min(lo, minMessage).max(hi, maxMessage)` checks, both reported when both fail. */
  function LengthIssues(path: string, s: string, lo: nat, hi: nat, minMessage: string, maxMessage: string): (r: seq<Issue>)
    ensures r == [] <==> Fits(s, lo, hi)
    ensures forall i :: 0 <= i < |r| ==> r[i].path == path
    ensures |s| < lo ==> Issue(path, minMessage) in r
  {
    var tooShort := if |s| < lo then [Issue(path, minMessage)] else [];
    var tooLong := if |s| > hi then [Issue(path, maxMessage)] else [];
    assert tooShort != [] ==> tooShort[0] == Issue(path, minMessage);
    tooShort + tooLong
  }

  /** Both forms' email rule: an address of 3 to 64 characters. `isEmail` is the schema
      library's address test. */
  function EmailIssues(email: string, isEmail: string -> bool): (r: seq<Issue>)
    ensures r == [] <==> isEmail(email) && Fits(email, 3, 64)
    ensures forall i :: 0 <= i < |r| ==> r[i].path == "email"
  {
    (if isEmail(email) then [] else [Issue("email", "请输入正确的邮箱地址")])
    + LengthIssues("email", email, 3, 64, "邮箱至少需要 3 个字符", "邮箱最多 64 个字符")
  }

  function PasswordIssues(password: string): (r: seq<Issue>)
    ensures r == [] <==> Fits(password, 6, 64)
    ensures forall i :: 0 <= i < |r| ==> r[i].path == "password"
  {
    LengthIssues("password", password, 6, 64, "密码至少需要 6 位", "密码最多 64 位")
  }

  /** `v?.key`: undefined when `v` is null or undefined. */
  function OptionalProp(v: Value, key: string): (r: Value)
    ensures v == Undefined || v == Null ==> r == Undefined
    ensures v.Obj? ==> r == Lookup(v.fields, key)
  {
    match Prop(v, key)
    case None => Undefined
    case Some(x) => x
  }

  /** The body a request result carries as a JavaScript value: `null` when the call failed; a
      non-JSON body is a `Response` object, which has none of the fields read here. */
  function Body(data: Option<Http.Reply>): (r: Value)
    ensures data.None? ==> r == Null
    ensures data.Some? && data.value.Data? ==> r == data.value.value
  {
    match data
    case None => Null
    case Some(Data(v)) => v
    case Some(RawResponse) => Obj([])
  }

  /** `(body as any)?.data ?? body`: the payload inside the `{code, message, data}` envelope, or
      the body itself when it has no `data`. */
  function Unwrap(body: Value): (r: Value)
    ensures body.Obj? && Lookup(body.fields, "data") != Undefined && Lookup(body.fields, "data") != Null ==>
      r == Lookup(body.fields, "data")
    ensures !body.Obj? ==> r == body
  {
    Coalesce(OptionalProp(body, "data"), body)
  }

  /** The payload of a `{code: 0, message: "ok", data}` envelope is its `data`. */
  lemma EnvelopeData(payload: Value)
    ensures Lookup([("code", Num(0)), ("message", Str("ok")), ("data", payload)], "data") == payload
  {
    LookupCons("code", Num(0), [("message", Str("ok")), ("data", payload)], "data");
    LookupCons("message", Str("ok"), [("data", payload)], "data");
    LookupCons("data", payload, [], "data");
  }

  /** Storing a token pair read from a result: `localStorage.setItem` keeps `String(v)`. */
  function StoreTokens(env: AuthStorage.Env, token: Value, refreshToken: Value): (r: AuthStorage.Env)
    ensures !env.browser ==> r == env
    ensures env.browser && ToJsString(token) != "" ==>
      AuthStorage.GetAuthTokens(r).token == Some(ToJsString(token))
    ensures env.browser && ToJsString(refreshToken) != "" ==>
      AuthStorage.GetAuthTokens(r).refreshToken == Some(ToJsString(refreshToken))
    ensures forall k :: k != AuthStorage.TokenKey && k != AuthStorage.RefreshTokenKey ==>
      AuthStorage.SameAt(env.storage, r.storage, k)
  {
    AuthStorage.SetAuthTokens(env, Some(ToJsString(token)), Some(ToJsString(refreshToken)))
  }

  import Http
  import AuthStorage
}

/** The sign-up page. */
module SignupForm {
  import opened Js
  import opened AuthSchema
  import AuthStorage
  import ErrorDispatch

  /** The form's values; the name is optional in the schema. */
  datatype SignupValues = SignupValues(email: string, name: Option<string>, password: string, confirmPassword: string)

  /** The form starts with every field empty, the name included. */
  const DefaultValues: SignupValues := SignupValues("", Some(""), "", "")

  const NameEmpty: string := "昵称不能为空"
  const Mismatch: string := "两次输入的密码不一致"

  /** `name: z.string().min(1).max(32).optional()` as written: an absent name passes, a present
      one needs 1 to 32 characters. */
  function NameIssues(name: Option<string>): (r: seq<Issue>)
    ensures r == [] <==> name.None? || Fits(name.value, 1, 32)
    ensures forall i :: 0 <= i < |r| ==> r[i].path == "name"
    ensures name == Some("") ==> Issue("name", NameEmpty) in r
  {
    if name.None? then [] else LengthIssues("name", name.value, 1, 32, NameEmpty, "昵称最多 32 个字符")
  }

  /** The schema's issues, field by field, then the refinement attached to `confirmPassword`. */
  function SignupIssues(v: SignupValues, isEmail: string -> bool): (r: seq<Issue>)
    ensures Issue("confirmPassword", Mismatch) in r <==> v.password != v.confirmPassword
  {
    var fields := EmailIssues(v.email, isEmail) + NameIssues(v.name) + PasswordIssues(v.password)
      + LengthIssues("confirmPassword", v.confirmPassword, 6, 64, "确认密码至少需要 6 位", "确认密码最多 64 位");
    var refine := if v.password != v.confirmPassword then [Issue("confirmPassword", Mismatch)] else [];
    assert Issue("confirmPassword", Mismatch) !in fields by {
      forall i | 0 <= i < |fields|
        ensures fields[i].message != Mismatch
      {
      }
    }
    fields + refine
  }

  predicate AcceptableSignup(v: SignupValues, isEmail: string -> bool) {
    && isEmail(v.email) && Fits(v.email, 3, 64)
    && (v.name.None? || Fits(v.name.value, 1, 32))
    && Fits(v.password, 6, 64) && Fits(v.confirmPassword, 6, 64)
    && v.password == v.confirmPassword
  }

  /** The form submits exactly when every rule holds. */
  lemma SignupValidIff(v: SignupValues, isEmail: string -> bool)
    ensures SignupIssues(v, isEmail) == [] <==> AcceptableSignup(v, isEmail)
  {
    var fields := EmailIssues(v.email, isEmail) + NameIssues(v.name) + PasswordIssues(v.password)
      + LengthIssues("confirmPassword", v.confirmPassword, 6, 64, "确认密码至少需要 6 位", "确认密码最多 64 位");
    var refine := if v.password != v.confirmPassword then [Issue("confirmPassword", Mismatch)] else [];
    assert SignupIssues(v, isEmail) == fields + refine;
  }

  /** As written, leaving the optional name blank blocks sign-up: the field holds "" (its default),
      and "" fails the one-character minimum. */
  lemma BlankNameBlocksSignup(email: string, password: string, isEmail: string -> bool)
    ensures Issue("name", NameEmpty) in SignupIssues(SignupValues(email, DefaultValues.name, password, password), isEmail)
  {
    var v := SignupValues(email, DefaultValues.name, password, password);
    var fields := EmailIssues(v.email, isEmail) + NameIssues(v.name) + PasswordIssues(v.password)
      + LengthIssues("confirmPassword", v.confirmPassword, 6, 64, "确认密码至少需要 6 位", "确认密码最多 64 位");
    assert SignupIssues(v, isEmail) == fields;
    assert Issue("name", NameEmpty) in NameIssues(v.name);
  }

  /** The evidently intended name rule: a blank name counts as no name. */
  function NameIssuesCorrected(name: Option<string>): (r: seq<Issue>)
    ensures r == [] <==> name.None? || name.value == "" || Fits(name.value, 1, 32)
    ensures forall i :: 0 <= i < |r| ==> r[i].path == "name"
  {
    if name.None? || name.value == "" then [] else NameIssues(name)
  }

  function SignupIssuesCorrected(v: SignupValues, isEmail: string -> bool): (r: seq<Issue>)
    ensures Issue("confirmPassword", Mismatch) in r <==> v.password != v.confirmPassword
  {
    var fields := EmailIssues(v.email, isEmail) + NameIssuesCorrected(v.name) + PasswordIssues(v.password)
      + LengthIssues("confirmPassword", v.confirmPassword, 6, 64, "确认密码至少需要 6 位", "确认密码最多 64 位");
    var refine := if v.password != v.confirmPassword then [Issue("confirmPassword", Mismatch)] else [];
    assert Issue("confirmPassword", Mismatch) !in fields by {
      forall i | 0 <= i < |fields|
        ensures fields[i].message != Mismatch
      {
      }
    }
    fields + refine
  }

  /** With the correction a blank name never blocks sign-up, and the blank name is then sent as
      no name at all. */
  lemma BlankNameAccepted(v: SignupValues, isEmail: string -> bool)
    requires v.name == Some("")
    requires AcceptableSignup(v.(name := None), isEmail)
    ensures SignupIssuesCorrected(v, isEmail) == []
    ensures Request(v).name.None?
  {
    var fields := EmailIssues(v.email, isEmail) + NameIssuesCorrected(v.name) + PasswordIssues(v.password)
      + LengthIssues("confirmPassword", v.confirmPassword, 6, 64, "确认密码至少需要 6 位", "确认密码最多 64 位");
    assert SignupIssuesCorrected(v, isEmail) == fields;
  }

  /** The corrected rule accepts exactly what the written one accepts, plus the blank name. */
  lemma CorrectedOnlyAddsBlankName(v: SignupValues, isEmail: string -> bool)
    ensures SignupIssuesCorrected(v, isEmail) == [] <==>
      AcceptableSignup(v, isEmail) || (v.name == Some("") && AcceptableSignup(v.(name := None), isEmail))
  {
    SignupValidIff(v, isEmail);
    var fields := EmailIssues(v.email, isEmail) + NameIssuesCorrected(v.name) + PasswordIssues(v.password)
      + LengthIssues("confirmPassword", v.confirmPassword, 6, 64, "确认密码至少需要 6 位", "确认密码最多 64 位");
    var refine := if v.password != v.confirmPassword then [Issue("confirmPassword", Mismatch)] else [];
    assert SignupIssuesCorrected(v, isEmail) == fields + refine;
  }

  datatype SignupRequest = SignupRequest(email: string, password: string, name: Option<string>)

  /** The request body: `name || undefined`. */
  function Request(v: SignupValues): (r: SignupRequest)
    ensures r.email == v.email && r.password == v.password
    ensures r.name.Some? <==> v.name.Some? && v.name.value != ""
    ensures r.name.Some? ==> r.name == v.name
  {
    SignupRequest(v.email, v.password, if v.name.Some? && v.name.value != "" then v.name else None)
  }

  /** What the submission ends in: a failure toast with its message, or success with the
      credential store afterwards, the navigation target and the welcome text. */
  datatype SignupOutcome =
    | SignupFailed(message: string)
    | SignedUp(env: AuthStorage.Env, navigateTo: string, welcome: string)

  const SignupFallback: string := "注册失败"

  /** `result.user?.email || result.user?.name || "用户"` */
  function WelcomeName(result: Value): (r: string)
    ensures var user := OptionalProp(result, "user");
      && (Truthy(OptionalProp(user, "email")) ==> r == ToJsString(OptionalProp(user, "email")))
      && (!Truthy(OptionalProp(user, "email")) && Truthy(OptionalProp(user, "name")) ==>
            r == ToJsString(OptionalProp(user, "name")))
      && (!Truthy(OptionalProp(user, "email")) && !Truthy(OptionalProp(user, "name")) ==> r == "用户")
    ensures result.Obj? && !Lookup(result.fields, "user").Obj? ==> r == "用户"
  {
    var user := OptionalProp(result, "user");
    var email := OptionalProp(user, "email");
    var name := OptionalProp(user, "name");
    if Truthy(email) then ToJsString(email)
    else if Truthy(name) then ToJsString(name)
    else "用户"
  }

  /** The mutation and its `onSuccess` / `onError`. */
  function Submit(env: AuthStorage.Env, res: ErrorDispatch.RequestResult): (r: SignupOutcome)
    ensures r.SignupFailed? <==> !Truthy(Unwrap(Body(res.data)))
    ensures r.SignupFailed? ==> r.message == OrElse(res.error, SignupFallback)
    ensures r.SignedUp? ==> r.navigateTo == "/"
    ensures r.SignedUp? ==>
      var result := Unwrap(Body(res.data));
      var token := OptionalProp(result, "token");
      var refresh := OptionalProp(result, "refresh_token");
      r.env == (if Truthy(token) && Truthy(refresh) then StoreTokens(env, token, refresh) else env)
  {
    var result := Unwrap(Body(res.data));
    if !Truthy(result) then SignupFailed(OrElse(res.error, SignupFallback))
    else
      var token := OptionalProp(result, "token");
      var refresh := OptionalProp(result, "refresh_token");
      var env' := if Truthy(token) && Truthy(refresh) then StoreTokens(env, token, refresh) else env;
      SignedUp(env', "/", "欢迎加入，" + WelcomeName(result))
  }

  /** A server reply wrapped in the `{code, message, data}` envelope with a token pair inside
      stores exactly that pair. */
  lemma EnvelopeTokensStored(env: AuthStorage.Env, t: string, rt: string, rest: seq<(string, Value)>)
    requires env.browser && t != "" && rt != ""
    ensures var auth := Obj([("token", Str(t)), ("refresh_token", Str(rt))] + rest);
      var res := ErrorDispatch.RequestResult(Some(Http.Data(Obj([("code", Num(0)), ("message", Str("ok")), ("data", auth)]))), None, None);
      var r := Submit(env, res);
      r.SignedUp? && AuthStorage.GetAuthTokens(r.env) == AuthStorage.AuthTokens(Some(t), Some(rt))
  {
    var auth := Obj([("token", Str(t)), ("refresh_token", Str(rt))] + rest);
    LookupCons("token", Str(t), [("refresh_token", Str(rt))] + rest, "token");
    LookupCons("token", Str(t), [("refresh_token", Str(rt))] + rest, "refresh_token");
    LookupCons("refresh_token", Str(rt), rest, "refresh_token");
    assert [("token", Str(t)), ("refresh_token", Str(rt))] + rest == [("token", Str(t))] + ([("refresh_token", Str(rt))] + rest);
    EnvelopeData(auth);
    AuthStorage.SetThenGet(env, t, rt);
  }
}

/** The login page. */
module LoginForm {
  import opened Js
  import opened AuthSchema
  import AuthStorage
  import ErrorDispatch
  import Http

  datatype LoginValues = LoginValues(email: string, password: string)

  function LoginIssues(v: LoginValues, isEmail: string -> bool): (r: seq<Issue>)
    ensures r == [] <==> isEmail(v.email) && Fits(v.email, 3, 64) && Fits(v.password, 6, 64)
  {
    EmailIssues(v.email, isEmail) + PasswordIssues(v.password)
  }

  const LoginFallback: string := "登录失败"

  /** A failure toast with its description; success with the store, target and welcome; or a
      reply without a token pair, which only shows "登录失败" and stays on the page. */
  datatype LoginOutcome =
    | LoginFailed(description: string)
    | LoggedIn(env: AuthStorage.Env, navigateTo: string, welcome: string)
    | LoginRefused

  /** The mutation and its `onSuccess` / `onError`: the token pair is read from the body itself. */
  function Submit(env: AuthStorage.Env, v: LoginValues, res: ErrorDispatch.RequestResult): (r: LoginOutcome)
    ensures r.LoginFailed? <==> !Truthy(Body(res.data))
    ensures r.LoginFailed? ==> r.description == OrElse(res.error, LoginFallback)
    ensures r.LoggedIn? <==>
      (Truthy(Body(res.data)) && Truthy(OptionalProp(Body(res.data), "token")) && Truthy(OptionalProp(Body(res.data), "refresh_token")))
    ensures r.LoggedIn? ==>
      && r.env == StoreTokens(env, OptionalProp(Body(res.data), "token"), OptionalProp(Body(res.data), "refresh_token"))
      && r.navigateTo == "/" && r.welcome == "欢迎回来，" + v.email
  {
    var result := Body(res.data);
    if !Truthy(result) then LoginFailed(OrElse(res.error, LoginFallback))
    else
      var token := OptionalProp(result, "token");
      var refresh := OptionalProp(result, "refresh_token");
      if Truthy(token) && Truthy(refresh) then LoggedIn(StoreTokens(env, token, refresh), "/", "欢迎回来，" + v.email)
      else LoginRefused
  }

  /** The `{code, message, data}` envelope the request layer's result type describes. */
  function Envelope(t: string, rt: string): Value {
    Obj([("code", Num(0)), ("message", Str("ok")), ("data", Obj([("token", Str(t)), ("refresh_token", Str(rt))]))])
  }

  /** As written, a successful login whose tokens sit inside the envelope is refused and nothing
      is stored, while sign-up accepts the same reply. */
  lemma EnvelopeLoginRefused(env: AuthStorage.Env, v: LoginValues, t: string, rt: string)
    requires t != "" && rt != ""
    ensures var res := ErrorDispatch.RequestResult(Some(Http.Data(Envelope(t, rt))), None, None);
      Submit(env, v, res) == LoginRefused
  {
    EnvelopeFields(t, rt);
  }

  /** Where the envelope's fields are: no token pair at the top, the pair inside `data`. */
  lemma EnvelopeFields(t: string, rt: string)
    ensures var e := Envelope(t, rt).fields;
      var inner := [("token", Str(t)), ("refresh_token", Str(rt))];
      && Lookup(e, "token") == Undefined && Lookup(e, "refresh_token") == Undefined
      && Lookup(e, "data") == Obj(inner)
      && Lookup(inner, "token") == Str(t) && Lookup(inner, "refresh_token") == Str(rt)
  {
    var inner := [("token", Str(t)), ("refresh_token", Str(rt))];
    var e := Envelope(t, rt).fields;
    forall key | key in {"token", "refresh_token", "data"}
      ensures Lookup(e, key) == if key == "data" then Obj(inner) else Undefined
    {
      LookupCons("code", Num(0), [("message", Str("ok")), ("data", Obj(inner))], key);
      LookupCons("message", Str("ok"), [("data", Obj(inner))], key);
      LookupCons("data", Obj(inner), [], key);
    }
    LookupCons("token", Str(t), [("refresh_token", Str(rt))], "token");
    LookupCons("token", Str(t), [("refresh_token", Str(rt))], "refresh_token");
    LookupCons("refresh_token", Str(rt), [], "refresh_token");
  }

  /** The evidently intended reading, as on the sign-up page: the payload inside the envelope. */
  function SubmitCorrected(env: AuthStorage.Env, v: LoginValues, res: ErrorDispatch.RequestResult): (r: LoginOutcome)
    ensures r.LoginFailed? <==> !Truthy(Unwrap(Body(res.data)))
    ensures r.LoggedIn? <==>
      (Truthy(Unwrap(Body(res.data))) && Truthy(OptionalProp(Unwrap(Body(res.data)), "token"))
       && Truthy(OptionalProp(Unwrap(Body(res.data)), "refresh_token")))
  {
    var result := Unwrap(Body(res.data));
    if !Truthy(result) then LoginFailed(OrElse(res.error, LoginFallback))
    else
      var token := OptionalProp(result, "token");
      var refresh := OptionalProp(result, "refresh_token");
      if Truthy(token) && Truthy(refresh) then LoggedIn(StoreTokens(env, token, refresh), "/", "欢迎回来，" + v.email)
      else LoginRefused
  }

  /** With the correction the enveloped reply logs in and stores exactly its token pair. */
  lemma CorrectedEnvelopeLogsIn(env: AuthStorage.Env, v: LoginValues, t: string, rt: string)
    requires env.browser && t != "" && rt != ""
    ensures var res := ErrorDispatch.RequestResult(Some(Http.Data(Envelope(t, rt))), None, None);
      var r := SubmitCorrected(env, v, res);
      r.LoggedIn? && r.navigateTo == "/" && AuthStorage.GetAuthTokens(r.env) == AuthStorage.AuthTokens(Some(t), Some(rt))
  {
    EnvelopeFields(t, rt);
    AuthStorage.SetThenGet(env, t, rt);
  }

  /** A bare reply without a `data` field is handled the same way by both readings. */
  lemma CorrectedAgreesOnBareReply(env: AuthStorage.Env, v: LoginValues, fields: seq<(string, Value)>, error: Option<string>)
    requires Lookup(fields, "data") == Undefined
    ensures var res := ErrorDispatch.RequestResult(Some(Http.Data(Obj(fields))), error, None);
      SubmitCorrected(env, v, res) == Submit(env, v, res)
  {
  }
}
