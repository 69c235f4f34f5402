/** The refresh coordinator: renewing the access token with the refresh token,
    admitting at most one renewal at a time with a bounded number of consecutive attempts,
    and the "authentication lost" exit (clear credentials, go to the login page). */
module TokenRefresh {
  import opened Js
  import opened Http
  import AuthStorage
  import opened ResponseInterceptor

  const MaxRefreshAttempts: nat := 2
  const RefreshPath: string := "/auth/refresh"
  const MissingRefreshTokenMessage: string := "未找到刷新令牌，请重新登录"
  const RefreshRejectedMessage: string := "刷新令牌失败，请重新登录"
  const TooManyRefreshesMessage: string := "刷新令牌次数过多，请重新登录"

  /** `handleAuthFailure`: clear both tokens; in a browser, navigate to the login page,
      carrying the current path and query unless they are empty or already the login page. */
  function HandleAuthFailure(env: AuthStorage.Env, loc: Location): (r: (AuthStorage.Env, Option<LoginTarget>))
    ensures r.0 == AuthStorage.ClearAuthTokens(env)
    ensures !env.browser ==> r.1.None?
    ensures env.browser ==> r.1.Some?
    ensures env.browser ==>
      (r.1 == Some(PlainLogin) <==> loc.pathname + loc.search == "" || loc.pathname + loc.search == LoginPath)
    ensures r.1.Some? && r.1.value.LoginWithRedirect? ==> r.1.value.path == loc.pathname + loc.search
  {
    var cleared := AuthStorage.ClearAuthTokens(env);
    if !env.browser then (cleared, None)
    else
      var current := loc.pathname + loc.search;
      if current != "" && current != LoginPath then (cleared, Some(LoginWithRedirect(current)))
      else (cleared, Some(PlainLogin))
  }

  /** Failing twice in a row is the same as failing once. */
  lemma AuthFailureIdempotent(env: AuthStorage.Env, loc: Location)
    ensures HandleAuthFailure(HandleAuthFailure(env, loc).0, loc) == HandleAuthFailure(env, loc)
  {
    var once := AuthStorage.ClearAuthTokens(env);
    assert AuthStorage.ClearAuthTokens(once).storage == once.storage;
  }

  /** What the renewal resolves to: the `token` field it read (possibly `undefined`), or the error it throws. */
  datatype TokenOutcome = Renewed(token: Value) | RefreshFailed(error: Failure)

  datatype Renewal = Renewal(
    env: AuthStorage.Env,
    /** The last navigation requested, if any. */
    redirect: Option<LoginTarget>,
    /** Whether the POST to the refresh endpoint was issued. */
    fetched: bool,
    outcome: TokenOutcome)

  /** Store the renewed tokens: each only when truthy, as `String(v)`. */
  function StoreRenewed(env: AuthStorage.Env, token: Value, refreshToken: Value): (r: AuthStorage.Env)
    ensures r.browser == env.browser
    ensures env.browser && Truthy(token) ==> AuthStorage.Get(r.storage, AuthStorage.TokenKey) == Some(ToJsString(token))
    ensures env.browser && Truthy(refreshToken) ==>
      AuthStorage.Get(r.storage, AuthStorage.RefreshTokenKey) == Some(ToJsString(refreshToken))
    ensures !(env.browser && Truthy(token)) ==> AuthStorage.SameAt(env.storage, r.storage, AuthStorage.TokenKey)
    ensures !(env.browser && Truthy(refreshToken)) ==> AuthStorage.SameAt(env.storage, r.storage, AuthStorage.RefreshTokenKey)
    ensures forall k :: k != AuthStorage.TokenKey && k != AuthStorage.RefreshTokenKey ==>
      AuthStorage.SameAt(env.storage, r.storage, k)
  {
    var s1 := if env.browser && Truthy(token) then env.storage[AuthStorage.TokenKey := ToJsString(token)] else env.storage;
    var s2 := if env.browser && Truthy(refreshToken) then s1[AuthStorage.RefreshTokenKey := ToJsString(refreshToken)] else s1;
    AuthStorage.Env(env.browser, s2)
  }

  /** `refreshAccessToken`, given how the POST to `baseURL + "/auth/refresh"` settles. */
  function RefreshAccessToken(env: AuthStorage.Env, loc: Location, baseURL: string, reply: FetchResult): (r: Renewal)
    // Without a stored refresh token nothing is sent and nothing is cleared.
    ensures !(env.browser && AuthStorage.Filled(AuthStorage.Get(env.storage, AuthStorage.RefreshTokenKey))) ==>
      r == Renewal(env, None, false,
                   RefreshFailed(ReqErr(MissingRefreshTokenMessage, "", Some(401), Some("Unauthorized"), Undefined)))
    ensures env.browser && AuthStorage.Filled(AuthStorage.Get(env.storage, AuthStorage.RefreshTokenKey)) ==> r.fetched
    // Every failure after the POST was sent is an authentication failure.
    ensures r.fetched && r.outcome.RefreshFailed? ==> (r.env, r.redirect) == HandleAuthFailure(env, loc)
    ensures r.fetched && reply.Rejected? ==> r.outcome == RefreshFailed(reply.error)
    ensures r.fetched && reply.Responded? && !IsOk(reply.res.status) ==>
      r.outcome == RefreshFailed(ReqErr(RefreshRejectedMessage, baseURL + RefreshPath, Some(reply.res.status),
                                        Some(reply.res.statusText), Undefined))
    ensures r.fetched && reply.Responded? && IsOk(reply.res.status) && reply.res.json.Unparsable? ==>
      r.outcome == RefreshFailed(OtherErr(reply.res.json.syntaxError))
    // A failing envelope code is reported as a 401 carrying the server's message and body.
    ensures r.fetched && reply.Responded? && IsOk(reply.res.status) && reply.res.json.Parsed?
            && reply.res.json.value.Obj? && CodeFails(Lookup(reply.res.json.value.fields, "code")) ==>
      r.outcome == RefreshFailed(ReqErr(ErrorMessage(Lookup(reply.res.json.value.fields, "message")),
                                        baseURL + RefreshPath, Some(401), Some("Unauthorized"), reply.res.json.value))
    // Success: whatever `data.token` is, and the truthy token fields are stored.
    ensures r.outcome.Renewed? ==>
      && r.fetched && reply.Responded? && IsOk(reply.res.status) && reply.res.json.Parsed?
      && var v := reply.res.json.value;
         && v.Obj? && !CodeFails(Lookup(v.fields, "code"))
         && Prop(Lookup(v.fields, "data"), "token").Some?
         && r.outcome.token == Prop(Lookup(v.fields, "data"), "token").value
         && r.env == StoreRenewed(env, r.outcome.token, Prop(Lookup(v.fields, "data"), "refresh_token").value)
         && r.redirect.None?
    // Conversely, a sent renewal whose 2xx JSON object passes the envelope check and carries a
    // `data.token` field (whatever its value) renews with that value.
    ensures && env.browser && AuthStorage.Filled(AuthStorage.Get(env.storage, AuthStorage.RefreshTokenKey))
            && reply.Responded? && IsOk(reply.res.status) && reply.res.json.Parsed?
            && reply.res.json.value.Obj? && !CodeFails(Lookup(reply.res.json.value.fields, "code"))
            && Prop(Lookup(reply.res.json.value.fields, "data"), "token").Some? ==>
      r.outcome == Renewed(Prop(Lookup(reply.res.json.value.fields, "data"), "token").value)
  {
    var stored := if env.browser then AuthStorage.Get(env.storage, AuthStorage.RefreshTokenKey) else None;
    if !AuthStorage.Filled(stored) then
      Renewal(env, None, false,
              RefreshFailed(ReqErr(MissingRefreshTokenMessage, "", Some(401), Some("Unauthorized"), Undefined)))
    else
      var url := baseURL + RefreshPath;
      var failed := HandleAuthFailure(env, loc);
      match reply
      case Rejected(e) => Renewal(failed.0, failed.1, true, RefreshFailed(e))
      case Responded(res) =>
        if !IsOk(res.status) then
          Renewal(failed.0, failed.1, true,
                  RefreshFailed(ReqErr(RefreshRejectedMessage, url, Some(res.status), Some(res.statusText), Undefined)))
        else
          match res.json
          case Unparsable(msg) => Renewal(failed.0, failed.1, true, RefreshFailed(OtherErr(msg)))
          case Parsed(result) =>
            match Prop(result, "code")
            case None => Renewal(failed.0, failed.1, true, RefreshFailed(TypeErr(PropertyReadMessage)))
            case Some(code) =>
              if CodeFails(code) then
                var message := Prop(result, "message").value;
                Renewal(failed.0, failed.1, true,
                        RefreshFailed(ReqErr(ErrorMessage(message), url, Some(401), Some("Unauthorized"), result)))
              else
                var tokenData := Prop(result, "data").value;
                match Prop(tokenData, "token")
                case None => Renewal(failed.0, failed.1, true, RefreshFailed(TypeErr(PropertyReadMessage)))
                case Some(token) =>
                  var refreshToken := Prop(tokenData, "refresh_token").value;
                  Renewal(StoreRenewed(env, token, refreshToken), None, true, Renewed(token))
  }

  /** A well-formed renewal stores both new tokens, which later requests then carry. */
  lemma RenewalStoresTokens(env: AuthStorage.Env, loc: Location, baseURL: string, t: string, rt: string)
    requires env.browser && AuthStorage.Filled(AuthStorage.Get(env.storage, AuthStorage.RefreshTokenKey))
    requires t != "" && rt != ""
    ensures var body := Obj([("code", Num(0)), ("data", Obj([("token", Str(t)), ("refresh_token", Str(rt))]))]);
      var reply := Responded(Response(200, "OK", Some("application/json"), "", Parsed(body)));
      var r := RefreshAccessToken(env, loc, baseURL, reply);
      && r.outcome == Renewed(Str(t))
      && AuthStorage.GetAuthTokens(r.env) == AuthStorage.AuthTokens(Some(t), Some(rt))
  {
    var data := Obj([("token", Str(t)), ("refresh_token", Str(rt))]);
    var body := Obj([("code", Num(0)), ("data", data)]);
    assert Lookup(body.fields, "code") == Num(0);
    assert Lookup(body.fields, "data") == data;
    assert Lookup(data.fields, "token") == Str(t);
    assert Lookup(data.fields, "refresh_token") == Str(rt);
  }

  /** The coordinator's own state: whether a renewal is in flight, and consecutive attempts
      since the last success. */
  datatype Coordinator = Coordinator(refreshing: bool, attempts: nat)

  /** What `handleTokenRefresh` does when asked for a renewal. */
  datatype Admission =
    | Join                       // share the in-flight renewal
    | Exhausted                  // throw "too many refreshes"
    | Begin(next: Coordinator)   // start a new renewal

  function Admit(c: Coordinator): (r: Admission)
    ensures c.refreshing <==> r.Join?
    ensures r.Exhausted? <==> !c.refreshing && c.attempts >= MaxRefreshAttempts
    ensures r.Begin? ==> r.next.refreshing && r.next.attempts == c.attempts + 1 <= MaxRefreshAttempts
  {
    if c.refreshing then Join
    else if c.attempts >= MaxRefreshAttempts then Exhausted
    else Begin(Coordinator(true, c.attempts + 1))
  }

  /** The `then`/`catch` continuations of the renewal: success resets the counter, failure keeps it. */
  function Finish(c: Coordinator, succeeded: bool): (r: Coordinator)
    ensures !r.refreshing
    ensures succeeded ==> r.attempts == 0
    ensures !succeeded ==> r.attempts == c.attempts
  {
    Coordinator(false, if succeeded then 0 else c.attempts)
  }

  /** Starting from a fresh coordinator, two renewals that both fail leave every later
      request for a renewal exhausted: only a success resets the counter, and no renewal can start. */
  lemma TwoFailuresLockOut()
    ensures var c1 := Finish(Admit(Coordinator(false, 0)).next, false);
            var c2 := Finish(Admit(c1).next, false);
            Admit(c2) == Exhausted
  {
  }

  /** Admission never lets the counter exceed its bound. */
  lemma AttemptsBounded(c: Coordinator, succeeded: bool)
    requires c.attempts <= MaxRefreshAttempts
    ensures Admit(c).Begin? ==> Admit(c).next.attempts <= MaxRefreshAttempts
    ensures Finish(c, succeeded).attempts <= MaxRefreshAttempts
  {
  }
}
