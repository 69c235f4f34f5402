/** The request interceptor: turns a call's URL, verb, parameters and token into
    the URL, headers, credentials mode and body handed to `fetch`. */
module RequestBuilder {
  import opened Js
  import opened Http
  import AuthStorage

  /** What a call passes as `params.params`. */
  datatype Params =
    | NoParams
      /** A `FormData` or `URLSearchParams` instance: sent as the body untouched, contributes no query pairs. */
    | Opaque
      /** A plain object, as its own enumerable `[key, value]` entries. */
    | Record(entries: seq<(string, Value)>)

  datatype Body =
    | NoBody
    | PassThrough
      /** `JSON.stringify` of the object with these entries. */
    | Json(entries: seq<(string, Value)>)

  datatype Credentials = Include | SameOrigin

  datatype Prepared = Prepared(
    url: string,
    verb: Method,
    headers: map<string, string>,
    credentials: Credentials,
    body: Body)

  const AuthorizationHeader: string := "Authorization"
  const ContentTypeHeader: string := "Content-Type"
  const JsonContentType: string := "application/json"

  /** `token || getToken()`: the explicit token when non-empty, else the stored one when non-empty. */
  function AuthToken(token: Option<string>, env: AuthStorage.Env): (r: Option<string>)
    ensures r.Some? ==> r.value != ""
    ensures AuthStorage.Filled(token) ==> r == token
    ensures !AuthStorage.Filled(token) ==>
      (r.Some? <==> env.browser && AuthStorage.Filled(AuthStorage.Get(env.storage, AuthStorage.TokenKey)))
    ensures !AuthStorage.Filled(token) && r.Some? ==> r.value == env.storage[AuthStorage.TokenKey]
  {
    if AuthStorage.Filled(token) then token
    else
      var stored := AuthStorage.GetAuthTokens(env).token;
      if AuthStorage.Filled(stored) then stored else None
  }

  /** `.filter(([, v]) => v !== undefined)`: the entries whose value is not `undefined`, in order. */
  function Defined(entries: seq<(string, Value)>): (r: seq<(string, Value)>)
    ensures IsSubsequence(r, entries)
    ensures forall e :: e in r <==> e in entries && e.1 != Undefined
  {
    if |entries| == 0 then []
    else if entries[0].1 == Undefined then Defined(entries[1..])
    else [entries[0]] + Defined(entries[1..])
  }

  /** The entries whose value is not `undefined`, each value passed through `String(v)`. */
  function DefinedPairs(entries: seq<(string, Value)>): (r: seq<(string, string)>)
    ensures |r| <= |entries|
    // `.map(([k, v]) => [k, String(v)])` of the filtered entries, one pair per entry, in entry order.
    ensures var d := Defined(entries);
      |r| == |d| && forall i :: 0 <= i < |r| ==> r[i] == (d[i].0, ToJsString(d[i].1))
    ensures forall k, v :: (k, v) in r ==>
      exists i :: 0 <= i < |entries| && entries[i].0 == k && entries[i].1 != Undefined && ToJsString(entries[i].1) == v
    ensures forall i :: 0 <= i < |entries| && entries[i].1 != Undefined ==>
      (entries[i].0, ToJsString(entries[i].1)) in r
  {
    var r := Stringified(entries);
    DefinedPairsMembership(entries, r);
    r
  }

  /** The recursion behind `DefinedPairs`: one stringified pair per defined entry, in order. */
  function Stringified(entries: seq<(string, Value)>): (r: seq<(string, string)>)
    ensures |r| <= |entries|
    ensures var d := Defined(entries);
      |r| == |d| && forall i :: 0 <= i < |r| ==> r[i] == (d[i].0, ToJsString(d[i].1))
  {
    if |entries| == 0 then []
    else if entries[0].1 == Undefined then Stringified(entries[1..])
    else [(entries[0].0, ToJsString(entries[0].1))] + Stringified(entries[1..])
  }

  /** Membership in the stringified pairs follows from membership in the filtered entries. */
  lemma DefinedPairsMembership(entries: seq<(string, Value)>, r: seq<(string, string)>)
    requires var d := Defined(entries);
      |r| == |d| && forall i :: 0 <= i < |r| ==> r[i] == (d[i].0, ToJsString(d[i].1))
    ensures forall k, v :: (k, v) in r ==>
      exists i :: 0 <= i < |entries| && entries[i].0 == k && entries[i].1 != Undefined && ToJsString(entries[i].1) == v
    ensures forall i :: 0 <= i < |entries| && entries[i].1 != Undefined ==>
      (entries[i].0, ToJsString(entries[i].1)) in r
  {
    var d := Defined(entries);
    forall k, v | (k, v) in r
      ensures exists i :: 0 <= i < |entries| && entries[i].0 == k && entries[i].1 != Undefined && ToJsString(entries[i].1) == v
    {
      var j :| 0 <= j < |r| && r[j] == (k, v);
      assert d[j] in d;
      var i :| 0 <= i < |entries| && entries[i] == d[j];
    }
    forall i | 0 <= i < |entries| && entries[i].1 != Undefined
      ensures (entries[i].0, ToJsString(entries[i].1)) in r
    {
      assert entries[i] in d;
      var j :| 0 <= j < |d| && d[j] == entries[i];
      assert r[j] == (entries[i].0, ToJsString(entries[i].1));
    }
  }

  /** `new URLSearchParams(pairs).toString()`, given the form-urlencoding of one component. */
  function QueryString(pairs: seq<(string, string)>, escape: string -> string): string {
    Join(seq(|pairs|, i requires 0 <= i < |pairs| => escape(pairs[i].0) + "=" + escape(pairs[i].1)), "&")
  }

  /** The query string is empty exactly when there is no pair to encode. */
  lemma QueryEmptyIff(pairs: seq<(string, string)>, escape: string -> string)
    ensures QueryString(pairs, escape) == "" <==> |pairs| == 0
  {
    var parts := seq(|pairs|, i requires 0 <= i < |pairs| => escape(pairs[i].0) + "=" + escape(pairs[i].1));
    if |pairs| > 0 {
      assert '=' in parts[0];
      if |parts| > 1 {
        assert Join(parts, "&") == parts[0] + "&" + Join(parts[1..], "&");
      }
    }
  }

  /** `url` with `?query` appended only when the query is non-empty. */
  function WithQuery(url: string, params: Params, escape: string -> string): string {
    match params
    case Record(es) =>
      var q := QueryString(DefinedPairs(es), escape);
      if q != "" then url + "?" + q else url
    case _ => url
  }

  function Prepare(url: string, verb: Method, params: Params, token: Option<string>, env: AuthStorage.Env,
                   custom: map<string, string>, withCredentials: bool, escape: string -> string): (r: Prepared)
    ensures r.verb == verb
    ensures r.credentials == (if withCredentials then Include else SameOrigin)
    // Authorization: the resolved token wins; otherwise the caller's header, if any, survives.
    ensures AuthToken(token, env).Some? ==>
      AuthorizationHeader in r.headers && r.headers[AuthorizationHeader] == "Bearer " + AuthToken(token, env).value
    ensures AuthToken(token, env).None? ==> AuthStorage.SameAt(custom, r.headers, AuthorizationHeader)
    // Every other caller header is kept as given.
    ensures forall k :: k != AuthorizationHeader && k != ContentTypeHeader ==> AuthStorage.SameAt(custom, r.headers, k)
    // Query verbs: the parameters go to the URL and there is no body.
    ensures (verb == GET || verb == DELETE) ==>
      && r.body == NoBody
      && AuthStorage.SameAt(custom, r.headers, ContentTypeHeader)
      && (params.Record? && |DefinedPairs(params.entries)| > 0 ==>
            r.url == url + "?" + QueryString(DefinedPairs(params.entries), escape))
      && (!params.Record? || |DefinedPairs(params.entries)| == 0 ==> r.url == url)
    // Body verbs: the URL is untouched; a plain object becomes a JSON body with a default content type.
    ensures !(verb == GET || verb == DELETE) ==>
      && r.url == url
      && (params.NoParams? ==> r.body == NoBody && AuthStorage.SameAt(custom, r.headers, ContentTypeHeader))
      && (params.Opaque? ==> r.body == PassThrough && AuthStorage.SameAt(custom, r.headers, ContentTypeHeader))
      && (params.Record? ==>
            && r.body == Json(params.entries)
            && ContentTypeHeader in r.headers
            && r.headers[ContentTypeHeader] ==
               (if ContentTypeHeader in custom && custom[ContentTypeHeader] != "" then custom[ContentTypeHeader]
                else JsonContentType))
  {
    var auth := AuthToken(token, env);
    var h1 := if auth.Some? then custom[AuthorizationHeader := "Bearer " + auth.value] else custom;
    var creds := if withCredentials then Include else SameOrigin;
    if verb == GET || verb == DELETE then
      if params.Record? then QueryEmptyIff(DefinedPairs(params.entries), escape); Prepared(WithQuery(url, params, escape), verb, h1, creds, NoBody)
      else Prepared(url, verb, h1, creds, NoBody)
    else
      match params
      case NoParams => Prepared(url, verb, h1, creds, NoBody)
      case Opaque => Prepared(url, verb, h1, creds, PassThrough)
      case Record(es) =>
        var ct := if ContentTypeHeader in h1 && h1[ContentTypeHeader] != "" then h1[ContentTypeHeader] else JsonContentType;
        Prepared(url, verb, h1[ContentTypeHeader := ct], creds, Json(es))
  }

  /** A GET with `{a: 1, b: undefined}` drops `b` and appends exactly one pair. */
  lemma UndefinedParamDropped(url: string, env: AuthStorage.Env, escape: string -> string)
    ensures Prepare(url, GET, Record([("a", Num(1)), ("b", Undefined)]), None, env, map[], false, escape).url
            == url + "?" + escape("a") + "=" + escape("1")
  {
    var es := [("a", Num(1)), ("b", Undefined)];
    assert DefinedPairs(es[1..]) == [];
    assert DefinedPairs(es) == [("a", "1")];
    assert QueryString([("a", "1")], escape) == escape("a") + "=" + escape("1");
  }

  /** `process.env.NEXT_PUBLIC_API_URL` with its trailing slashes removed, followed by "/api". */
  function ApiBase(configured: string): (r: string)
    ensures |r| >= 4 && r[|r| - 4..] == "/api"
    ensures var p := r[..|r| - 4];
      && |p| <= |configured| && p == configured[..|p|]
      && (|p| == 0 || p[|p| - 1] != '/')
      && forall i :: |p| <= i < |configured| ==> configured[i] == '/'
  {
    var p := StripTrailingSlashes(configured);
    var r := p + "/api";
    assert r[..|r| - 4] == p;
    r
  }

  function StripTrailingSlashes(s: string): (r: string)
    ensures |r| <= |s| && r == s[..|r|]
    ensures |r| == 0 || r[|r| - 1] != '/'
    ensures forall i :: |r| <= i < |s| ==> s[i] == '/'
  {
    if |s| > 0 && s[|s| - 1] == '/' then StripTrailingSlashes(s[..|s| - 1]) else s
  }

  /** Per-instance defaults: `options.x || fallback`, so 0 also falls back. */
  datatype Defaults = Defaults(timeout: nat, retries: nat, retryDelay: nat)

  function InstanceDefaults(timeout: nat, retries: nat, retryDelay: nat): (r: Defaults)
    ensures r.timeout == (if timeout != 0 then timeout else 10000)
    ensures r.retries == retries
    ensures r.retryDelay == (if retryDelay != 0 then retryDelay else 1000)
  {
    Defaults(if timeout != 0 then timeout else 10000, if retries != 0 then retries else 0,
             if retryDelay != 0 then retryDelay else 1000)
  }

  /** The exported client is built with a 15-second timeout, one retry and a one-second delay. */
  const Exported: Defaults := InstanceDefaults(15000, 1, 1000)

  /** A call's own option, when given (even 0), overrides the instance default. */
  function CallSetting(given: Option<nat>, default: nat): (r: nat)
    ensures given.Some? ==> r == given.value
    ensures given.None? ==> r == default
  {
    given.GetOr(default)
  }
}
