/** The credential store: two keys of the browser's `localStorage`.
    Outside a browser every write is a no-op and every read yields nothing. */
module AuthStorage {
  import opened Js

  const TokenKey: string := "auth_token"
  const RefreshTokenKey: string := "refresh_token"

  type Storage = map<string, string>

  /** Whether a `window` exists, and the contents of `localStorage`. */
  datatype Env = Env(browser: bool, storage: Storage)

  datatype AuthTokens = AuthTokens(token: Option<string>, refreshToken: Option<string>)

  /** JavaScript truthiness of a `string | null | undefined` argument. */
  predicate Filled(s: Option<string>) {
    s.Some? && s.value != ""
  }

  function Get(m: Storage, k: string): Option<string> {
    if k in m then Some(m[k]) else None
  }

  /** `m` and `m'` agree on key `k` (both absent, or both present with one value). */
  predicate SameAt(m: Storage, m': Storage, k: string) {
    Get(m, k) == Get(m', k)
  }

  function SetAuthTokens(env: Env, token: Option<string>, refreshToken: Option<string>): (r: Env)
    ensures r.browser == env.browser
    ensures !env.browser ==> r == env
    ensures env.browser && Filled(token) ==> Get(r.storage, TokenKey) == token
    ensures env.browser && Filled(refreshToken) ==> Get(r.storage, RefreshTokenKey) == refreshToken
    ensures !Filled(token) ==> SameAt(env.storage, r.storage, TokenKey)
    ensures !Filled(refreshToken) ==> SameAt(env.storage, r.storage, RefreshTokenKey)
    ensures forall k :: k != TokenKey && k != RefreshTokenKey ==> SameAt(env.storage, r.storage, k)
  {
    if !env.browser then env
    else
      var s1 := if Filled(token) then env.storage[TokenKey := token.value] else env.storage;
      var s2 := if Filled(refreshToken) then s1[RefreshTokenKey := refreshToken.value] else s1;
      Env(env.browser, s2)
  }

  function GetAuthTokens(env: Env): (r: AuthTokens)
    ensures !env.browser ==> r == AuthTokens(None, None)
    ensures env.browser ==> (r.token.Some? <==> TokenKey in env.storage)
    ensures env.browser ==> (r.refreshToken.Some? <==> RefreshTokenKey in env.storage)
    ensures env.browser && TokenKey in env.storage ==> r.token.value == env.storage[TokenKey]
    ensures env.browser && RefreshTokenKey in env.storage ==> r.refreshToken.value == env.storage[RefreshTokenKey]
  {
    if !env.browser then AuthTokens(None, None)
    else AuthTokens(Get(env.storage, TokenKey), Get(env.storage, RefreshTokenKey))
  }

  function ClearAuthTokens(env: Env): (r: Env)
    ensures r.browser == env.browser
    ensures !env.browser ==> r == env
    ensures env.browser ==> TokenKey !in r.storage && RefreshTokenKey !in r.storage
    ensures forall k :: k != TokenKey && k != RefreshTokenKey ==> SameAt(env.storage, r.storage, k)
  {
    if !env.browser then env
    else Env(env.browser, env.storage - {TokenKey, RefreshTokenKey})
  }

  /** Storing two non-empty tokens and reading them back yields exactly those tokens. */
  lemma SetThenGet(env: Env, t: string, rt: string)
    requires env.browser && t != "" && rt != ""
    ensures GetAuthTokens(SetAuthTokens(env, Some(t), Some(rt))) == AuthTokens(Some(t), Some(rt))
  {
  }

  /** Clearing and then reading yields no tokens, in any environment. */
  lemma ClearThenGet(env: Env)
    ensures GetAuthTokens(ClearAuthTokens(env)) == AuthTokens(None, None)
  {
  }

  /** Writing the same tokens twice is the same as writing them once. */
  lemma SetIdempotent(env: Env, t: Option<string>, rt: Option<string>)
    ensures SetAuthTokens(SetAuthTokens(env, t, rt), t, rt) == SetAuthTokens(env, t, rt)
  {
  }
}
