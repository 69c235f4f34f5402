/** The retry executor and the request queue, as one sequential state machine.
    JavaScript runs every continuation to completion on one thread, so the client's
    shared fields (`isRefreshing`, `currentRefreshAttempts`, `failedQueue`) only ever see
    one event at a time. An event is a call starting, an attempt of a call settling,
    or the in-flight renewal settling. The machine records every network request in `trace`. */
module RequestClient {
  import opened Js
  import opened Http
  import AuthStorage
  import opened ResponseInterceptor
  import opened TokenRefresh
  import RequestBuilder

  type CallId = nat

  /** Where one logical call stands. */
  datatype Phase =
      /** `executeWithRetry(requestFn, retries, delay, afterRefresh)` awaits an attempt. */
    | Attempting(retries: nat, afterRefresh: bool)
      /** Parked in the queue until the in-flight renewal settles. */
    | Queued
      /** This call started the in-flight renewal; `original` is the 401 it received. */
    | AwaitingRefresh(original: Failure)
      /** A queued call re-issued after a renewal: one bare attempt, no retry, no renewal. */
    | Replaying
    | Settled(outcome: Outcome)

  /** A request on the wire: an attempt of a call, carrying the bearer token of its
      `Authorization` header (`None`: no header), or the renewal POST. */
  datatype Fetch = CallFetch(id: CallId, bearer: Option<string>) | RefreshFetch

  datatype Client = Client(
    env: AuthStorage.Env,
    location: Location,
    baseURL: string,
    redirect: Option<LoginTarget>,
    coord: Coordinator,
    queue: seq<CallId>,
    trigger: Option<CallId>,
    calls: map<CallId, Phase>,
    /** The bearer token each call's request was prepared with: `httpFactory` runs the
        request interceptor once, and every attempt and replay sends that same request. */
    prepared: map<CallId, Option<string>>,
    trace: seq<Fetch>)

  datatype Event =
    | Start(id: CallId, retries: nat)
    | AttemptSettled(id: CallId, outcome: Outcome)
    | RenewalSettled(reply: FetchResult)

  function Init(env: AuthStorage.Env, location: Location, baseURL: string): Client {
    Client(env, location, baseURL, None, Coordinator(false, 0), [], None, map[], map[], [])
  }

  /** The bearer token the call's prepared request carries. */
  function Bearer(c: Client, id: CallId): Option<string> {
    if id in c.prepared then c.prepared[id] else None
  }

  predicate HasRefreshToken(env: AuthStorage.Env) {
    AuthStorage.Filled(AuthStorage.Get(env.storage, AuthStorage.RefreshTokenKey))
  }

  /** The conditions under which a failed attempt asks for a renewal. */
  predicate RefreshEligible(c: Client, afterRefresh: bool, e: Failure) {
    Is401(e) && !afterRefresh && c.env.browser
  }

  /** Every id in `ids` gets phase `p`; every other call keeps its phase. */
  function MarkAll<V>(calls: map<CallId, V>, ids: seq<CallId>, p: V): (r: map<CallId, V>)
    ensures forall id :: id in ids ==> id in r && r[id] == p
    ensures forall id :: id in calls && id !in ids ==> id in r && r[id] == calls[id]
    ensures forall id :: id in r ==> id in calls || id in ids
  {
    map id | id in calls.Keys + (set i | i in ids) :: if id in ids then p else calls[id]
  }

  /** One attempt of each call in `ids`, in order, each sending its prepared request. */
  function FetchesOf(c: Client, ids: seq<CallId>): (r: seq<Fetch>)
    ensures |r| == |ids|
    ensures forall i :: 0 <= i < |ids| ==> r[i] == CallFetch(ids[i], Bearer(c, ids[i]))
  {
    seq(|ids|, i requires 0 <= i < |ids| => CallFetch(ids[i], Bearer(c, ids[i])))
  }

  function Settle(c: Client, id: CallId, o: Outcome): Client {
    c.(calls := c.calls[id := Settled(o)])
  }

  /** The catch block of `executeWithRetry` for a failed attempt. Only the failing call's phase
      changes. A refreshable 401 parks the call behind the running renewal, starts a renewal, or
      settles it: without a refresh token, or with renewals exhausted (then credentials are
      cleared). Any other failure is re-sent while the budget lasts and settles otherwise. */
  function OnFailure(c: Client, id: CallId, retries: nat, afterRefresh: bool, e: Failure): (r: Client)
    ensures r.location == c.location && r.baseURL == c.baseURL && r.prepared == c.prepared
    ensures id in r.calls
    ensures forall other :: other in c.calls && other != id ==> other in r.calls && r.calls[other] == c.calls[other]
    // Retry: a non-401 failure with budget left is sent again with one retry fewer.
    ensures r.calls[id].Attempting? <==> retries > 0 && !Is401(e)
    ensures r.calls[id].Attempting? ==>
      r.calls[id] == Attempting(retries - 1, afterRefresh) && r.trace == c.trace + [CallFetch(id, Bearer(c, id))] && r.coord == c.coord
    // Join the running renewal.
    ensures r.calls[id].Queued? <==> RefreshEligible(c, afterRefresh, e) && HasRefreshToken(c.env) && c.coord.refreshing
    ensures r.calls[id].Queued? ==> r.queue == c.queue + [id] && r.trace == c.trace && r.coord == c.coord
    // Start a renewal.
    ensures r.calls[id].AwaitingRefresh? <==>
      RefreshEligible(c, afterRefresh, e) && HasRefreshToken(c.env) && !c.coord.refreshing
      && c.coord.attempts < MaxRefreshAttempts
    ensures r.calls[id].AwaitingRefresh? ==>
      && r.calls[id].original == e && r.trigger == Some(id) && r.trace == c.trace + [RefreshFetch]
      && r.coord == Coordinator(true, c.coord.attempts + 1)
    // Otherwise the call settles with this failure and nothing is sent.
    ensures r.calls[id].Settled? ==> r.calls[id] == Settled(Failed(e)) && r.trace == c.trace && r.coord == c.coord
    // Only exhausted renewals clear the credentials and navigate.
    ensures if RefreshEligible(c, afterRefresh, e) && HasRefreshToken(c.env) && !c.coord.refreshing
               && c.coord.attempts >= MaxRefreshAttempts
      then (r.env, r.redirect) == HandleAuthFailure(c.env, c.location)
      else r.env == c.env && r.redirect == c.redirect
  {
    if RefreshEligible(c, afterRefresh, e) then
      if !HasRefreshToken(c.env) then Settle(c, id, Failed(e))
      else if c.coord.refreshing then
        c.(calls := c.calls[id := Queued], queue := c.queue + [id])
      else
        match Admit(c.coord)
        case Begin(next) =>
          c.(coord := next, trigger := Some(id), calls := c.calls[id := AwaitingRefresh(e)],
             trace := c.trace + [RefreshFetch])
        case _ =>
          var (env', target) := HandleAuthFailure(c.env, c.location);
          c.(env := env', redirect := target, calls := c.calls[id := Settled(Failed(e))])
    else if retries > 0 && !Is401(e) then
      c.(calls := c.calls[id := Attempting(retries - 1, afterRefresh)], trace := c.trace + [CallFetch(id, Bearer(c, id))])
    else Settle(c, id, Failed(e))
  }

  /** The renewal's `then` / `catch` continuations, followed by the trigger's own continuation. */
  function OnRenewal(c: Client, reply: FetchResult): (r: Client)
    ensures !c.coord.refreshing || c.trigger.None? ==> r == c
    ensures c.coord.refreshing && c.trigger.Some? ==>
      && !r.coord.refreshing && r.queue == [] && r.trigger.None?
      && r.location == c.location && r.baseURL == c.baseURL && r.prepared == c.prepared
      && var t := c.trigger.value;
         var renewal := RefreshAccessToken(c.env, c.location, c.baseURL, reply);
         && (renewal.outcome.Renewed? ==>
               && r.coord.attempts == 0
               && r.env == renewal.env
               && r.trace == c.trace + FetchesOf(c, c.queue) + [CallFetch(t, Bearer(c, t))]
               && t in r.calls && r.calls[t] == Attempting(0, true)
               && (forall id :: id in c.queue && id != t ==> id in r.calls && r.calls[id] == Replaying)
               && (forall id :: id in c.calls && id !in c.queue && id != t ==> id in r.calls && r.calls[id] == c.calls[id]))
         && (renewal.outcome.RefreshFailed? ==>
               && r.coord.attempts == c.coord.attempts
               && r.trace == c.trace
               && (r.env, r.redirect) == HandleAuthFailure(renewal.env, c.location)
               && t in r.calls
               && (t in c.calls && c.calls[t].AwaitingRefresh? ==> r.calls[t] == Settled(Failed(c.calls[t].original)))
               && (forall id :: id in c.queue && id != t ==>
                     id in r.calls && r.calls[id] == Settled(Failed(renewal.outcome.error)))
               && (forall id :: id in c.calls && id !in c.queue && id != t ==> id in r.calls && r.calls[id] == c.calls[id]))
  {
    if !c.coord.refreshing || c.trigger.None? then c
    else
      var t := c.trigger.value;
      var renewal := RefreshAccessToken(c.env, c.location, c.baseURL, reply);
      match renewal.outcome
      case Renewed(_) =>
        var calls' := MarkAll(c.calls, c.queue, Replaying)[t := Attempting(0, true)];
        c.(env := renewal.env,
           redirect := if renewal.redirect.Some? then renewal.redirect else c.redirect,
           coord := Finish(c.coord, true),
           queue := [], trigger := None, calls := calls',
           trace := c.trace + FetchesOf(c, c.queue) + [CallFetch(t, Bearer(c, t))])
      case RefreshFailed(err) =>
        var (env', target) := HandleAuthFailure(renewal.env, c.location);
        var original := if t in c.calls && c.calls[t].AwaitingRefresh? then Failed(c.calls[t].original) else Failed(err);
        var calls' := MarkAll(c.calls, c.queue, Settled(Failed(err)))[t := Settled(original)];
        c.(env := env', redirect := target, coord := Finish(c.coord, false),
           queue := [], trigger := None, calls := calls')
  }

  /** One event: a new call sends its first attempt (a reused id is ignored), a settled attempt
      goes through `OnFailure` or settles its call, and a settled renewal goes through `OnRenewal`.
      No call is ever forgotten, the trace of requests only grows, and the page stays put. */
  function Step(c: Client, e: Event): (r: Client)
    ensures forall id :: id in c.calls ==> id in r.calls
    ensures c.trace <= r.trace
    ensures r.location == c.location && r.baseURL == c.baseURL
    ensures e.Start? && e.id !in c.calls ==>
      && r.calls == c.calls[e.id := Attempting(e.retries, false)]
      && r.prepared == c.prepared[e.id := RequestBuilder.AuthToken(None, c.env)]
      && r.trace == c.trace + [CallFetch(e.id, RequestBuilder.AuthToken(None, c.env))]
    // A call's request is prepared once, when it starts.
    ensures !(e.Start? && e.id !in c.calls) ==> r.prepared == c.prepared
    ensures e.Start? && e.id in c.calls ==> r == c
    ensures e.AttemptSettled? && e.outcome.Success? && e.id in c.calls
            && (c.calls[e.id].Attempting? || c.calls[e.id].Replaying?) ==>
      r == c.(calls := c.calls[e.id := Settled(e.outcome)])
    ensures e.AttemptSettled? && (e.id !in c.calls || !(c.calls[e.id].Attempting? || c.calls[e.id].Replaying?)) ==> r == c
  {
    match e
    case Start(id, retries) =>
      if id in c.calls then c
      else
        var bearer := RequestBuilder.AuthToken(None, c.env);
        c.(calls := c.calls[id := Attempting(retries, false)], prepared := c.prepared[id := bearer],
           trace := c.trace + [CallFetch(id, bearer)])
    case AttemptSettled(id, o) =>
      if id !in c.calls then c
      else (
        match c.calls[id]
        case Attempting(retries, afterRefresh) =>
          if o.Success? then Settle(c, id, o) else OnFailure(c, id, retries, afterRefresh, o.error)
        case Replaying => Settle(c, id, o)
        case _ => c)
    case RenewalSettled(reply) => OnRenewal(c, reply)
  }

  /** A sequence of events, in order. */
  function Run(c: Client, es: seq<Event>): (r: Client)
    ensures forall id :: id in c.calls ==> id in r.calls
    ensures c.trace <= r.trace
    ensures r.location == c.location && r.baseURL == c.baseURL
    decreases |es|
  {
    if |es| == 0 then c else Run(Step(c, es[0]), es[1..])
  }

  /** The renewal's continuations with every re-sent call prepared again: the parked calls and
      the trigger carry the token the store holds once the renewal has settled. Everything but
      the bearer of those requests is as in `OnRenewal`. */
  function OnRenewalCorrected(c: Client, reply: FetchResult): (r: Client)
    ensures var w := OnRenewal(c, reply);
      && r.(prepared := w.prepared, trace := w.trace) == w
      && |r.trace| == |w.trace| && r.trace[..|c.trace|] == c.trace
      && forall i :: 0 <= i < |r.trace| ==>
           (r.trace[i].CallFetch? <==> w.trace[i].CallFetch?) && (r.trace[i].CallFetch? ==> r.trace[i].id == w.trace[i].id)
    ensures c.coord.refreshing && c.trigger.Some?
            && RefreshAccessToken(c.env, c.location, c.baseURL, reply).outcome.Renewed? ==>
      && c.trigger.value in r.prepared && r.prepared[c.trigger.value] == RequestBuilder.AuthToken(None, r.env)
      && forall id :: id in c.queue ==> id in r.prepared && r.prepared[id] == RequestBuilder.AuthToken(None, r.env)
  {
    var w := OnRenewal(c, reply);
    if !c.coord.refreshing || c.trigger.None? then w
    else
      var renewal := RefreshAccessToken(c.env, c.location, c.baseURL, reply);
      if renewal.outcome.RefreshFailed? then w
      else
        var t := c.trigger.value;
        var bearer := RequestBuilder.AuthToken(None, renewal.env);
        var prepared' := MarkAll(c.prepared, c.queue, bearer)[t := bearer];
        var reprepared := c.(prepared := prepared');
        w.(prepared := prepared', trace := c.trace + FetchesOf(reprepared, c.queue) + [CallFetch(t, bearer)])
  }

  /** The client with the corrected renewal continuation: it takes the same calls through the
      same phases, sends the same requests in the same order, and differs only in their tokens. */
  function StepCorrected(c: Client, e: Event): (r: Client)
    ensures var w := Step(c, e);
      && r.calls == w.calls && r.env == w.env && r.coord == w.coord && r.queue == w.queue
      && |r.trace| == |w.trace|
      && forall i :: 0 <= i < |r.trace| ==>
           (r.trace[i].CallFetch? <==> w.trace[i].CallFetch?) && (r.trace[i].CallFetch? ==> r.trace[i].id == w.trace[i].id)
  {
    match e
    case RenewalSettled(reply) => OnRenewalCorrected(c, reply)
    case _ => Step(c, e)
  }

  function RunCorrected(c: Client, es: seq<Event>): Client
    decreases |es|
  {
    if |es| == 0 then c else RunCorrected(StepCorrected(c, es[0]), es[1..])
  }

  /** With the correction, every request a successful renewal re-sends carries the token the
      store now holds, which is the renewed `data.token` whenever that is a non-empty string. */
  lemma CorrectedReplaysCarryRenewedToken(c: Client, reply: FetchResult)
    requires c.coord.refreshing && c.trigger.Some?
    requires RefreshAccessToken(c.env, c.location, c.baseURL, reply).outcome.Renewed?
    ensures var r := OnRenewalCorrected(c, reply);
      && |r.trace| == |c.trace| + |c.queue| + 1
      && forall i :: |c.trace| <= i < |r.trace| ==>
           r.trace[i].CallFetch? && r.trace[i].bearer == RequestBuilder.AuthToken(None, r.env)
    ensures var token := RefreshAccessToken(c.env, c.location, c.baseURL, reply).outcome.token;
      token.Str? && token.s != "" ==> RequestBuilder.AuthToken(None, OnRenewalCorrected(c, reply).env) == Some(token.s)
  {
    var renewal := RefreshAccessToken(c.env, c.location, c.baseURL, reply);
    var r := OnRenewalCorrected(c, reply);
    var bearer := RequestBuilder.AuthToken(None, renewal.env);
    var reprepared := c.(prepared := MarkAll(c.prepared, c.queue, bearer)[c.trigger.value := bearer]);
    assert r.trace == c.trace + FetchesOf(reprepared, c.queue) + [CallFetch(c.trigger.value, bearer)];
    forall i | |c.trace| <= i < |r.trace|
      ensures r.trace[i].CallFetch? && r.trace[i].bearer == bearer
    {
      if i < |c.trace| + |c.queue| {
        assert r.trace[i] == FetchesOf(reprepared, c.queue)[i - |c.trace|];
      }
    }
  }

  /** The client's bookkeeping invariant. */
  ghost predicate Inv(c: Client) {
    && c.coord.attempts <= MaxRefreshAttempts
    && (c.coord.refreshing <==> c.trigger.Some?)
    && (c.trigger.Some? ==> c.trigger.value in c.calls && c.calls[c.trigger.value].AwaitingRefresh?)
    && (forall id :: id in c.calls && c.calls[id].AwaitingRefresh? ==> c.trigger == Some(id))
    && (forall i :: 0 <= i < |c.queue| ==> c.queue[i] in c.calls && c.calls[c.queue[i]].Queued?)
    && (forall id :: id in c.calls && c.calls[id].Queued? ==> id in c.queue)
    && (forall i, j :: 0 <= i < j < |c.queue| ==> c.queue[i] != c.queue[j])
    && (|c.queue| > 0 ==> c.coord.refreshing)
    && (c.coord.refreshing ==> c.env.browser && HasRefreshToken(c.env))
  }

  lemma InitInv(env: AuthStorage.Env, location: Location, baseURL: string)
    ensures Inv(Init(env, location, baseURL))
  {
  }

  lemma StartPreservesInv(c: Client, id: CallId, retries: nat)
    requires Inv(c)
    ensures Inv(Step(c, Start(id, retries)))
  {
  }

  lemma FailurePreservesInv(c: Client, id: CallId, retries: nat, afterRefresh: bool, e: Failure)
    requires Inv(c)
    requires id in c.calls && c.calls[id] == Attempting(retries, afterRefresh)
    ensures Inv(OnFailure(c, id, retries, afterRefresh, e))
  {
    var r := OnFailure(c, id, retries, afterRefresh, e);
    if RefreshEligible(c, afterRefresh, e) && HasRefreshToken(c.env) && c.coord.refreshing {
      assert id !in c.queue;
      assert forall i :: 0 <= i < |r.queue| ==> r.queue[i] in r.calls && r.calls[r.queue[i]].Queued? by {
        forall i | 0 <= i < |r.queue|
          ensures r.queue[i] in r.calls && r.calls[r.queue[i]].Queued?
        {
          if i < |c.queue| {
            assert r.queue[i] == c.queue[i];
          }
        }
      }
    }
  }

  lemma RenewalPreservesInv(c: Client, reply: FetchResult)
    requires Inv(c)
    ensures Inv(OnRenewal(c, reply))
  {
    var r := OnRenewal(c, reply);
    if c.coord.refreshing {
      var t := c.trigger.value;
      assert t !in c.queue;
      var renewal := RefreshAccessToken(c.env, c.location, c.baseURL, reply);
      assert forall id :: id in r.calls ==> id in c.calls;
      if renewal.outcome.Renewed? {
        assert forall id :: id in r.calls ==> !r.calls[id].Queued? && !r.calls[id].AwaitingRefresh?;
      } else {
        assert forall id :: id in r.calls ==> !r.calls[id].Queued? && !r.calls[id].AwaitingRefresh?;
      }
    }
  }

  /** Every event preserves the bookkeeping invariant. */
  lemma StepPreservesInv(c: Client, e: Event)
    requires Inv(c)
    ensures Inv(Step(c, e))
  {
    match e
    case Start(id, retries) => StartPreservesInv(c, id, retries);
    case AttemptSettled(id, o) =>
      if id in c.calls && c.calls[id].Attempting? && o.Failed? {
        FailurePreservesInv(c, id, c.calls[id].retries, c.calls[id].afterRefresh, o.error);
      }
    case RenewalSettled(reply) => RenewalPreservesInv(c, reply);
  }

  lemma {:induction false} RunPreservesInv(c: Client, es: seq<Event>)
    requires Inv(c)
    ensures Inv(Run(c, es))
    decreases |es|
  {
    if |es| > 0 {
      StepPreservesInv(c, es[0]);
      RunPreservesInv(Step(c, es[0]), es[1..]);
    }
  }

  /** Single flight: in any reachable state at most one call waits on a renewal, and the
      consecutive-attempt counter never exceeds its bound. */
  lemma SingleFlight(es: seq<Event>, env: AuthStorage.Env, location: Location, baseURL: string)
    ensures var c := Run(Init(env, location, baseURL), es);
      && c.coord.attempts <= MaxRefreshAttempts
      && (forall a, b :: a in c.calls && b in c.calls && c.calls[a].AwaitingRefresh? && c.calls[b].AwaitingRefresh? ==> a == b)
  {
    InitInv(env, location, baseURL);
    RunPreservesInv(Init(env, location, baseURL), es);
  }

  /** The trace only grows, and a renewal request is sent only when none is in flight,
      after which one is. */
  lemma RefreshFetchOnlyWhenIdle(c: Client, e: Event)
    requires Inv(c)
    ensures |Step(c, e).trace| >= |c.trace| && Step(c, e).trace[..|c.trace|] == c.trace
    ensures RefreshFetch in Step(c, e).trace[|c.trace|..] ==> !c.coord.refreshing && Step(c, e).coord.refreshing
  {
    var r := Step(c, e);
    match e
    case Start(_, _) =>
    case AttemptSettled(id, o) =>
    case RenewalSettled(reply) =>
      if c.coord.refreshing {
        var t := c.trigger.value;
        var renewal := RefreshAccessToken(c.env, c.location, c.baseURL, reply);
        if renewal.outcome.Renewed? {
          assert r.trace[|c.trace|..] == FetchesOf(c, c.queue) + [CallFetch(t, Bearer(c, t))];
        }
      }
  }

  /** A settled call never changes again: each call settles exactly once. */
  lemma SettledIsFinal(c: Client, e: Event, id: CallId)
    requires Inv(c)
    requires id in c.calls && c.calls[id].Settled?
    ensures id in Step(c, e).calls && Step(c, e).calls[id] == c.calls[id]
  {
    match e
    case Start(_, _) =>
    case AttemptSettled(_, _) =>
    case RenewalSettled(_) =>
      if c.coord.refreshing {
        assert id !in c.queue;
      }
  }

  function Failures(id: CallId, errs: seq<Failure>): (es: seq<Event>)
    ensures |es| == |errs|
    ensures forall i :: 0 <= i < |errs| ==> es[i] == AttemptSettled(id, Failed(errs[i]))
  {
    seq(|errs|, i requires 0 <= i < |errs| => AttemptSettled(id, Failed(errs[i])))
  }

  function Repeat(f: Fetch, n: nat): (r: seq<Fetch>)
    ensures |r| == n
    ensures forall i :: 0 <= i < n ==> r[i] == f
  {
    seq(n, _ => f)
  }

  /** A call with budget `retries` that keeps failing with errors other than 401 is re-sent once
      per failure while budget remains, and nothing else in the client changes. */
  lemma {:induction false} RetriesConsumeBudget(c: Client, id: CallId, retries: nat, afterRefresh: bool, errs: seq<Failure>)
    requires id in c.calls && c.calls[id] == Attempting(retries, afterRefresh)
    requires |errs| <= retries
    requires forall i :: 0 <= i < |errs| ==> !Is401(errs[i])
    ensures var r := Run(c, Failures(id, errs));
      && r == c.(calls := c.calls[id := Attempting(retries - |errs|, afterRefresh)],
                 trace := c.trace + Repeat(CallFetch(id, Bearer(c, id)), |errs|))
    decreases |errs|
  {
    if |errs| > 0 {
      var c1 := Step(c, AttemptSettled(id, Failed(errs[0])));
      assert c1 == c.(calls := c.calls[id := Attempting(retries - 1, afterRefresh)], trace := c.trace + [CallFetch(id, Bearer(c, id))]);
      assert Failures(id, errs)[1..] == Failures(id, errs[1..]);
      RetriesConsumeBudget(c1, id, retries - 1, afterRefresh, errs[1..]);
      assert c1.trace + Repeat(CallFetch(id, Bearer(c, id)), |errs| - 1) == c.trace + Repeat(CallFetch(id, Bearer(c, id)), |errs|);
      assert c1.calls[id := Attempting(retries - 1 - (|errs| - 1), afterRefresh)]
          == c.calls[id := Attempting(retries - |errs|, afterRefresh)];
    }
  }

  /** Retry budget: a call started with `retries` whose every attempt fails with a non-401 error is
      sent exactly `retries + 1` times and then settles with the last error. */
  lemma RetryBudget(c: Client, id: CallId, retries: nat, errs: seq<Failure>)
    requires id !in c.calls
    requires |errs| == retries + 1
    requires forall i :: 0 <= i < |errs| ==> !Is401(errs[i])
    ensures var r := Run(c, [Start(id, retries)] + Failures(id, errs));
      && r.trace == c.trace + Repeat(CallFetch(id, RequestBuilder.AuthToken(None, c.env)), retries + 1)
      && id in r.calls && r.calls[id] == Settled(Failed(errs[retries]))
  {
    var c0 := Step(c, Start(id, retries));
    assert ([Start(id, retries)] + Failures(id, errs))[1..] == Failures(id, errs);
    assert Failures(id, errs) == Failures(id, errs[..retries]) + [AttemptSettled(id, Failed(errs[retries]))];
    RetriesConsumeBudget(c0, id, retries, false, errs[..retries]);
    RunAppend(c0, Failures(id, errs[..retries]), [AttemptSettled(id, Failed(errs[retries]))]);
    var c1 := Run(c0, Failures(id, errs[..retries]));
    assert c1.calls[id] == Attempting(0, false);
    assert c1.trace == c.trace + Repeat(CallFetch(id, RequestBuilder.AuthToken(None, c.env)), retries + 1);
  }

  lemma {:induction false} RunAppend(c: Client, a: seq<Event>, b: seq<Event>)
    ensures Run(c, a + b) == Run(Run(c, a), b)
    decreases |a|
  {
    if |a| > 0 {
      assert (a + b)[1..] == a[1..] + b;
      RunAppend(Step(c, a[0]), a[1..], b);
    } else {
      assert a + b == b;
    }
  }

  lemma RunThree(c: Client, e1: Event, e2: Event, e3: Event)
    ensures Run(c, [e1, e2, e3]) == Step(Step(Step(c, e1), e2), e3)
  {
    var c1 := Step(c, e1);
    var c2 := Step(c1, e2);
    assert [e1, e2, e3][1..] == [e2, e3];
    assert Run(c, [e1, e2, e3]) == Run(c1, [e2, e3]);
    assert [e2, e3][1..] == [e3];
    assert Run(c1, [e2, e3]) == Run(c2, [e3]);
    assert [e3][1..] == [];
    assert Run(c2, [e3]) == Run(Step(c2, e3), []);
  }

  /** A 401 never consumes the retry budget: the call is not re-sent directly, but parked,
      handed to a renewal, or settled. */
  lemma UnauthorizedNeverRetried(c: Client, id: CallId, e: Failure)
    requires Inv(c)
    requires id in c.calls && (c.calls[id].Attempting? || c.calls[id].Replaying?)
    requires Is401(e)
    ensures var r := Step(c, AttemptSettled(id, Failed(e)));
      && id in r.calls && !r.calls[id].Attempting?
      && forall f :: f in r.trace[|c.trace|..] ==> f == RefreshFetch
  {
    var r := Step(c, AttemptSettled(id, Failed(e)));
    assert r.trace == c.trace || r.trace == c.trace + [RefreshFetch];
  }

  /** A replayed call that fails with 401 again rejects with that 401 as is: no second renewal,
      no clearing of credentials and no redirect. */
  lemma ReplayUnauthorizedSurfaces(c: Client, id: CallId, e: Failure)
    requires id in c.calls && (c.calls[id] == Attempting(0, true) || c.calls[id] == Replaying)
    requires Is401(e)
    ensures Step(c, AttemptSettled(id, Failed(e))) == c.(calls := c.calls[id := Settled(Failed(e))])
  {
  }

  /** After two consecutive failed renewals a 401 clears credentials and redirects to the
      login page, without sending anything. */
  lemma ExhaustedRenewalsSettle(c: Client, id: CallId, retries: nat, e: Failure)
    requires !c.coord.refreshing && c.coord.attempts >= MaxRefreshAttempts
    requires c.env.browser && HasRefreshToken(c.env)
    requires id in c.calls && c.calls[id] == Attempting(retries, false)
    requires Is401(e)
    ensures var r := Step(c, AttemptSettled(id, Failed(e)));
      && r.trace == c.trace
      && r.calls[id] == Settled(Failed(e))
      && AuthStorage.GetAuthTokens(r.env) == AuthStorage.AuthTokens(None, None)
      && r.redirect.Some?
  {
  }

  /** A 401 without a stored refresh token rejects at once, touching nothing else. */
  lemma NoRefreshTokenSettles(c: Client, id: CallId, retries: nat, e: Failure)
    requires !HasRefreshToken(c.env)
    requires id in c.calls && c.calls[id] == Attempting(retries, false)
    requires Is401(e)
    ensures Step(c, AttemptSettled(id, Failed(e))) == c.(calls := c.calls[id := Settled(Failed(e))])
  {
  }

  /** Two calls rejected with 401 while no renewal runs share a single renewal; when it succeeds the
      parked call is re-sent first, then the call that started the renewal, each exactly once. */
  lemma ConcurrentUnauthorizedShareOneRenewal(c: Client, a: CallId, b: CallId, ka: nat, kb: nat,
                                              ea: Failure, eb: Failure, reply: FetchResult)
    requires Inv(c)
    requires !c.coord.refreshing && c.coord.attempts < MaxRefreshAttempts
    requires c.env.browser && HasRefreshToken(c.env)
    requires a != b
    requires a in c.calls && c.calls[a] == Attempting(ka, false)
    requires b in c.calls && c.calls[b] == Attempting(kb, false)
    requires Is401(ea) && Is401(eb)
    requires RefreshAccessToken(c.env, c.location, c.baseURL, reply).outcome.Renewed?
    ensures var r := Run(c, [AttemptSettled(a, Failed(ea)), AttemptSettled(b, Failed(eb)), RenewalSettled(reply)]);
      && r.trace == c.trace + [RefreshFetch, CallFetch(b, Bearer(c, b)), CallFetch(a, Bearer(c, a))]
      && a in r.calls && r.calls[a] == Attempting(0, true)
      && b in r.calls && r.calls[b] == Replaying
      && r.coord == Coordinator(false, 0)
  {
    var c1 := Step(c, AttemptSettled(a, Failed(ea)));
    assert c1.trigger == Some(a) && c1.coord.refreshing && c1.env == c.env;
    var c2 := Step(c1, AttemptSettled(b, Failed(eb)));
    assert c2.queue == [b] && c2.env == c.env;
    var c3 := Step(c2, RenewalSettled(reply));
    assert FetchesOf(c2, [b]) == [CallFetch(b, Bearer(c, b))];
    assert c3.trace == c.trace + [RefreshFetch, CallFetch(b, Bearer(c, b)), CallFetch(a, Bearer(c, a))];
    RunThree(c, AttemptSettled(a, Failed(ea)), AttemptSettled(b, Failed(eb)), RenewalSettled(reply));
  }

  /** When that shared renewal fails instead, the parked call rejects with the renewal's error,
      the call that started it rejects with its own original 401, and credentials are cleared. */
  lemma ConcurrentUnauthorizedRenewalFails(c: Client, a: CallId, b: CallId, ka: nat, kb: nat,
                                           ea: Failure, eb: Failure, reply: FetchResult)
    requires Inv(c)
    requires !c.coord.refreshing && c.coord.attempts < MaxRefreshAttempts
    requires c.env.browser && HasRefreshToken(c.env)
    requires a != b
    requires a in c.calls && c.calls[a] == Attempting(ka, false)
    requires b in c.calls && c.calls[b] == Attempting(kb, false)
    requires Is401(ea) && Is401(eb)
    requires RefreshAccessToken(c.env, c.location, c.baseURL, reply).outcome.RefreshFailed?
    ensures var r := Run(c, [AttemptSettled(a, Failed(ea)), AttemptSettled(b, Failed(eb)), RenewalSettled(reply)]);
      && r.trace == c.trace + [RefreshFetch]
      && a in r.calls && r.calls[a] == Settled(Failed(ea))
      && b in r.calls && r.calls[b] == Settled(Failed(RefreshAccessToken(c.env, c.location, c.baseURL, reply).outcome.error))
      && r.coord == Coordinator(false, c.coord.attempts + 1)
      && AuthStorage.GetAuthTokens(r.env) == AuthStorage.AuthTokens(None, None)
  {
    var c1 := Step(c, AttemptSettled(a, Failed(ea)));
    assert c1.trigger == Some(a) && c1.coord.refreshing && c1.env == c.env;
    var c2 := Step(c1, AttemptSettled(b, Failed(eb)));
    assert c2.queue == [b] && c2.env == c.env;
    var c3 := Step(c2, RenewalSettled(reply));
    RunThree(c, AttemptSettled(a, Failed(ea)), AttemptSettled(b, Failed(eb)), RenewalSettled(reply));
  }

  /** The reply of a renewal the server accepts, handing out `token` and `refresh_token`. */
  function AcceptedRenewal(t: string, rt: string): FetchResult {
    Responded(Response(200, "OK", Some("application/json"), "",
                       Parsed(Obj([("code", Num(0)), ("data", Obj([("token", Str(t)), ("refresh_token", Str(rt))]))]))))
  }

  /** As written, a call rejected with 401 is re-sent after a successful renewal with the request
      it was prepared with: its `Authorization` header still carries the token the server has just
      rejected, while the store already holds the renewed one. */
  lemma StaleBearerAfterRenewal(env: AuthStorage.Env, loc: Location, baseURL: string, a: CallId, k: nat,
                                e: Failure, stale: string, t: string, rt: string)
    requires env.browser && HasRefreshToken(env)
    requires AuthStorage.Get(env.storage, AuthStorage.TokenKey) == Some(stale) && stale != ""
    requires Is401(e) && t != "" && rt != "" && t != stale
    ensures var r := Run(Init(env, loc, baseURL), [Start(a, k), AttemptSettled(a, Failed(e)), RenewalSettled(AcceptedRenewal(t, rt))]);
      && r.trace == [CallFetch(a, Some(stale)), RefreshFetch, CallFetch(a, Some(stale))]
      && RequestBuilder.AuthToken(None, r.env) == Some(t)
  {
    var c0 := Init(env, loc, baseURL);
    var c1 := Step(c0, Start(a, k));
    assert c1.trace == [CallFetch(a, Some(stale))] && Bearer(c1, a) == Some(stale);
    var c2 := Step(c1, AttemptSettled(a, Failed(e)));
    assert c2.trigger == Some(a) && c2.queue == [] && c2.env == env;
    RenewalStoresTokens(env, loc, baseURL, t, rt);
    var c3 := Step(c2, RenewalSettled(AcceptedRenewal(t, rt)));
    assert c3.trace == [CallFetch(a, Some(stale)), RefreshFetch, CallFetch(a, Some(stale))];
    RunThree(c0, Start(a, k), AttemptSettled(a, Failed(e)), RenewalSettled(AcceptedRenewal(t, rt)));
  }

  lemma RunCorrectedThree(c: Client, e1: Event, e2: Event, e3: Event)
    ensures RunCorrected(c, [e1, e2, e3]) == StepCorrected(StepCorrected(StepCorrected(c, e1), e2), e3)
  {
    var c1 := StepCorrected(c, e1);
    var c2 := StepCorrected(c1, e2);
    assert [e1, e2, e3][1..] == [e2, e3];
    assert RunCorrected(c, [e1, e2, e3]) == RunCorrected(c1, [e2, e3]);
    assert [e2, e3][1..] == [e3];
    assert RunCorrected(c1, [e2, e3]) == RunCorrected(c2, [e3]);
    assert [e3][1..] == [];
    assert RunCorrected(c2, [e3]) == RunCorrected(StepCorrected(c2, e3), []);
  }

  /** One accepted renewal under the correction, with nothing parked: the trigger is re-sent
      once, with the renewed token. */
  lemma CorrectedTriggerResent(c: Client, a: CallId, t: string, rt: string)
    requires c.coord.refreshing && c.trigger == Some(a) && c.queue == []
    requires c.env.browser && HasRefreshToken(c.env)
    requires t != "" && rt != ""
    ensures var r := OnRenewalCorrected(c, AcceptedRenewal(t, rt));
      && r.trace == c.trace + [CallFetch(a, Some(t))]
      && RequestBuilder.AuthToken(None, r.env) == Some(t)
  {
    RenewalStoresTokens(c.env, c.location, c.baseURL, t, rt);
    CorrectedReplaysCarryRenewedToken(c, AcceptedRenewal(t, rt));
    var r := OnRenewalCorrected(c, AcceptedRenewal(t, rt));
    var w := OnRenewal(c, AcceptedRenewal(t, rt));
    assert w.trace == c.trace + [CallFetch(a, Bearer(c, a))];
    assert r.trace[|c.trace|].id == a;
    assert r.trace == r.trace[..|c.trace|] + [r.trace[|c.trace|]];
  }

  /** With the correction, the same run re-sends the call with the renewed token. */
  lemma CorrectedRenewalSendsRenewedToken(env: AuthStorage.Env, loc: Location, baseURL: string, a: CallId, k: nat,
                                          e: Failure, stale: string, t: string, rt: string)
    requires env.browser && HasRefreshToken(env)
    requires AuthStorage.Get(env.storage, AuthStorage.TokenKey) == Some(stale) && stale != ""
    requires Is401(e) && t != "" && rt != ""
    ensures var r := RunCorrected(Init(env, loc, baseURL), [Start(a, k), AttemptSettled(a, Failed(e)), RenewalSettled(AcceptedRenewal(t, rt))]);
      && r.trace == [CallFetch(a, Some(stale)), RefreshFetch, CallFetch(a, Some(t))]
      && RequestBuilder.AuthToken(None, r.env) == Some(t)
  {
    var c0 := Init(env, loc, baseURL);
    var c1 := Step(c0, Start(a, k));
    assert c1.trace == [CallFetch(a, Some(stale))];
    var c2 := Step(c1, AttemptSettled(a, Failed(e)));
    assert c2.trigger == Some(a) && c2.coord.refreshing && c2.queue == [] && c2.env == env;
    assert c2.trace == [CallFetch(a, Some(stale)), RefreshFetch];
    CorrectedTriggerResent(c2, a, t, rt);
    RunCorrectedThree(c0, Start(a, k), AttemptSettled(a, Failed(e)), RenewalSettled(AcceptedRenewal(t, rt)));
  }
}
