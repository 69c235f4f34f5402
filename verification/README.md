# tp-edit client core in Dafny

This project models the client side of tp-edit, a rich-text editor built on Next.js and Tiptap,
and proves properties of that model. The model covers:

- **The request layer.** The request builder injects the bearer token and places parameters in
  the query string or the body. The response interceptor checks the HTTP status and then the
  `{code, message, data}` envelope. The retry executor retries ordinary failures within a
  budget. The token-refresh coordinator is single-flight, with a FIFO replay queue and at most
  two consecutive renewals. The error dispatcher picks a hook by precedence and always returns a
  `{data, error, status}` result.
- **The credential store** kept in `localStorage`.
- **The server-side route guard.**
- **The AI API:** request bodies, stream-chunk decoding and stream-error routing. The
  generation hook's accumulator is modelled too.
- **Editor extensions:**
  - the AI node;
  - the image block;
  - the callout, including its `:::` input rule;
  - the code block's Tab and select-all keys.
- **Table utilities:**
  - position arithmetic for inserting columns and rows;
  - selection classification and selection-rectangle tests;
  - cell collection and row/column/table selection;
  - the grip and add-row widgets.
- **Pop-up menus:** the slash-menu filter and its key handler, the emoji suggestion filter and
  its list, and the table-size picker.
- **The sign-up and login forms:** validation rules and how each handles its result.

JavaScript values are written as the datatype `Js.Value`. The model also spells out:

- truthiness;
- `||` versus `??`, and optional chaining;
- `%` on negative numbers;
- a NaN index, written `None`.

Browser and library services are parameters or oracles:

- `fetch` outcomes are values of a response datatype. The timeout race is a flag saying which
  side settled first.
- `JSON.parse` results are values of a parse-result datatype.
- `encodeURIComponent` is a function parameter, and so is the URL-encoded form serializer
  (section 5.2 of the WHATWG URL Standard).
- ProseMirror's `TableMap.cellsInRect` and `rectBetween` are uninterpreted functions inside a
  table-map datatype.

The request layer's concurrency is a sequential state machine, `RequestClient`. Its state holds:

- the store;
- the refresh coordinator (`refreshing`, `attempts`);
- the FIFO queue and the call that triggered the renewal;
- each call's phase;
- a trace of the fetches sent.

It is driven by atomic events: a call starts, an attempt settles, the renewal settles.

`utilsTable.ts` repeats `isRectSelected`, `isColumnSelected`, `isRowSelected` and
`getCellsInColumn` with the same behaviour as `utils.ts`. Those are stated once, in `TableUtils`.
Only its `selectColumn`/`selectRow` differ, and `UtilsTable` models those.

Where the written code and its description disagree, the model follows the code:

- A replay's second 401 surfaces as-is. Credentials are not cleared for it, because the
  re-entrant calls inside the `try` of `executeWithRetry` are returned without `await`.
- Queued calls replay the bare request function, without retries or a second refresh.
- A failed renewal rejects the triggering call with its original 401, and rejects the queued
  calls with the renewal error.
- `attempts` resets only when a renewal succeeds. After two consecutive failed renewals, refresh
  stays locked out for the instance's lifetime. A 401 then clears credentials and redirects, but
  only if a refresh token has been written back to the store meanwhile. Otherwise it just settles.
- Every attempt and every post-renewal replay of a call sends the request prepared when the call
  started, so the replays carry the token that was just rejected (see "## Findings").

## Model

| member | source | states |
|---|---|---|
| Http.NumericCodeFails | src/api/request.ts:349-354 | a numeric envelope code fails exactly when it is non-zero and outside [200, 300) |
| RequestBuilder.AuthToken | src/api/request.ts:274 | an explicit non-empty token wins; otherwise the stored `auth_token` is used, and only in a browser and when non-empty |
| RequestBuilder.Defined | src/api/request.ts:286 | an order-preserving subsequence of the entries holding exactly those whose value is not `undefined` |
| RequestBuilder.DefinedPairs | src/api/request.ts:284-288 | one pair per entry whose value is not `undefined`, in `Object.entries` order, with the key kept and the value stringified; so every defined parameter appears and nothing else does |
| RequestBuilder.QueryEmptyIff | src/api/request.ts:284-289 | the encoded query is empty exactly when there is no pair to encode, so "?" is appended only to a non-empty query |
| RequestBuilder.Prepare | src/api/request.ts:264-311 | Authorization is "Bearer " + the resolved token, or else the caller's own header survives; all other caller headers are kept; GET/DELETE put the defined parameters in the URL and send no body; other verbs keep the URL, pass FormData/URLSearchParams through, and send objects as JSON with a default content type that never overrides the caller's |
| RequestBuilder.UndefinedParamDropped | src/api/request.ts:284-289 | a GET with `{a: 1, b: undefined}` sends only `a=1` |
| RequestBuilder.ApiBase | src/api/request.ts:613 | the base URL is the configured prefix with all trailing slashes removed, followed by "/api" |
| RequestBuilder.StripTrailingSlashes | src/api/request.ts:613 | the result is a prefix of the input that does not end in "/", and everything removed is "/" |
| RequestBuilder.InstanceDefaults | src/api/request.ts:101-105 | a zero timeout or retry delay is replaced by 10000 or 1000; the retry count is kept as given |
| RequestBuilder.CallSetting | src/api/request.ts:501-503 | a per-call setting overrides the instance default, and an absent one falls back to it |
| ResponseInterceptor.DefaultErrorMessage | src/api/request.ts:322-323 | a status in the message table gets that message; any other gets "HTTP 错误: status statusText" |
| ResponseInterceptor.HttpError | src/api/request.ts:321-340 | a non-2xx response raises an error carrying status and statusText; a JSON-typed body gives its truthy `message`, else the default, and becomes the error's data; any other body gives its non-empty text, else the default |
| ResponseInterceptor.EnvelopeMessage | src/api/request.ts:356 | a failing envelope reports `message`, else `reason`, else "请求失败" |
| ResponseInterceptor.PrimitiveBodiesPass | src/api/request.ts:349-354 | a JSON body that is not an object never fails the envelope test |
| ResponseInterceptor.Intercept | src/api/request.ts:314-368 | non-2xx responses fail with the HTTP error; a non-JSON 2xx response is returned raw; an unparsable body fails with "解析响应数据失败"; a parsed body fails exactly when its envelope code fails, keeping the HTTP status |
| ResponseInterceptor.Attempt | src/api/request.ts:518-524 | with a timeout that fires first the attempt fails with a timeout; otherwise a rejected fetch gives its error and a response goes through the interceptor |
| ResponseInterceptor.Only401ResponsesRefresh | src/api/request.ts:379-383 | an attempt fails with a 401 only when the server answered 401 or the fetch itself rejected with a 401 |
| ResponseInterceptor.EnvelopeCodeKeepsHttpStatus | src/api/request.ts:349-361 | an HTTP 200 whose envelope code is 401 fails with status 200, not 401 |
| TokenRefresh.HandleAuthFailure | src/api/request.ts:131-142 | both tokens are removed; in a browser the target is plain "/login" exactly when path+query is "" or "/login", and otherwise "/login?redirect_to=" carrying path+query |
| TokenRefresh.AuthFailureIdempotent | src/api/request.ts:131-142 | handling an authentication failure twice is the same as once |
| TokenRefresh.StoreRenewed | src/api/request.ts:194-200 | only the truthy token fields of a renewal are written, in a browser; every other key is unchanged |
| TokenRefresh.RefreshAccessToken | src/api/request.ts:144-207 | without a stored refresh token nothing is sent and nothing is cleared; after the POST every failure clears credentials and redirects; the failure messages are those of rejection, non-2xx, unparsable reply and failing code; success returns `data.token` and stores the renewed fields; conversely, once sent, a 2xx JSON object that passes the envelope check and has a `data.token` field always renews, with that value |
| TokenRefresh.RenewalStoresTokens | src/api/request.ts:194-202 | a successful renewal with a token pair leaves exactly that pair in the store |
| TokenRefresh.Admit | src/api/request.ts:209-224 | a caller joins an in-flight renewal; with two attempts used no renewal starts; otherwise a renewal starts and the attempt count rises by one |
| TokenRefresh.Finish | src/api/request.ts:227-239 | a settled renewal clears the in-flight flag; success resets the attempt count and failure keeps it |
| TokenRefresh.TwoFailuresLockOut | src/api/request.ts:214-239 | after two failed renewals no further renewal can start |
| TokenRefresh.AttemptsBounded | src/api/request.ts:214-224 | the attempt count never exceeds two |
| RequestClient.OnRenewal | src/api/request.ts:226-256 | a settled renewal empties the queue and clears the trigger; on success it replays every queued call in FIFO order and then the trigger once with retries 0, each request carrying the bearer token its call was prepared with; on failure each queued call gets the renewal error and the trigger its original 401; other calls are untouched |
| RequestClient.OnFailure | src/api/request.ts:370-416 | only the failing call changes. A non-401 failure with budget left is re-sent with one retry fewer. A refreshable 401 joins a running renewal, starts one (one refresh request, attempt count + 1) or settles the call. It settles when there is no refresh token, or when renewals are exhausted, and only the exhausted case clears credentials and navigates. Every other failure settles the call with that failure and sends nothing |
| RequestClient.Step | src/api/request.ts:370-416 | a new call sends its first attempt, prepared once with the stored token and never prepared again; a reused id is ignored, a success settles the call, and a stale attempt changes nothing; no call is forgotten and the request trace only grows |
| RequestClient.Run | src/api/request.ts:370-416 | along any event sequence no call is forgotten and the request trace only grows |
| RequestClient.InitInv | src/api/request.ts:87-91 | a fresh client satisfies the coordinator invariant |
| RequestClient.StartPreservesInv | src/api/request.ts:370-416 | starting a call preserves the invariant |
| RequestClient.FailurePreservesInv | src/api/request.ts:370-416 | handling a failed attempt preserves the invariant |
| RequestClient.RenewalPreservesInv | src/api/request.ts:226-256 | settling a renewal preserves the invariant |
| RequestClient.StepPreservesInv | src/api/request.ts:370-416 | every event preserves the invariant |
| RequestClient.RunPreservesInv | src/api/request.ts:370-416 | every event sequence preserves the invariant |
| RequestClient.SingleFlight | src/api/request.ts:209-224 | from a fresh client, at most one call waits on a renewal at a time and the attempt count stays within two |
| RequestClient.RefreshFetchOnlyWhenIdle | src/api/request.ts:209-226 | the fetch trace only grows, and a renewal request is sent only when no renewal was in flight |
| RequestClient.SettledIsFinal | src/api/request.ts:370-416 | a settled call's outcome never changes |
| RequestClient.RetriesConsumeBudget | src/api/request.ts:401-412 | each non-401 failure within budget re-sends the call and decrements the budget by one |
| RequestClient.RetryBudget | src/api/request.ts:401-414 | a call that keeps failing without a 401 is sent retries+1 times, each time with the token stored when it started, and settles with the last error |
| RequestClient.UnauthorizedNeverRetried | src/api/request.ts:379-404 | a 401 never re-sends the call through the retry budget: the only request it can cause is the renewal POST |
| RequestClient.ReplayUnauthorizedSurfaces | src/api/request.ts:249-252 | a 401 on a post-renewal replay settles the call with that 401 and changes nothing else |
| RequestClient.ExhaustedRenewalsSettle | src/api/request.ts:389-398 | with renewals exhausted, a 401 settles the call, sends nothing, clears credentials and redirects |
| RequestClient.NoRefreshTokenSettles | src/api/request.ts:385-387 | without a stored refresh token a 401 settles the call at once and changes nothing else |
| RequestClient.ConcurrentUnauthorizedShareOneRenewal | src/api/request.ts:389-394 | two concurrent 401s share one renewal; after it succeeds the queued call and then the trigger are re-sent, each with the token it was prepared with, and the coordinator resets |
| RequestClient.ConcurrentUnauthorizedRenewalFails | src/api/request.ts:234-239 | when the shared renewal fails the trigger gets its 401, the queued call the renewal error, nothing is re-sent, and credentials are cleared |
| RequestClient.StaleBearerAfterRenewal | src/api/request.ts:495-524 | as written, a call whose 401 triggers an accepted renewal is re-sent with the token it was first sent with, while the store holds the renewed token |
| RequestClient.OnRenewalCorrected | src/api/request.ts:226-256 | the corrected continuation is `OnRenewal` except that the trigger and every parked call are prepared again with the token the store holds after the renewal |
| RequestClient.StepCorrected | src/api/request.ts:370-416 | with the correction, calls go through the same phases and the same requests go out in the same order; only their bearer tokens differ |
| RequestClient.CorrectedReplaysCarryRenewedToken | src/api/request.ts:226-256 | with the correction, every request re-sent after a successful renewal carries the stored token, and that is the renewed `data.token` when it is a non-empty string |
| RequestClient.CorrectedTriggerResent | src/api/request.ts:392-394 | with the correction and nothing parked, an accepted renewal re-sends the trigger once, with the renewed token |
| RequestClient.CorrectedRenewalSendsRenewedToken | src/api/request.ts:392-394 | with the correction, the run of `StaleBearerAfterRenewal` re-sends the call with the renewed token |
| ErrorDispatch.EffectiveDefault | src/api/request.ts:474-482 | a bare function is the default hook; otherwise `default` is preferred over `onError` |
| ErrorDispatch.StatusDispatch | src/api/request.ts:431-442 | at most one hook runs: exact status, then `unauthorized` for 401, `forbidden` for 403, `serverError` for 5xx, then the default; none runs exactly when none applies |
| ErrorDispatch.HandleRequestError | src/api/request.ts:418-464 | request errors dispatch by status with the error's message or a generic fallback; fetch TypeErrors run `networkError` with the connectivity message; an abort runs nothing and reports "请求已取消" |
| ErrorDispatch.HandleRequest | src/api/request.ts:466-493 | success returns the data with no hook; failure returns null data, the message and the status; a bare function or `onError` then runs once more |
| ErrorDispatch.BareFunctionRunsTwice | src/api/request.ts:474-487 | a bare-function handler runs twice for a 404 |
| ErrorDispatch.OnErrorRunsTwice | src/api/request.ts:479-488 | an `onError`-only handler runs twice for a 400 and once for an abort |
| ErrorDispatch.UnauthorizedPrecedence | src/api/request.ts:432-435 | a 401 runs its exact-status hook if present, else `unauthorized`, never `default` |
| ErrorDispatch.AtMostOneDispatchedHook | src/api/request.ts:430-463 | the precedence chain selects at most one hook |
| AuthStorage.SetAuthTokens | src/utils/auth-storage.ts:24-32 | in a browser each truthy token is written under its key; an absent or empty one leaves its key as it was; no other key changes; outside a browser nothing happens |
| AuthStorage.GetAuthTokens | src/utils/auth-storage.ts:34-42 | returns exactly the values stored under the two keys, or nothing outside a browser |
| AuthStorage.ClearAuthTokens | src/utils/auth-storage.ts:44-48 | removes exactly the two keys, in a browser only |
| AuthStorage.SetThenGet | src/utils/auth-storage.ts:24-42 | storing a non-empty pair and reading it back gives that pair |
| AuthStorage.ClearThenGet | src/utils/auth-storage.ts:34-48 | after clearing, no token is read back |
| AuthStorage.SetIdempotent | src/utils/auth-storage.ts:24-32 | storing the same pair twice is storing it once |
| Proxy.RedirectToAuth | src/proxy.ts:30-52 | always a redirect to "/login"; `redirect_to` carries path+query exactly when that is not "", "/login" or "/"; cookies are cleared only on request |
| Proxy.IsValidToken | src/proxy.ts:8-15 | a cookie token is accepted exactly when it is present and is none of "", "undefined" and "null"; the length test adds nothing |
| Proxy.Route | src/proxy.ts:61-91 | a path passes exactly when it starts with a public prefix or the cookie token is valid; any other path is redirected without clearing cookies |
| Proxy.LoginNeverRedirected | src/proxy.ts:66-74 | "/login" always passes, so the guard cannot loop |
| Proxy.PrefixIsNotSegmentAware | src/proxy.ts:66-74 | "/apiary" passes without a token |
| Proxy.PlaceholderTokensRejected | src/proxy.ts:8-15 | on every path and query the cookie values "undefined" and "null" route exactly like a missing cookie, so any non-public path is redirected |
| Proxy.RootHandledDifferently | src/proxy.ts:37-42 | the guard sends "/" to a plain login page, while losing the session on "/" carries "/" back |
| AiApi.BuildBody | src/api/ai/index.ts:41-47 | an empty or absent model becomes "gpt-3.5-turbo"; an absent temperature or token limit becomes 0.7 or 1000; the prompt and stream flag are passed through |
| AiApi.StreamingDiffersOnlyInFlag | src/api/ai/index.ts:94-102 | `generate` and `generateStream` send the same body apart from `stream` |
| AiApi.FalsyDefaults | src/api/ai/index.ts:43-45 | an empty model is replaced, but temperature 0 and token limit 0 are kept |
| AiApi.DecodeChunk | src/api/ai/index.ts:50-70 | an object's non-empty string `content` or a JSON string is emitted; any other JSON value emits nothing; non-JSON text is emitted verbatim exactly when it is not blank |
| AiApi.NullChunkPassedVerbatim | src/api/ai/index.ts:55-68 | the chunk "null" is emitted as the text "null" |
| AiApi.BlankChunkDropped | src/api/ai/index.ts:64-68 | blank non-JSON text emits nothing |
| AiApi.StreamErrorSink | src/api/ai/index.ts:71-84 | a stream error goes to exactly one sink: the bare function, else `onError`, else `default`, else the console, and it is dropped for a handler object with neither |
| AiApi.StreamPrefersOnError | src/api/ai/index.ts:76-79 | for streams `onError` beats `default`, the reverse of the request dispatcher |
| AiGeneration.Generate | src/features/ai/hooks/use-ai-generation.ts:25-59 | the previous controller is aborted and the text reset; loading is reported; a start that throws reports error and its message |
| AiGeneration.OnStreamError | src/features/ai/hooks/use-ai-generation.ts:43-46 | reports error, then the message or "AI 生成失败"; the text and controller stay |
| AiGeneration.OnChunk | src/features/ai/hooks/use-ai-generation.ts:39-42 | the chunk is appended to the accumulated text, and the whole text so far is reported; the controller is untouched |
| AiGeneration.Cancel | src/features/ai/hooks/use-ai-generation.ts:63-68 | aborts and forgets the stored controller; without one nothing changes |
| AiGeneration.Finish | src/features/ai/hooks/use-ai-generation.ts:70-73 | reports display and forgets the controller without aborting |
| AiGeneration.CancelIdempotent | src/features/ai/hooks/use-ai-generation.ts:63-68 | cancelling twice is cancelling once |
| AiGeneration.FinishThenCancelAbortsNothing | src/features/ai/hooks/use-ai-generation.ts:63-73 | a cancel after finishing aborts nothing |
| AiGeneration.ChunksAccumulate | src/features/ai/hooks/use-ai-generation.ts:39-42 | after chunks c1..ck the text is their concatenation, and the i-th report is the concatenation of the first i chunks |
| AiGeneration.RestartAbortsPrevious | src/features/ai/hooks/use-ai-generation.ts:27-34 | starting again aborts the running stream and installs the new one with empty text |
| AiNode.RenderAttrs | src/features/ai/extensions/custom-ai.ts:51-106 | state and model are always rendered; prompt, content and error only when non-empty |
| AiNode.Parse | src/features/ai/extensions/custom-ai.ts:110-116 | only a `div` tagged `data-type="ai"` parses as an AI node; its state and model are never empty, since an empty attribute falls back to the default |
| AiNode.RenderParseRoundTrip | src/features/ai/extensions/custom-ai.ts:49-124 | rendering then parsing gives the attributes back, with an empty state or model replaced by its default |
| AiNode.UnknownStateKept | src/features/ai/extensions/custom-ai.ts:65-66 | a state name outside the enumeration is kept on parsing |
| AiNode.SetAI | src/features/ai/extensions/custom-ai.ts:132-144 | inserts the given prompt, content and state, or "", "" and "input"; the model is always the default and error is empty |
| AiNode.InsertedNodeRoundTrips | src/features/ai/extensions/custom-ai.ts:132-144 | an inserted AI node survives rendering and parsing |
| AiNode.UpdateAI | src/features/ai/extensions/custom-ai.ts:145-149 | each supplied attribute is replaced and each omitted one kept |
| AiNode.UpdateLaws | src/features/ai/extensions/custom-ai.ts:145-149 | an empty update changes nothing, and applying an update twice is applying it once |
| AiNode.StateUpdateTouchesOnlyState | src/features/ai/extensions/custom-ai.ts:145-149 | a state-only update changes only the state |
| ImageBlock.RenderAttrs | src/features/editor/extensions/command/ImageBlock.ts:35-66 | src, data-width and data-align are always written; alt only when defined |
| ImageBlock.RenderParseRoundTrip | src/features/editor/extensions/command/ImageBlock.ts:35-73 | every attribute survives rendering and parsing, empty strings included |
| ImageBlock.BareElementGivesDefaults | src/features/editor/extensions/command/ImageBlock.ts:35-66 | an element without attributes parses to src "", width "100%", align "center", no alt |
| ImageBlock.SetImageBlock | src/features/editor/extensions/command/ImageBlock.ts:77-93 | inserts an image block with only src set, the rest at their defaults |
| ImageBlock.SetAlign | src/features/editor/extensions/command/ImageBlock.ts:95-98 | changes only the alignment |
| ImageBlock.ClampPercent | src/features/editor/extensions/command/ImageBlock.ts:104 | the result lies in [0, 100] and equals the input inside that range |
| ImageBlock.ClampIdempotent | src/features/editor/extensions/command/ImageBlock.ts:104 | clamping twice is clamping once |
| ImageBlock.SetWidth | src/features/editor/extensions/command/ImageBlock.ts:100-105 | changes only the width |
| ImageBlock.WidthReadsBack | src/features/editor/extensions/command/ImageBlock.ts:100-105 | the stored width is a percentage that reads back as the clamped request, also after serialisation |
| ImageBlock.WidthIdempotent | src/features/editor/extensions/command/ImageBlock.ts:100-105 | setting the clamped width again changes nothing |
| Callout.Trigger | src/features/editor/extensions/custom/custom-callout.ts:17 | a match is ":::" + the captured tag + one final character |
| Callout.TriggerExactly | src/features/editor/extensions/custom/custom-callout.ts:17 | the rule fires exactly on ":::" + lower-case ASCII letters + one whitespace character |
| Callout.NonTriggers | src/features/editor/extensions/custom/custom-callout.ts:17 | ":::", capitals, digits and two trailing spaces do not fire; a newline and an empty tag do |
| Callout.ToggleAttrs | src/features/editor/extensions/custom/custom-callout.ts:35-44 | caller attributes win, and a missing icon or background gets its default |
| Callout.ToggleDefaults | src/features/editor/extensions/custom/custom-callout.ts:36-44 | without arguments the block gets icon "💡" and background "#FFF5EB" |
| Callout.Parse | src/features/editor/extensions/custom/custom-callout.ts:66-72 | only a `div` tagged `data-type="callout"` parses as a callout; a present attribute is kept even when empty, and only a missing one gets its default |
| Callout.RenderParseRoundTrip | src/features/editor/extensions/custom/custom-callout.ts:49-80 | the attributes survive rendering and parsing; a bare tagged `div` gives the defaults |
| Callout.InputRule | src/features/editor/extensions/custom/custom-callout.ts:93-111 | a match deletes the range, inserts a callout holding one child at its start, and puts the cursor one position in; no match does nothing |
| Callout.InsertedCalloutShape | src/features/editor/extensions/custom/custom-callout.ts:100-110 | the inserted callout with its empty paragraph has size 4 |
| CodeBlock.OnTab | src/features/editor/extensions/custom/custom-code-block.ts:26-38 | inside a code block Tab inserts the indent and is handled; elsewhere it is not handled and does nothing |
| CodeBlock.TabIsTwoNoBreakSpaces | src/features/editor/extensions/custom/custom-code-block.ts:10 | the indent is two U+00A0 characters |
| CodeBlock.OnSelectAll | src/features/editor/extensions/custom/custom-code-block.ts:39-76 | Mod-a selects the content of the innermost code-block ancestor, and is not handled outside a code block or without such an ancestor |
| CodeBlock.SelectAllCoversContent | src/features/editor/extensions/custom/custom-code-block.ts:64-73 | the selection starts at the block's content start and spans exactly its content |
| CodeBlock.SelectAllOutsideCodeBlock | src/features/editor/extensions/custom/custom-code-block.ts:51-62 | with no code-block ancestor Mod-a is not handled |
| AddTable.FindTablePosition | src/features/editor/extensions/table/utils/addTable.ts:14-37 | the innermost "table" ancestor and the position before it, or no table and 0 |
| AddTable.Advance | src/features/editor/extensions/table/utils/addTable.ts:118-121 | the loop adds exactly the sizes of the children it passes |
| AddTable.AddTableColumn | src/features/editor/extensions/table/utils/addTable.ts:46-143 | without an index or a table, the plain `addColumnAfter` fallback runs |
| AddTable.ColumnBranches | src/features/editor/extensions/table/utils/addTable.ts:60-74 | a table without rows gets no command; an index outside [0, n], or an append to an empty first row, falls back; an index below n inserts before; n inserts after |
| AddTable.ColumnBeforeCursor | src/features/editor/extensions/table/utils/addTable.ts:113-135 | the cursor goes to the content of the index-th first-row cell and returns there, which is the new cell's content once it is inserted |
| AddTable.ColumnAfterCursor | src/features/editor/extensions/table/utils/addTable.ts:74-110 | the cursor goes into the last first-row cell and then to the content of the cell appended after it |
| AddTable.AddTableRow | src/features/editor/extensions/table/utils/addTable.ts:152-242 | without an index or a table, the plain `addRowAfter` fallback runs |
| AddTable.RowBranches | src/features/editor/extensions/table/utils/addTable.ts:162-188 | an index outside [0, n] or n = 0 falls back; an index below n inserts before; n inserts after |
| AddTable.RowCursor | src/features/editor/extensions/table/utils/addTable.ts:174-237 | the cursor goes into the target row's first cell and then into the new row's first cell |
| TableSelection.GetTableSelection | src/utils/table.ts:6-53 | "none" exactly outside a table; "table" for a whole-grid rectangle; "column" for full height without full width; "row" otherwise, including every non-cell selection |
| TableSelection.SingleRowSelectionIsTable | src/utils/table.ts:28-40 | the only row of a one-row table counts as the whole table |
| SelectionElement.ElementType | src/utils/common.ts:14-46 | a cell selection is "table"; a node selection is its node's type; text inside a table is "table"; otherwise the anchor's parent's type |
| SelectionElement.TextInTable | src/utils/common.ts:30-45 | a text selection is "table" exactly when an ancestor has the table role or its parent is a table |
| SelectionElement.NodeSelectionIgnoresTable | src/utils/common.ts:23-27 | a selected image is "image" even inside a table |
| TableUtils.AllSelected | src/features/editor/extensions/table/utils.ts:21-27 | the loop's verdict: every target cell is among the selected ones |
| TableUtils.AllSelectedMeansSubset | src/features/editor/extensions/table/utils.ts:21-27 | the loop's verdict is the subset relation |
| TableUtils.IsRectSelected | src/features/editor/extensions/table/utils.ts:10-28 | true exactly when every cell of the rectangle lies in the selected rectangle, so vacuously true for an empty one |
| TableUtils.IsColumnSelected | src/features/editor/extensions/table/utils.ts:48-62 | a cell selection covering every cell of column c; false for any other selection |
| TableUtils.IsRowSelected | src/features/editor/extensions/table/utils.ts:67-80 | a cell selection covering every cell of row r; false for any other selection |
| TableUtils.IsTableSelected | src/features/editor/extensions/table/utils.ts:85-98 | a cell selection covering every cell of the grid; false for any other selection |
| TableUtils.TableSelectedCoversLines | src/features/editor/extensions/table/utils.ts:85-98 | a selected table has every one of its columns and rows selected |
| TableUtils.IsAtLeastTwoCellsSelected | src/features/editor/extensions/table/utils.ts:103-117 | a cell selection whose rectangle covers at least two cells |
| TableUtils.FindParentNodeClosestToPos | src/features/editor/extensions/table/utils.ts:233-251 | the deepest ancestor at depth 1 or more that satisfies the predicate, with its position and start; none exactly when no ancestor does |
| TableUtils.FindTable | src/features/editor/extensions/table/utils.ts:33-36 | the deepest ancestor of the selection start whose table role is "table", and none exactly when no ancestor has that role |
| TableUtils.FindCellClosestToPos | src/features/editor/extensions/table/utils.ts:256-261 | the deepest ancestor whose table role contains "cell" in any case, and none exactly when no ancestor has such a role |
| TableUtils.CellRoles | src/features/editor/extensions/table/utils.ts:256-261 | "cell" and "header_cell" roles are cells; "row" is not |
| TableUtils.Locate | src/features/editor/extensions/table/utils.ts:143-148 | each relative cell position maps to pos = table start + position and start = pos + 1 |
| TableUtils.CollectIsConcatenation | src/features/editor/extensions/table/utils.ts:132-155 | the `reduce` concatenates the cells of the in-range indexes in request order |
| TableUtils.GetCellsInLine | src/features/editor/extensions/table/utils.ts:122-201 | null exactly without a table; otherwise the cells of each in-range index, in request order |
| TableUtils.CellsOfIndexesMembership | src/features/editor/extensions/table/utils.ts:132-155 | a cell is returned exactly when it belongs to some requested in-range row or column |
| TableUtils.GetCellsInTable | src/features/editor/extensions/table/utils.ts:206-227 | null exactly without a table; otherwise every cell of the grid in map order, with the pos/start mapping |
| TableUtils.Select | src/features/editor/extensions/table/utils.ts:267-309 | unchanged without a table or for an index outside the grid |
| TableUtils.SelectSpansLine | src/features/editor/extensions/table/utils.ts:276-304 | an in-range row or column is selected from its last cell (anchor) to its first (head); an empty one throws |
| TableUtils.SelectTable | src/features/editor/extensions/table/utils.ts:318-335 | unchanged without a table or with an empty map; otherwise head at the first slot and anchor at the last |
| UtilsTable.Select | src/features/editor/extensions/table/utils/utilsTable.ts:125-207 | never throws; unchanged exactly without a table or when the line has no cells; otherwise head at its first cell and anchor at its last |
| UtilsTable.CopiesAgreeInRange | src/features/editor/extensions/table/utils/utilsTable.ts:131-153 | for an in-range line with cells, both copies select the same cells |
| UtilsTable.CopiesDifferOnEmptyLine | src/features/editor/extensions/table/utils/utilsTable.ts:138-158 | for an in-range line without cells, the `utils.ts` copy throws and this one leaves the selection unchanged |
| UtilsTable.CopiesDifferOutOfRange | src/features/editor/extensions/table/utils/utilsTable.ts:131-138 | for an index one past the last column, `utils.ts` leaves the selection unchanged, while this copy selects whenever the `cellsInRect` oracle reports cells there |
| TableOperate.Kebab | src/features/editor/extensions/table/TableOperate.ts:122 | the result has no upper-case ASCII letter, and its length is the input's plus the number of capitals |
| TableOperate.KebabRoundTrip | src/features/editor/extensions/table/TableOperate.ts:119-124 | a key without hyphens is recovered from its kebab form, so distinct keys give distinct CSS properties |
| TableOperate.KebabAppend | src/features/editor/extensions/table/TableOperate.ts:122 | the conversion distributes over concatenation |
| TableOperate.KebabKeepsLowerCase | src/features/editor/extensions/table/TableOperate.ts:122 | a key without capitals is unchanged |
| TableOperate.KebabExample | src/features/editor/extensions/table/TableOperate.ts:122 | "fontSize" becomes "font-size" and back |
| TableOperate.Declaration | src/features/editor/extensions/table/TableOperate.ts:119-124 | one override is its kebab key followed by ": " and the value |
| TableOperate.Declarations | src/features/editor/extensions/table/TableOperate.ts:119-124 | one declaration per override, in entry order |
| TableOperate.OverrideCss | src/features/editor/extensions/table/TableOperate.ts:119-138 | no overrides give ""; otherwise the declarations in entry order, separated by "; " |
| TableOperate.BaseGripStyle | src/features/editor/extensions/table/TableOperate.ts:28-39 | background "#3b82f6" when selected and "#f5f5f5" otherwise; the column grip sits 12px above and the row grip 12px to the left |
| TableOperate.ApplyOverrides | src/features/editor/extensions/table/TableOperate.ts:41-46 | each property ends with its last override, or else its base value |
| TableOperate.CreateGrip | src/features/editor/extensions/table/TableOperate.ts:23-94 | the column grip's class gets " grid" and the row grip's is verbatim; base properties stay unless overridden; overrides win |
| TableOperate.GripMouseDown | src/features/editor/extensions/table/TableOperate.ts:48-52 | the grip's handler runs last, after the default action and propagation are stopped |
| TableOperate.CreateAddRowButton | src/features/editor/extensions/table/TableOperate.ts:100-158 | omitted text and class get "添加行" and the default class; the style overrides become the override CSS |
| TableOperate.Press | src/features/editor/extensions/table/TableOperate.ts:183-190 | a press calls `onClick` when given and logs the row when a row index and an editor are given; nothing else changes |
| TableOperate.Step | src/features/editor/extensions/table/TableOperate.ts:160-206 | clean-up unmounts, cancels the frame, removes the listeners and detaches the tooltip; once the listeners are removed, pointer events change nothing |
| TableOperate.Run | src/features/editor/extensions/table/TableOperate.ts:160-206 | once the listeners, the mount or the tooltip are gone, no later event brings them back |
| TableOperate.CleanupIsFinal | src/features/editor/extensions/table/TableOperate.ts:197-206 | after clean-up no event sequence changes the button |
| TableOperate.CleanupThenAnything | src/features/editor/extensions/table/TableOperate.ts:195-207 | clean-up then any events leaves the button disposed with no further callbacks |
| TableOperate.TooltipShownAfterLeaving | src/features/editor/extensions/table/TableOperate.ts:160-181 | over, out, then the frame leaves the button at rest with the tooltip visible |
| TableOperate.StepCorrected | src/features/editor/extensions/table/TableOperate.ts:176-180 | mouse-out also cancels the pending frame; every other event is as written |
| TableOperate.HiddenUntilNextOver | src/features/editor/extensions/table/TableOperate.ts:160-181 | with the correction a hidden tooltip with no pending frame stays hidden until the next mouse-over |
| TableOperate.CorrectedLeaveKeepsTooltipHidden | src/features/editor/extensions/table/TableOperate.ts:160-181 | with the correction, over then out keeps the tooltip hidden whatever follows short of another mouse-over |
| MenuNavigation.Up | src/features/editor/components/Menus/slash-menu/command-list.tsx:37 | the previous index, wrapping from first to last; NaN on an empty list or from NaN |
| MenuNavigation.Down | src/features/editor/components/Menus/slash-menu/command-list.tsx:40 | the next index, wrapping from last to first; NaN on an empty list or from NaN |
| MenuNavigation.UpDownInverse | src/features/editor/components/Menus/slash-menu/command-list.tsx:36-41 | up and down undo each other on an index inside the list |
| MenuNavigation.NaNIsSticky | src/features/editor/components/Menus/slash-menu/command-list.tsx:36-41 | an arrow on an empty list gives NaN, which no later arrow leaves |
| MenuNavigation.Pick | src/features/editor/components/Menus/slash-menu/command-list.tsx:43 | the item at an index inside the list, else undefined |
| SlashMenuItems.Filter | src/features/editor/components/Menus/slash-menu/menu-items.ts:116-121 | an order-preserving subsequence holding exactly the items whose lower-cased title contains the lower-cased query |
| SlashMenuItems.GetSuggestionItems | src/features/editor/components/Menus/slash-menu/menu-items.ts:116-121 | the matching commands of the nine, in list order |
| SlashMenuItems.FilterKeepsAll | src/features/editor/components/Menus/slash-menu/menu-items.ts:118-120 | when every item matches, the filter returns the list unchanged |
| SlashMenuItems.EmptyQueryListsAll | src/features/editor/components/Menus/slash-menu/menu-items.ts:116-121 | the empty query lists all nine commands |
| SlashMenuItems.HeadingMatches | src/features/editor/components/Menus/slash-menu/menu-items.ts:21-114 | of the nine titles, "HEADING" matches exactly the three headings |
| SlashMenuItems.FilterBlock | src/features/editor/components/Menus/slash-menu/menu-items.ts:118-120 | when the matches are one contiguous block, the filter returns that block |
| SlashMenuItems.CaseInsensitiveHeading | src/features/editor/components/Menus/slash-menu/menu-items.ts:35-121 | "HEADING" returns exactly Heading 1, 2 and 3 |
| CommandList.OnKeyDown | src/features/editor/components/Menus/slash-menu/command-list.tsx:27-50 | only the arrows and Enter are handled; arrows move the index; Enter passes the selected item, or undefined, to the command |
| CommandList.Step | src/features/editor/components/Menus/slash-menu/command-list.tsx:23-50 | a key moves the index over the current items; a re-render replaces the items and keeps the old index |
| CommandList.KeysStayInRange | src/features/editor/components/Menus/slash-menu/command-list.tsx:23-41 | from an index in a non-empty list, keys keep the index inside the list |
| CommandList.StaleIndexAfterQuery | src/features/editor/components/Menus/slash-menu/command-list.tsx:23-44 | up to the last command, then a query narrowing to three items: Enter passes undefined |
| CommandList.StepCorrected | src/features/editor/components/Menus/slash-menu/command-list.tsx:23 | new items reset the selection to the first; keys act as written |
| CommandList.CorrectedSelectionValid | src/features/editor/components/Menus/slash-menu/command-list.tsx:23-44 | with the correction, the selection is inside a non-empty list after any events |
| CommandList.CorrectedEnterRunsAnItem | src/features/editor/components/Menus/slash-menu/command-list.tsx:42-44 | with the correction, Enter on a non-empty list always runs an existing command |
| EmojiSuggestion.FirstWithPrefix | src/features/editor/components/Menus/Common/Emoji/suggestion.ts:61-63 | the first index whose string starts with the query, none exactly when no string does |
| EmojiSuggestion.Find | src/features/editor/components/Menus/Common/Emoji/suggestion.ts:61-63 | `find` returns the first string with the prefix, or undefined when none has it |
| EmojiSuggestion.FilterEmojis | src/features/editor/components/Menus/Common/Emoji/suggestion.ts:58-65 | an order-preserving subsequence holding exactly the emojis whose first matching shortcode or tag is non-empty |
| EmojiSuggestion.Items | src/features/editor/components/Menus/Common/Emoji/suggestion.ts:51-67 | the first five matches of the lower-cased query, in storage order |
| EmojiSuggestion.NonEmptyQuery | src/features/editor/components/Menus/Common/Emoji/suggestion.ts:59-65 | for a non-empty query an emoji is kept exactly when some shortcode or tag starts with it |
| EmojiSuggestion.EmptyQuery | src/features/editor/components/Menus/Common/Emoji/suggestion.ts:59-65 | for the empty query an emoji is kept exactly when its first shortcode or first tag is non-empty |
| EmojiSuggestion.EmptyFirstMatchHides | src/features/editor/components/Menus/Common/Emoji/suggestion.ts:61-64 | an empty first shortcode hides the emoji from the empty query, even with a later match |
| EmojiSuggestion.CapitalisedNeverMatches | src/features/editor/components/Menus/Common/Emoji/suggestion.ts:61-63 | shortcodes and tags starting with a capital never match a non-empty query, since only the query is lower-cased |
| EmojiList.OnKeyDown | src/features/editor/components/Menus/Common/Emoji/EmojiList.tsx:54-75 | only the arrows and Enter are handled; arrows move the index modulo the length; Enter inserts the selected emoji's name only when that item exists |
| EmojiList.EnterOnEmptyList | src/features/editor/components/Menus/Common/Emoji/EmojiList.tsx:27-50 | Enter on an empty list is handled and inserts nothing |
| EmojiList.ArrowOnEmptyListDisablesEnter | src/features/editor/components/Menus/Common/Emoji/EmojiList.tsx:38-50 | an arrow on an empty list makes the index NaN, after which Enter inserts nothing |
| EmojiList.EnterAfterMount | src/features/editor/components/Menus/Common/Emoji/EmojiList.tsx:25-52 | after mounting, Enter inserts the first emoji |
| TableGridSelector.Hover | src/features/editor/components/Menus/Common/Table/TableGridSelector.tsx:28-31 | hovering cell (r, c) sets the hovered size to (r+1, c+1), within 1..8 |
| TableGridSelector.Label | src/features/editor/components/Menus/Common/Table/TableGridSelector.tsx:43-47 | the size label is shown exactly when both dimensions are positive, and shows them |
| TableGridSelector.OnClick | src/features/editor/components/Menus/Common/Table/TableGridSelector.tsx:16-35 | with an editor, a table of (r+1) x (c+1) within 8 x 8 with a header row is inserted and the picker closes; without one, nothing happens |
| TableGridSelector.HoverHighlightsRectangle | src/features/editor/components/Menus/Common/Table/TableGridSelector.tsx:55-63 | after hovering (r, c), exactly the cells up to row r and column c are highlighted |
| TableGridSelector.ClickInsertsLabelledSize | src/features/editor/components/Menus/Common/Table/TableGridSelector.tsx:28-47 | clicking the hovered cell inserts the size the label shows |
| TableGridSelector.InitiallyBlank | src/features/editor/components/Menus/Common/Table/TableGridSelector.tsx:10-11 | before the first hover nothing is highlighted or labelled |
| AuthSchema.LengthIssues | src/app/signup/page.tsx:30 | no issue exactly when the length is within bounds; every issue is on the field; a short value gets the minimum message |
| AuthSchema.EmailIssues | src/app/signup/page.tsx:20-24 | no issue exactly when the address is well formed and 3 to 64 characters long |
| AuthSchema.PasswordIssues | src/app/signup/page.tsx:30 | no issue exactly when the password is 6 to 64 characters long |
| AuthSchema.OptionalProp | src/app/signup/page.tsx:65 | reading a property through `?.` gives undefined on null or undefined, and the field on an object |
| AuthSchema.Body | src/app/signup/page.tsx:65 | a failed call has a null body; a JSON reply is its value |
| AuthSchema.Unwrap | src/app/signup/page.tsx:65 | the envelope's `data` when present and not null, else the body itself |
| AuthSchema.StoreTokens | src/app/signup/page.tsx:75 | in a browser a token whose string form is non-empty reads back as that string; no other key changes; outside a browser nothing happens |
| SignupForm.NameIssues | src/app/signup/page.tsx:25-29 | an absent name passes; a present one needs 1 to 32 characters, so "" gets "昵称不能为空" |
| SignupForm.SignupIssues | src/app/signup/page.tsx:18-39 | the mismatch issue on `confirmPassword` appears exactly when the passwords differ |
| SignupForm.SignupValidIff | src/app/signup/page.tsx:18-39 | the form is accepted exactly when every length rule holds, the address is well formed and the passwords agree |
| SignupForm.BlankNameBlocksSignup | src/app/signup/page.tsx:25-53 | with the default blank name, sign-up is blocked by "昵称不能为空" |
| SignupForm.NameIssuesCorrected | src/app/signup/page.tsx:25-29 | the corrected rule treats a blank name as no name |
| SignupForm.SignupIssuesCorrected | src/app/signup/page.tsx:18-39 | the corrected schema still reports the password mismatch exactly when the passwords differ |
| SignupForm.BlankNameAccepted | src/app/signup/page.tsx:25-63 | with the correction a blank name never blocks sign-up and is sent as no name |
| SignupForm.CorrectedOnlyAddsBlankName | src/app/signup/page.tsx:18-39 | the corrected schema accepts exactly what the written one accepts, plus the blank name |
| SignupForm.Request | src/app/signup/page.tsx:58-63 | email and password are sent as typed; the name only when non-empty |
| SignupForm.Submit | src/app/signup/page.tsx:65-87 | fails exactly when the unwrapped result is falsy, with `res.error` or "注册失败"; otherwise navigates to "/" and stores the tokens only when both are truthy |
| SignupForm.WelcomeName | src/app/signup/page.tsx:79 | the welcome names the user's e-mail if truthy, else the name if truthy, else "用户"; a result without a `user` object always gets "用户" |
| SignupForm.EnvelopeTokensStored | src/app/signup/page.tsx:65-77 | an enveloped reply with a token pair signs up and stores exactly that pair |
| LoginForm.LoginIssues | src/app/login/page.tsx:21-28 | no issue exactly when the address is well formed and 3 to 64 long, and the password 6 to 64 long |
| LoginForm.Submit | src/app/login/page.tsx:52-79 | fails exactly when the body is falsy, with `res.error` or "登录失败"; logs in exactly when the body's own `token` and `refresh_token` are truthy, storing them, navigating to "/" and welcoming the email |
| LoginForm.EnvelopeLoginRefused | src/app/login/page.tsx:52-72 | an enveloped reply with a token pair is refused and nothing is stored |
| LoginForm.SubmitCorrected | src/app/login/page.tsx:52-72 | the corrected reading fails or logs in according to the unwrapped payload |
| LoginForm.CorrectedEnvelopeLogsIn | src/app/login/page.tsx:52-72 | with the correction the enveloped reply logs in and stores exactly its pair |
| LoginForm.CorrectedAgreesOnBareReply | src/app/login/page.tsx:52-72 | a reply without `data` is handled the same by both readings |

## Left out

- Real time: timers, retry delays, `requestAnimationFrame` and the deferred cursor fix in
  `addTable.ts` are events or a "later" position, never clock values.
- Promise interleaving is replaced by atomic events in `RequestClient`. Fetch outcomes are
  abstract response values.
- `fetch`, body reading and `JSON.parse` are not modelled. Neither is the encoding done by
  `encodeURIComponent` and `URLSearchParams`: each is an input or a function parameter.
- `request.sseStream` is called by the AI API but is not defined in `src/api/request.ts`. The
  stream transport, its cancellation and any end-of-stream sentinel are not part of this model.
  Only the chunk and error callbacks are modelled.
- DOM and rendering are not modelled:
  - React components beyond their state logic;
  - tooltip positioning;
  - the `useEffect` scroll-into-view;
  - Escape handling and floating-ui placement in the suggestion renderers;
  - the exact whitespace of the grips' `cssText`.
- ProseMirror's `TableMap` internals (`cellsInRect`, `rectBetween`) are oracles, and editor
  command chains are emitted actions. So are the slash-menu commands (`Action`).
- `AUTH_COOKIE_NAMES` is not defined in `src/utils/auth-storage.ts`. Which cookies get cleared
  is therefore not modelled, only whether they are.
- Console logging and toasts, apart from the messages the forms and hooks report.
- Floating point: the image width is an integer percentage, and the AI temperature is a `real`
  with no rounding.
- Strings are sequences of characters, so lengths count characters rather than UTF-16 code
  units. Case conversion is ASCII-only.
- The zod e-mail format check is a parameter (`isEmail`). The model assumes the `refine`
  equality rule is evaluated even when a field rule already failed.
- TableSelection.GetTableSelection: the `catch` path (an error thrown by the table-map
  library, giving "none") is not modelled, because the oracles never throw.
- SelectionElement.ElementType uses `TableUtils.FindTable`. `src/utils/common.ts` imports
  `findTable` from the table extension, which is not part of this model.
- AddTable.AddTableColumn: the only thrown error modelled is `firstRow.child(-1)` on an empty
  first row. Other throws inside the library commands are not modelled.
- UtilsTable.CopiesDifferOutOfRange: the `cellsInRect` oracle is unconstrained outside the grid,
  so the lemma compares the two guards only. ProseMirror's own `TableMap.cellsInRect` reads past
  the row there. The positions this copy would then resolve are not modelled, so neither is the
  error that may follow.
- AiApi.DecodeChunk: when `onChunk` itself throws inside the `try`, the `catch` hands the raw
  line to `onChunk` a second time. The callback is not modelled as throwing, so this re-emission
  is not either.
- AiGeneration.ThrownMessage: `error instanceof Error` is read as "an object whose `message` is a
  string", because prototype chains are not modelled.
- AuthSchema.StoreTokens: a truthy token whose string form is empty (for example an empty
  array) is not stored by the model. `localStorage.setItem` would store "".
- Writes to the store from outside the client are not events. Examples are the login page
  saving new tokens, or another tab. Every renewal failure after the POST clears the refresh
  token (src/api/request.ts:168, 184, 204). So from a fresh client, `ExhaustedRenewalsSettle`'s
  state (renewals exhausted, a refresh token present) is reached only through such a write.
- Calls start without an explicit per-call `token`: every request is prepared with the stored
  token, which is the `getToken()` branch of `token || getToken()`.
- The redirect target is the structured `LoginTarget`, whose path is the raw path plus query.
  The two encodings of it therefore look the same in the model, although they differ.
  `src/proxy.ts:41` applies `encodeURIComponent` and then `searchParams.set`, so the path is
  encoded twice. `src/api/request.ts:137` encodes it once.
- The OAuth buttons, the GitHub callback page, the thin `src/api/auth` wrappers and the
  commented-out `InsertHandles.ts` are outside the core.

## Findings

| source | as written | input that shows it | evidently intended | confidence | as-written member | corrected member |
|---|---|---|---|---|---|---|
| src/features/editor/extensions/table/TableOperate.ts:176-180 | mouse-out hides the tooltip but leaves the animation frame requested by mouse-over pending | mouse-over, mouse-out, then the frame fires: the button is at rest and the tooltip is visible | mouse-out also cancels the pending frame, so the tooltip stays hidden until the next mouse-over (proved in `TableOperate.CorrectedLeaveKeepsTooltipHidden`) | medium, not executed | TableOperate.TooltipShownAfterLeaving | TableOperate.StepCorrected |
| src/features/editor/components/Menus/slash-menu/command-list.tsx:23 | the selected index is kept when the filtered items change | open with all nine commands, ArrowUp to index 8, type "heading" (three items), Enter: `command(undefined)` | a new item list resets the selection to 0, so Enter always runs an existing command (proved in `CommandList.CorrectedEnterRunsAnItem`) | medium, not executed | CommandList.StaleIndexAfterQuery | CommandList.StepCorrected |
| src/app/signup/page.tsx:25-29 | the optional name is `min(1)` and the form's default name is "" | valid email and matching passwords with the name left blank: "昵称不能为空" blocks submission | a blank name counts as no name, as `name \|\| undefined` in the request already assumes (proved in `SignupForm.BlankNameAccepted`) | high, not executed | SignupForm.BlankNameBlocksSignup | SignupForm.SignupIssuesCorrected |
| src/app/login/page.tsx:52-60 | `token` and `refresh_token` are read from the top level of `res.data`, the `{code, message, data}` envelope | the reply `{code: 0, message: "ok", data: {token, refresh_token}}`: login is refused and nothing is stored | read the payload as sign-up does, `res.data?.data ?? res.data` (proved in `LoginForm.CorrectedEnvelopeLogsIn`) | medium, not executed | LoginForm.EnvelopeLoginRefused | LoginForm.SubmitCorrected |
| src/api/request.ts:508-524 | `httpFactory` runs the request interceptor once, and every attempt, the queued replay (`requestFn()`, line 250) and the trigger's replay after a renewal (line 394) send that same prepared request | stored token "a", refresh token present; a call gets 401; the renewal returns token "b": the replay goes out with `Authorization: Bearer a`, which the server just rejected | each re-sent request is prepared again, so it reads the renewed token (proved in `RequestClient.CorrectedReplaysCarryRenewedToken` and `RequestClient.CorrectedRenewalSendsRenewedToken`) | high, not executed | RequestClient.StaleBearerAfterRenewal | RequestClient.StepCorrected |
