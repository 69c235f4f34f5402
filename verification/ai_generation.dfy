/** The generation hook: one live stream at a time, an accumulator of the streamed text,
    and the reports it makes to the AI block (state changes, content, error text). */
module AiGeneration {
  import opened Js
  import opened AiTypes

  type ControllerId = nat

  /** A call of one of the hook's three callbacks. */
  datatype Report = StateChanged(state: AIState) | ContentUpdated(content: string) | ErrorReported(message: string)

  datatype Gen = Gen(
    /** The abort controller of the current stream, if any. */
    controller: Option<ControllerId>,
    /** The text streamed so far. */
    acc: string,
    reports: seq<Report>,
    /** Controllers aborted so far, in order. */
    aborted: seq<ControllerId>)

  /** How the call to the streaming API settles. */
  datatype StartResult = Started(ctrl: ControllerId) | Threw(error: Js.Value)

  const GenerationFailedMessage: string := "AI 生成失败"

  function Init(): Gen {
    Gen(None, "", [], [])
  }

  /** `error instanceof Error ? error.message : fallback` for a thrown value. */
  function ThrownMessage(error: Value): string {
    if error.Obj? && Lookup(error.fields, "message").Str? then Lookup(error.fields, "message").s
    else GenerationFailedMessage
  }

  /** `generate`: abort the previous stream, reset, report loading, then record the new controller
      or report the failure (the old controller reference is then kept). */
  function Generate(g: Gen, start: StartResult): (r: Gen)
    ensures r.acc == ""
    ensures g.controller.Some? ==> r.aborted == g.aborted + [g.controller.value]
    ensures g.controller.None? ==> r.aborted == g.aborted
    ensures start.Started? ==> r.controller == Some(start.ctrl) && r.reports == g.reports + [StateChanged(Loading)]
    ensures start.Threw? ==>
      && r.controller == g.controller
      && r.reports == g.reports + [StateChanged(Loading), StateChanged(Error), ErrorReported(ThrownMessage(start.error))]
  {
    var aborted := if g.controller.Some? then g.aborted + [g.controller.value] else g.aborted;
    var loading := g.reports + [StateChanged(Loading)];
    match start
    case Started(c) => Gen(Some(c), "", loading, aborted)
    case Threw(e) => Gen(g.controller, "", loading + [StateChanged(Error), ErrorReported(ThrownMessage(e))], aborted)
  }

  /** `onChunk`: append and report the whole text so far. */
  function OnChunk(g: Gen, chunk: string): (r: Gen)
    ensures g.acc <= r.acc && r.acc[|g.acc|..] == chunk
    ensures r.reports == g.reports + [ContentUpdated(r.acc)]
    ensures r.controller == g.controller && r.aborted == g.aborted
  {
    var acc := g.acc + chunk;
    g.(acc := acc, reports := g.reports + [ContentUpdated(acc)])
  }

  /** The stream's error callback: `error?.message || fallback`. */
  function OnStreamError(g: Gen, message: Value): (r: Gen)
    ensures r.controller == g.controller && r.acc == g.acc
    ensures Truthy(message) ==> r.reports == g.reports + [StateChanged(Error), ErrorReported(ToJsString(message))]
    ensures !Truthy(message) ==> r.reports == g.reports + [StateChanged(Error), ErrorReported(GenerationFailedMessage)]
  {
    var text := if Truthy(message) then ToJsString(message) else GenerationFailedMessage;
    g.(reports := g.reports + [StateChanged(Error), ErrorReported(text)])
  }

  function Cancel(g: Gen): (r: Gen)
    ensures r.controller.None?
    ensures g.controller.Some? ==> r.aborted == g.aborted + [g.controller.value]
    ensures g.controller.None? ==> r == g
    ensures r.reports == g.reports && r.acc == g.acc
  {
    match g.controller
    case Some(c) => g.(controller := None, aborted := g.aborted + [c])
    case None => g
  }

  /** `finish`: report the display state and forget the controller without aborting it. */
  function Finish(g: Gen): (r: Gen)
    ensures r.controller.None? && r.aborted == g.aborted && r.acc == g.acc
    ensures r.reports == g.reports + [StateChanged(Display)]
  {
    g.(controller := None, reports := g.reports + [StateChanged(Display)])
  }

  lemma CancelIdempotent(g: Gen)
    ensures Cancel(Cancel(g)) == Cancel(g)
  {
  }

  /** A finished stream is not aborted by a later cancel. */
  lemma FinishThenCancelAbortsNothing(g: Gen)
    ensures Cancel(Finish(g)).aborted == g.aborted
  {
  }

  function Concat(chunks: seq<string>): string {
    if |chunks| == 0 then "" else Concat(chunks[..|chunks| - 1]) + chunks[|chunks| - 1]
  }

  function FeedChunks(g: Gen, chunks: seq<string>): Gen
    decreases |chunks|
  {
    if |chunks| == 0 then g else OnChunk(FeedChunks(g, chunks[..|chunks| - 1]), chunks[|chunks| - 1])
  }

  /** The content reports after a fresh start are the running concatenations of the chunks,
      and the accumulator ends as their concatenation. */
  lemma {:induction false} ChunksAccumulate(g: Gen, chunks: seq<string>)
    requires g.acc == ""
    ensures FeedChunks(g, chunks).acc == Concat(chunks)
    ensures FeedChunks(g, chunks).controller == g.controller
    ensures |FeedChunks(g, chunks).reports| == |g.reports| + |chunks|
    ensures FeedChunks(g, chunks).reports[..|g.reports|] == g.reports
    ensures forall i :: |g.reports| <= i < |g.reports| + |chunks| ==>
      FeedChunks(g, chunks).reports[i] == ContentUpdated(Concat(chunks[..i - |g.reports| + 1]))
    decreases |chunks|
  {
    if |chunks| > 0 {
      var n := |chunks| - 1;
      ChunksAccumulate(g, chunks[..n]);
      assert chunks[..n + 1] == chunks;
      var r := FeedChunks(g, chunks);
      var m := |g.reports|;
      forall i | m <= i < m + n
        ensures r.reports[i] == ContentUpdated(Concat(chunks[..i - m + 1]))
      {
        assert chunks[..n][..i - m + 1] == chunks[..i - m + 1];
      }
    }
  }

  /** A new generation after a running one aborts exactly the old stream and starts from empty text. */
  lemma RestartAbortsPrevious(g: Gen, previous: ControllerId, next: ControllerId)
    requires g.controller == Some(previous)
    ensures var r := Generate(g, Started(next));
      r.aborted == g.aborted + [previous] && r.controller == Some(next) && r.acc == ""
  {
  }
}
