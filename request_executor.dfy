/**
 * A completion task: the checks made before any request, the request built
 * from the history, and how the reply is consumed into progress notices and
 * one terminal outcome.
 *
 * The service is a parameter: what opening a stream returns (an error, or
 * the finite sequence of items it will yield), what a single request
 * returns, and how many replies are consumed before the user's cancellation
 * wins the race against the next one.
 */
module RequestExecutor {
  import opened Base
  import Gemini
  import opened Messages
  import Widgets
  import HistoryBuilder
  import ChatState

  datatype Reply<T> = Ok(value: T) | Err(error: string)

  /** A candidate answer; the service may leave out its parts. */
  datatype Candidate = Candidate(parts: Option<seq<Gemini.Part>>)

  /** One response (a whole answer, or one item of a stream). */
  datatype Response = Response(candidates: seq<Candidate>, usage: Option<Gemini.UsageMetadata>)

  /** The parts of the first candidate, or none. */
  function FirstParts(r: Response): seq<Gemini.Part> {
    if |r.candidates| > 0 && r.candidates[0].parts.Some? then r.candidates[0].parts.value else []
  }

  type StreamItem = Reply<Response>

  datatype Service = Service(
    stream: Reply<seq<StreamItem>>,
    single: Reply<Response>,
    cancelAt: Option<nat>)

  // ---------------------------------------------------------------------------
  // Parts of one response

  /** The progress notices for the first `n` parts: each part, in order, for message `index`. */
  function PartSends(index: nat, parts: seq<Gemini.Part>, n: nat): (r: seq<HistoryBuilder.Event>)
    requires n <= |parts|
    ensures |r| == n && forall i :: 0 <= i < n ==> r[i] == HistoryBuilder.Send(index, PartReceived(parts[i]))
  {
    if n == 0 then [] else PartSends(index, parts, n - 1) + [HistoryBuilder.Send(index, PartReceived(parts[n - 1]))]
  }

  function PartText(p: Gemini.Part): string {
    if p.Text? then p.text else ""
  }

  /** The texts of the text parts among the first `n`, concatenated in order. */
  function TextOfParts(parts: seq<Gemini.Part>, n: nat): string
    requires n <= |parts|
  {
    if n == 0 then "" else TextOfParts(parts, n - 1) + PartText(parts[n - 1])
  }

  /** The loop over the parts of a response: each is sent, and text parts are accumulated. */
  method SendParts(index: nat, parts: seq<Gemini.Part>) returns (sent: seq<HistoryBuilder.Event>, text: string)
    ensures sent == PartSends(index, parts, |parts|)
    ensures text == TextOfParts(parts, |parts|)
  {
    sent, text := [], "";
    for i := 0 to |parts|
      invariant sent == PartSends(index, parts, i)
      invariant text == TextOfParts(parts, i)
    {
      var part := parts[i];
      sent := sent + [HistoryBuilder.Send(index, PartReceived(part))];
      if part.Text? {
        text := text + part.text;
      }
    }
  }

  // ---------------------------------------------------------------------------
  // Consuming replies

  /** What the task has sent and accumulated so far, and the error that ended it, if any. */
  datatype Consumed = Consumed(sent: seq<HistoryBuilder.Event>, text: string, usage: Option<Gemini.UsageMetadata>, failed: Option<string>)

  const Nothing := Consumed([], "", None, None)

  /** One reply: an error ends consumption; a response sends its parts and replaces the usage when it reports one. */
  function ConsumeStep(c: Consumed, item: StreamItem, index: nat): Consumed {
    if c.failed.Some? then c
    else match item
      case Err(e) => c.(failed := Some(e))
      case Ok(resp) =>
        var parts := FirstParts(resp);
        Consumed(c.sent + PartSends(index, parts, |parts|), c.text + TextOfParts(parts, |parts|),
                 if resp.usage.Some? then resp.usage else c.usage, None)
  }

  /** The first `n` replies. */
  function Consume(items: seq<StreamItem>, n: nat, index: nat): Consumed
    requires n <= |items|
  {
    if n == 0 then Nothing else ConsumeStep(Consume(items, n - 1, index), items[n - 1], index)
  }

  /** How many stream items are consumed: up to the cancellation, or all of them. */
  function Reached(items: seq<StreamItem>, cancelAt: Option<nat>): (r: nat)
    ensures r <= |items|
  {
    if cancelAt.Some? && cancelAt.value < |items| then cancelAt.value else |items|
  }

  /** Once an error has ended consumption, later replies change nothing. */
  lemma {:induction false} FailureIsFinal(items: seq<StreamItem>, k: nat, m: nat, index: nat)
    requires k <= m <= |items| && Consume(items, k, index).failed.Some?
    ensures Consume(items, m, index) == Consume(items, k, index)
  {
    if m > k {
      FailureIsFinal(items, k, m - 1, index);
    }
  }

  /** The body of the stream loop for a response: its usage, if reported, replaces the kept one, then its parts are sent. */
  method TakeResponse(c: Consumed, resp: Response, index: nat) returns (next: Consumed)
    requires c.failed.None?
    ensures next == ConsumeStep(c, Ok(resp), index)
  {
    var usage := c.usage;
    if resp.usage.Some? {
      usage := resp.usage;
    }
    var partsSent, partsText := SendParts(index, FirstParts(resp));
    next := Consumed(c.sent + partsSent, c.text + partsText, usage, None);
  }

  /** The loop over a stream: each round the cancellation is checked first, then the next item is taken. */
  method ConsumeStream(items: seq<StreamItem>, cancelAt: Option<nat>, index: nat) returns (c: Consumed)
    ensures c == Consume(items, Reached(items, cancelAt), index)
  {
    c := Nothing;
    var i := 0;
    ghost var n := Reached(items, cancelAt);
    while i < |items| && cancelAt != Some(i) && c.failed.None?
      invariant i <= n
      invariant c == Consume(items, i, index)
      decreases |items| - i
    {
      c := TakeItem(c, items[i], index);
      i := i + 1;
    }
    if c.failed.Some? {
      FailureIsFinal(items, i, n, index);
    }
  }

  /** One item of the stream: an error ends the loop, a response is taken. */
  method TakeItem(c: Consumed, item: StreamItem, index: nat) returns (next: Consumed)
    requires c.failed.None?
    ensures next == ConsumeStep(c, item, index)
  {
    match item {
      case Err(e) => next := c.(failed := Some(e));
      case Ok(resp) => next := TakeResponse(c, resp, index);
    }
  }

  /** A single request: unless cancelled, its response's parts are sent and its usage is kept. */
  function ConsumeSingle(reply: Reply<Response>, cancelled: bool, index: nat): Consumed {
    if cancelled then Nothing
    else match reply
      case Err(e) => Nothing.(failed := Some(e))
      case Ok(resp) =>
        var parts := FirstParts(resp);
        Consumed(PartSends(index, parts, |parts|), TextOfParts(parts, |parts|), resp.usage, None)
  }

  /**
   * The reply to a request. A streaming request through an API key races the
   * cancellation against opening the stream; through Code Assist the stream
   * is opened first and only its items race the cancellation.
   */
  function ConsumeReply(s: Service, useStreaming: bool, openRaces: bool, index: nat): Consumed {
    if !useStreaming then ConsumeSingle(s.single, s.cancelAt.Some?, index)
    else if openRaces && s.cancelAt == Some(0) then Nothing
    else match s.stream
      case Err(e) => Nothing.(failed := Some(e))
      case Ok(items) => Consume(items, Reached(items, s.cancelAt), index)
  }

  /** The terminal outcome: the error that ended the task, else success with the accumulated text and usage. */
  function OutcomeOf(c: Consumed, index: nat): Outcome {
    if c.failed.Some? then Failure(index, c.failed.value) else Success(index, c.text, c.usage)
  }

  // ---------------------------------------------------------------------------
  // The task

  datatype Request = Request(contents: seq<Gemini.Content>, config: Gemini.GenerationConfig)

  /** What a task did: the request it made (if it got that far), the events it produced in order, and how it ended. */
  datatype TaskResult = TaskResult(request: Option<Request>, log: seq<HistoryBuilder.Event>, outcome: Outcome)

  /**
   * `request_completion` (`codeAssist` false) and
   * `request_completion_code_assist` (true): the history is built with
   * progress for message `index` (with upload only when allowed, and never
   * through Code Assist), the request is sent and the reply consumed.
   */
  function Completion(messages: seq<Message>, index: nat, useStreaming: bool, publicFileUpload: bool,
                      config: Gemini.GenerationConfig, codeAssist: bool, world: HistoryBuilder.Oracle, service: Service): TaskResult
  {
    var built := HistoryBuilder.Build(messages, None, publicFileUpload && !codeAssist, Some(index), world);
    var c := ConsumeReply(service, useStreaming, !codeAssist, index);
    TaskResult(Some(Request(built.history, config)), built.log + c.sent, OutcomeOf(c, index))
  }

  method RequestCompletion(messages: seq<Message>, index: nat, useStreaming: bool, publicFileUpload: bool,
                           config: Gemini.GenerationConfig, codeAssist: bool, world: HistoryBuilder.Oracle, service: Service)
    returns (result: TaskResult)
    ensures result == Completion(messages, index, useStreaming, publicFileUpload, config, codeAssist, world, service)
  {
    var history, log := HistoryBuilder.BuildHistory(messages, None, publicFileUpload && !codeAssist, Some(index), world);
    var request := Request(history, config);
    var c := Nothing;
    if useStreaming {
      if !codeAssist && service.cancelAt == Some(0) {
        return TaskResult(Some(request), log, Success(index, "", None));
      }
      match service.stream {
        case Err(e) =>
          return TaskResult(Some(request), log, Failure(index, e));
        case Ok(items) =>
          c := ConsumeStream(items, service.cancelAt, index);
      }
    } else if service.cancelAt.None? {
      match service.single {
        case Err(e) =>
          return TaskResult(Some(request), log, Failure(index, e));
        case Ok(response) =>
          var sent, text := SendParts(index, FirstParts(response));
          c := Consumed(sent, text, response.usage, None);
      }
    }
    if c.failed.Some? {
      return TaskResult(Some(request), log + c.sent, Failure(index, c.failed.value));
    }
    result := TaskResult(Some(request), log + c.sent, Success(index, c.text, c.usage));
  }

  const ApiKeyMissing := "API key not set."
  const ClientFailurePrefix := "Failed to create client: "
  const LoginMissing := "OAuth token or Project ID not set. Please login in settings."

  /**
   * The spawned task of `spawn_completion`: the credentials are checked and a
   * client is made for an API key (`clientError` is what making it
   * reports; a Code Assist client is made without fail), then the
   * completion runs. Every error ends the task with a failure for the job's
   * message.
   */
  function RunTask(job: ChatState.CompletionJob, world: HistoryBuilder.Oracle, clientError: Option<string>, service: Service): TaskResult {
    var codeAssist := job.authMethod.CodeAssist?;
    var refused := TaskResult(None, [], Failure(job.index, ""));
    if !codeAssist && |job.apiKey| == 0 then refused.(outcome := Failure(job.index, ApiKeyMissing))
    else if codeAssist && (|job.oauthToken| == 0 || |job.projectId| == 0) then refused.(outcome := Failure(job.index, LoginMissing))
    else if !codeAssist && clientError.Some? then refused.(outcome := Failure(job.index, ClientFailurePrefix + clientError.value))
    else Completion(job.messages, job.index, job.useStreaming, job.publicFileUpload, job.config, codeAssist, world, service)
  }

  // ---------------------------------------------------------------------------
  // Properties

  /** The text a progress event carries: that of a text part, or nothing. */
  function EventText(e: HistoryBuilder.Event): string {
    if e.Send? && IsTextPart(e.progress) then e.progress.part.text else ""
  }

  /** The texts carried by the first `n` events, concatenated. */
  function TextOfSends(events: seq<HistoryBuilder.Event>, n: nat): string
    requires n <= |events|
  {
    if n == 0 then "" else TextOfSends(events, n - 1) + EventText(events[n - 1])
  }

  lemma {:induction false} TextOfSendsPrefix(a: seq<HistoryBuilder.Event>, c: seq<HistoryBuilder.Event>, n: nat)
    requires n <= |a| && n <= |c| && forall i :: 0 <= i < n ==> a[i] == c[i]
    ensures TextOfSends(a, n) == TextOfSends(c, n)
  {
    if n > 0 {
      TextOfSendsPrefix(a, c, n - 1);
    }
  }

  lemma {:induction false} TextOfSendsAppend(a: seq<HistoryBuilder.Event>, b: seq<HistoryBuilder.Event>, n: nat)
    requires n <= |b|
    ensures TextOfSends(a + b, |a| + n) == TextOfSends(a, |a|) + TextOfSends(b, n)
  {
    if n == 0 {
      TextOfSendsPrefix(a + b, a, |a|);
    } else {
      TextOfSendsAppend(a, b, n - 1);
      var last := EventText(b[n - 1]);
      assert (a + b)[|a| + n - 1] == b[n - 1];
      assert TextOfSends(a + b, |a| + n) == TextOfSends(a, |a|) + TextOfSends(b, n - 1) + last;
      AppendAssoc(TextOfSends(a, |a|), TextOfSends(b, n - 1), last);
    }
  }

  /** The text part notices of a response carry exactly its text. */
  lemma {:induction false} SentTextOfParts(index: nat, parts: seq<Gemini.Part>, n: nat)
    requires n <= |parts|
    ensures TextOfSends(PartSends(index, parts, n), n) == TextOfParts(parts, n)
  {
    if n > 0 {
      SentTextOfParts(index, parts, n - 1);
      var before := PartSends(index, parts, n - 1);
      TextOfSendsAppend(before, [HistoryBuilder.Send(index, PartReceived(parts[n - 1]))], 1);
    }
  }

  /** What consumption keeps: the text is that of the notices sent, all part notices for the task's message. */
  ghost predicate SentMatchesText(c: Consumed, index: nat) {
    && c.text == TextOfSends(c.sent, |c.sent|)
    && forall e :: e in c.sent ==> e.Send? && e.index == index && e.progress.PartReceived?
  }

  /** One reply keeps the text matching the notices sent. */
  lemma StepKeepsSentText(c: Consumed, item: StreamItem, index: nat)
    requires SentMatchesText(c, index)
    ensures SentMatchesText(ConsumeStep(c, item, index), index)
  {
    if c.failed.None? && item.Ok? {
      var parts := FirstParts(item.value);
      var sends := PartSends(index, parts, |parts|);
      var next := ConsumeStep(c, item, index);
      assert next.sent == c.sent + sends && next.text == c.text + TextOfParts(parts, |parts|);
      SentTextOfParts(index, parts, |parts|);
      TextOfSendsAppend(c.sent, sends, |parts|);
      PartSendsAreParts(index, parts);
    }
  }

  lemma PartSendsAreParts(index: nat, parts: seq<Gemini.Part>)
    ensures forall e :: e in PartSends(index, parts, |parts|) ==> e.Send? && e.index == index && e.progress.PartReceived?
  {
    var sends := PartSends(index, parts, |parts|);
    forall e | e in sends
      ensures e.Send? && e.index == index && e.progress.PartReceived?
    {
      var i :| 0 <= i < |sends| && sends[i] == e;
    }
  }

  /**
   * The accumulated text is exactly the concatenation, in order, of the
   * texts of the part notices sent, and every notice sent is a part for the
   * task's message.
   */
  lemma {:induction false} AccumulatedTextIsSentText(items: seq<StreamItem>, n: nat, index: nat)
    requires n <= |items|
    ensures SentMatchesText(Consume(items, n, index), index)
  {
    if n > 0 {
      AccumulatedTextIsSentText(items, n - 1, index);
      StepKeepsSentText(Consume(items, n - 1, index), items[n - 1], index);
    }
  }

  /** The usage reported last among the first `n` replies, searched from the end. */
  function LastUsage(items: seq<StreamItem>, n: nat): Option<Gemini.UsageMetadata>
    requires n <= |items|
  {
    if n == 0 then None
    else if items[n - 1].Ok? && items[n - 1].value.usage.Some? then items[n - 1].value.usage
    else LastUsage(items, n - 1)
  }

  /** Without an error, the usage kept is the one the latest reply reporting usage carried. */
  lemma {:induction false} UsageIsLastReported(items: seq<StreamItem>, n: nat, index: nat)
    requires n <= |items| && forall i :: 0 <= i < n ==> items[i].Ok?
    ensures Consume(items, n, index).usage == LastUsage(items, n)
    ensures Consume(items, n, index).failed.None?
  {
    if n > 0 {
      UsageIsLastReported(items, n - 1, index);
    }
  }

  /** The first error item ends the task with a failure carrying its text verbatim; the parts before it have been sent. */
  lemma FirstErrorEndsTask(items: seq<StreamItem>, j: nat, n: nat, index: nat)
    requires j < n <= |items| && items[j].Err? && forall i :: 0 <= i < j ==> items[i].Ok?
    ensures OutcomeOf(Consume(items, n, index), index) == Failure(index, items[j].error)
    ensures Consume(items, n, index).sent == Consume(items, j, index).sent
  {
    UsageIsLastReported(items, j, index);
    var before := Consume(items, j, index);
    assert Consume(items, j + 1, index) == before.(failed := Some(items[j].error));
    FailureIsFinal(items, j + 1, n, index);
  }

  /** A successful completion's log is the history builder's, ending with the cleared status, then the part notices; its text is theirs. */
  lemma CompletionLog(messages: seq<Message>, index: nat, useStreaming: bool, publicFileUpload: bool,
                      config: Gemini.GenerationConfig, codeAssist: bool, world: HistoryBuilder.Oracle, service: Service)
    ensures var r := Completion(messages, index, useStreaming, publicFileUpload, config, codeAssist, world, service);
      var built := HistoryBuilder.Build(messages, None, publicFileUpload && !codeAssist, Some(index), world);
      && |built.log| > 0 && built.log[|built.log| - 1] == HistoryBuilder.Send(index, Status(""))
      && r.log[..|built.log|] == built.log
      && (r.outcome.Success? ==> r.outcome.text == TextOfSends(r.log[|built.log|..], |r.log| - |built.log|))
      && r.outcome.index == index
  {
    var built := HistoryBuilder.Build(messages, None, publicFileUpload && !codeAssist, Some(index), world);
    var c := ConsumeReply(service, useStreaming, !codeAssist, index);
    var r := Completion(messages, index, useStreaming, publicFileUpload, config, codeAssist, world, service);
    assert r.log[|built.log|..] == c.sent;
    if useStreaming && !(!codeAssist && service.cancelAt == Some(0)) && service.stream.Ok? {
      var items := service.stream.value;
      AccumulatedTextIsSentText(items, Reached(items, service.cancelAt), index);
    } else if !useStreaming && service.cancelAt.None? && service.single.Ok? {
      var parts := FirstParts(service.single.value);
      SentTextOfParts(index, parts, |parts|);
    }
  }

  /** Cancelling an API-key stream before it opens succeeds with no text, no usage and nothing sent after the history. */
  lemma CancelBeforeOpen(messages: seq<Message>, index: nat, publicFileUpload: bool, config: Gemini.GenerationConfig,
                         world: HistoryBuilder.Oracle, service: Service)
    requires service.cancelAt == Some(0)
    ensures var r := Completion(messages, index, true, publicFileUpload, config, false, world, service);
      && r.outcome == Success(index, "", None)
      && r.log == HistoryBuilder.Build(messages, None, publicFileUpload, Some(index), world).log
  {
  }

  /** Through Code Assist a stream that fails to open fails the task even when cancellation was requested. */
  lemma CodeAssistOpenFailureWins(messages: seq<Message>, index: nat, publicFileUpload: bool, config: Gemini.GenerationConfig,
                                  world: HistoryBuilder.Oracle, service: Service)
    requires service.stream.Err? && service.cancelAt == Some(0)
    ensures Completion(messages, index, true, publicFileUpload, config, true, world, service).outcome == Failure(index, service.stream.error)
  {
  }

  /** A task refused before any request reports the reason for its message, sends nothing and makes no request. */
  lemma RefusedTaskSendsNothing(job: ChatState.CompletionJob, world: HistoryBuilder.Oracle, clientError: Option<string>, service: Service)
    ensures var r := RunTask(job, world, clientError, service);
      r.request.None? ==> r.log == [] && r.outcome.Failure? && r.outcome.index == job.index
    ensures job.authMethod.ApiKey? && |job.apiKey| == 0 ==>
      RunTask(job, world, clientError, service) == TaskResult(None, [], Failure(job.index, ApiKeyMissing))
    ensures job.authMethod.CodeAssist? && (|job.oauthToken| == 0 || |job.projectId| == 0) ==>
      RunTask(job, world, clientError, service) == TaskResult(None, [], Failure(job.index, LoginMissing))
    ensures job.authMethod.ApiKey? && |job.apiKey| > 0 && clientError.Some? ==>
      RunTask(job, world, clientError, service) == TaskResult(None, [], Failure(job.index, ClientFailurePrefix + clientError.value))
    ensures ((job.authMethod.ApiKey? ==> |job.apiKey| > 0 && clientError.None?)
             && (job.authMethod.CodeAssist? ==> |job.oauthToken| > 0 && |job.projectId| > 0))
            ==> RunTask(job, world, clientError, service).request.Some?
  {
  }

  /** Through Code Assist, attachments are never uploaded, whatever the upload setting. */
  lemma CodeAssistNeverUploads(job: ChatState.CompletionJob, world: HistoryBuilder.Oracle, clientError: Option<string>, service: Service)
    requires job.authMethod.CodeAssist?
    ensures forall e :: e in RunTask(job, world, clientError, service).log && e.Convert? ==> !e.upload
  {
    var r := RunTask(job, world, clientError, service);
    if r.request.Some? {
      HistoryBuilder.NoUploadWithoutPermission(job.messages, None, Some(job.index), world);
      var built := HistoryBuilder.Build(job.messages, None, false, Some(job.index), world);
      var c := ConsumeReply(service, job.useStreaming, false, job.index);
      if job.useStreaming && service.stream.Ok? {
        var items := service.stream.value;
        AccumulatedTextIsSentText(items, Reached(items, service.cancelAt), job.index);
      }
      assert r.log == built.log + c.sent;
      forall e | e in r.log && e.Convert?
        ensures !e.upload
      {
        assert e in built.log || e in c.sent;
      }
    }
  }
}
