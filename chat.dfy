/**
 * One chat: its message log and compose box, how progress from a running
 * completion task is folded into the log, how a task's terminal outcome is
 * shown, and how a new request is started.
 */
module ChatState {
  import opened Base
  import Gemini
  import opened Messages
  import Widgets
  import ErrorDiagnosis
  import HistoryBuilder

  /** A message of the progress channel: the index of the message it concerns and the progress. */
  type Notice = (nat, ChatProgress)

  // ---------------------------------------------------------------------------
  // Progress, as functions of the message log

  /** The message at `idx`, if any, with its status line replaced. */
  function WithStatus(msgs: seq<Message>, idx: nat, status: Option<string>): seq<Message> {
    if idx < |msgs| then msgs[idx := msgs[idx].(statusMessage := status)] else msgs
  }

  /** Index of the first attachment with the given path. */
  function FirstWithPath(files: seq<Attachment>, path: string): (r: Option<nat>)
    ensures r.Some? ==> r.value < |files| && files[r.value].path == path
                        && forall j :: 0 <= j < r.value ==> files[j].path != path
    ensures r.None? ==> forall j :: 0 <= j < |files| ==> files[j].path != path
  {
    if |files| == 0 then None
    else if files[0].path == path then Some(0)
    else match FirstWithPath(files[1..], path)
      case None => None
      case Some(i) => Some(i + 1)
  }

  /** The first attachment with `path` of the message at `idx`, if both exist, gets `state`. */
  function WithAttachmentState(msgs: seq<Message>, idx: nat, path: string, state: AttachmentState): seq<Message> {
    if idx < |msgs| then
      match FirstWithPath(msgs[idx].files, path)
      case None => msgs
      case Some(i) =>
        var files := msgs[idx].files;
        msgs[idx := msgs[idx].(files := files[i := files[i].(state := state)])]
    else msgs
  }

  /** The spinner of `m` stops and its generation time is taken. */
  function Settled(m: Message, now: nat): Message {
    m.(isGenerating := false, generationTime := Some(Elapsed(now, m.requestedAt)))
  }

  /**
   * A text part acts on the last message: a thought is appended to it and
   * marks it as a thought; an answer after a thought settles the thought and
   * starts a new assistant message; any other answer is appended.
   */
  function ApplyText(msgs: seq<Message>, text: string, thought: bool, now: nat): (r: seq<Message>)
    requires |msgs| > 0
    ensures |r| == |msgs| || |r| == |msgs| + 1
  {
    var k := |msgs| - 1;
    var last := msgs[k];
    if thought then msgs[k := last.(isThought := true, content := last.content + text)]
    else if last.isThought then msgs[k := Settled(last, now)] + [AssistantMessage(text, last.model, now)]
    else msgs[k := last.(content := last.content + text)]
  }

  predicate NeedsMessage(n: Notice) {
    IsTextPart(n.1)
  }

  /** One progress message. */
  function ApplyNotice(msgs: seq<Message>, n: Notice, now: nat): (r: seq<Message>)
    requires NeedsMessage(n) ==> |msgs| > 0
    ensures |r| >= |msgs|
  {
    var (idx, progress) := n;
    match progress
    case PartReceived(part) =>
      var cleared := WithStatus(msgs, idx, None);
      if part.Text? then ApplyText(cleared, part.text, part.thought.GetOr(false), now) else cleared
    case Status(s) => WithStatus(msgs, idx, Some(s))
    case FileUploading(path) => WithAttachmentState(msgs, idx, path, Uploading)
    case FileUploaded(path, file) => WithAttachmentState(msgs, idx, path, Uploaded(file))
  }

  /** A text part needs a message to act on; every other notice can arrive on an empty log. */
  ghost predicate Applicable(msgs: seq<Message>, notices: seq<Notice>) {
    |msgs| > 0 || forall i :: 0 <= i < |notices| ==> !NeedsMessage(notices[i])
  }

  /** The log after the first `n` notices. */
  function ApplyNotices(msgs: seq<Message>, notices: seq<Notice>, n: nat, now: nat): (r: seq<Message>)
    requires n <= |notices| && Applicable(msgs, notices)
    ensures |r| >= |msgs|
  {
    if n == 0 then msgs
    else ApplyNotice(ApplyNotices(msgs, notices, n - 1, now), notices[n - 1], now)
  }

  // ---------------------------------------------------------------------------
  // The terminal outcome

  const PanicPrefix := "Tokio task panicked: "

  /** The message an error outcome is shown on, and its error text. */
  function FailureTarget(msgs: seq<Message>, o: Outcome): (Option<nat>, string)
    requires !o.Success?
  {
    match o
    case Failure(idx, e) => (if idx < |msgs| then Some(idx) else None, e)
    case Panicked(e) => (if |msgs| > 0 then Some(|msgs| - 1) else None, PanicPrefix + e)
  }

  /** The failed message shows the explanation, is marked as an error and settles. */
  function ShownAsError(m: Message, text: string, now: nat): Message {
    Settled(m, now).(content := text, isError := true, statusMessage := None)
  }

  /** After any outcome, a last message still generating settles and loses its status. */
  function SettleLast(msgs: seq<Message>, now: nat): (r: seq<Message>)
    ensures |r| == |msgs|
  {
    if |msgs| > 0 && msgs[|msgs| - 1].isGenerating then
      msgs[|msgs| - 1 := Settled(msgs[|msgs| - 1], now).(statusMessage := None)]
    else msgs
  }

  datatype Finalized = Finalized(messages: seq<Message>, alert: Option<string>)

  /**
   * The terminal outcome: a success stores the usage on its message and clears
   * its status; an error is diagnosed, shown on its message and raised as an
   * alert; then the last message settles.
   */
  function ApplyOutcome(msgs: seq<Message>, o: Outcome, now: nat, parse: ErrorDiagnosis.JsonParser): Finalized {
    var recorded := Recorded(msgs, o, now, parse);
    Finalized(SettleLast(recorded.messages, now), recorded.alert)
  }

  /** The outcome recorded on its own message, before the last message settles. */
  function Recorded(msgs: seq<Message>, o: Outcome, now: nat, parse: ErrorDiagnosis.JsonParser): Finalized {
    if o.Success? then
      Finalized(if o.index < |msgs| then msgs[o.index := msgs[o.index].(usage := o.usage, statusMessage := None)] else msgs, None)
    else
      var (target, raw) := FailureTarget(msgs, o);
      var text := ErrorDiagnosis.Diagnose(raw, parse);
      Finalized(if target.Some? then msgs[target.value := ShownAsError(msgs[target.value], text, now)] else msgs, Some(text))
  }

  /** One poll: every pending notice in order, then the outcome if the task has finished. */
  function Poll(msgs: seq<Message>, notices: seq<Notice>, outcome: Option<Outcome>, now: nat, parse: ErrorDiagnosis.JsonParser): Finalized
    requires Applicable(msgs, notices)
  {
    var applied := ApplyNotices(msgs, notices, |notices|, now);
    if outcome.Some? then ApplyOutcome(applied, outcome.value, now, parse) else Finalized(applied, None)
  }

  // ---------------------------------------------------------------------------
  // Starting a request

  const SummaryLength := 24

  /** The first character of a summary is upper-cased. */
  function Capitalized(s: string): string {
    if |s| == 0 then s else [ToUpperAscii(s[0])] + s[1..]
  }

  /**
   * The chat title made from the first prompt: its first line, cut at 24
   * characters with an ellipsis when the prompt goes on past them, first
   * character upper-cased.
   */
  function SummaryOf(prompt: string): string {
    var head := if |prompt| <= SummaryLength then prompt else prompt[..SummaryLength];
    match Find(head, '\n')
    case Some(k) => Capitalized(head[..k])
    case None => Capitalized(head) + (if |prompt| > SummaryLength then "…" else "")
  }

  /** `make_summary`. */
  method MakeSummary(prompt: string) returns (summary: string)
    ensures summary == SummaryOf(prompt)
  {
    summary := "";
    var i := 0;
    while i < |prompt|
      invariant 0 <= i <= |prompt| && i <= SummaryLength
      invariant '\n' !in prompt[..i]
      invariant summary == Capitalized(prompt[..i])
    {
      if i >= SummaryLength {
        summary := summary + "…";
        assert prompt[..SummaryLength] == prompt[..i];
        return;
      }
      var ch := prompt[i];
      if ch == '\n' {
        assert prompt[..i + 1][i] == '\n';
        return;
      }
      if i == 0 {
        summary := summary + [ToUpperAscii(ch)];
      } else {
        summary := summary + [ch];
      }
      assert prompt[..i + 1] == prompt[..i] + [ch];
      i := i + 1;
    }
    assert prompt[..i] == prompt;
  }

  const ReflectionsOpen := "MY INNER REFLECTIONS: "
  /** The closing marker, with a literal backslash-r backslash-n as the source writes it in a raw string. */
  const ReflectionsClose := "--- end of inner reflections ---\\r\\n"

  /** A thought, as it is put into the history when thoughts are included. */
  function FoldedThought(m: Message): Message {
    if m.isThought then m.(isThought := false, content := ReflectionsOpen + m.content + ReflectionsClose) else m
  }

  /** Folding every thought message of a log in place. */
  method FoldThoughts(messages: seq<Message>) returns (folded: seq<Message>)
    ensures |folded| == |messages|
    ensures forall i :: 0 <= i < |messages| ==> folded[i] == FoldedThought(messages[i])
  {
    folded := messages;
    for i := 0 to |folded|
      invariant |folded| == |messages|
      invariant forall j :: 0 <= j < i ==> folded[j] == FoldedThought(messages[j])
      invariant forall j :: i <= j < |messages| ==> folded[j] == messages[j]
    {
      var msg := folded[i];
      if msg.isThought {
        msg := msg.(isThought := false);
        msg := msg.(content := ReflectionsOpen + msg.content);
        msg := msg.(content := msg.content + ReflectionsClose);
        folded := folded[i := msg];
      }
    }
  }

  /** What a spawned completion task is given. */
  datatype CompletionJob = CompletionJob(
    messages: seq<Message>,
    index: nat,
    useStreaming: bool,
    publicFileUpload: bool,
    config: Gemini.GenerationConfig,
    authMethod: Widgets.AuthMethod,
    apiKey: string,
    oauthToken: string,
    projectId: string,
    proxyPath: Option<string>,
    model: Widgets.GeminiModel)

  /** The outcome sent on the progress channel of a task. */
  function ResponseIndex(msgs: seq<Message>, target: Option<nat>): nat
    requires target.Some? || |msgs| > 0
  {
    if target.Some? then target.value else |msgs| - 1
  }

  /** The message a user's prompt becomes. */
  function PromptOf(chatbox: string): string {
    TrimEnd(chatbox)
  }

  /** The log without its error messages, in order. */
  function NonErrors(msgs: seq<Message>): (r: seq<Message>)
    ensures forall i :: 0 <= i < |r| ==> !r[i].isError
    ensures forall m :: m in r ==> m in msgs
    ensures forall i :: 0 <= i < |msgs| && !msgs[i].isError ==> msgs[i] in r
    ensures |r| <= |msgs|
  {
    if |msgs| == 0 then []
    else NonErrors(msgs[..|msgs| - 1]) + (if msgs[|msgs| - 1].isError then [] else [msgs[|msgs| - 1]])
  }

  /** Filtering keeps order and multiplicity: the filtered concatenation is the concatenation of the filtered parts. */
  lemma {:induction false} NonErrorsAppend(a: seq<Message>, b: seq<Message>)
    ensures NonErrors(a + b) == NonErrors(a) + NonErrors(b)
    decreases |b|
  {
    if |b| == 0 {
      assert a + b == a;
    } else {
      var init := b[..|b| - 1];
      var last := b[|b| - 1];
      var tail := if last.isError then [] else [last];
      assert (a + b)[..|a + b| - 1] == a + init && (a + b)[|a + b| - 1] == last;
      assert NonErrors(a + b) == NonErrors(a + init) + tail;
      NonErrorsAppend(a, init);
      assert NonErrors(b) == NonErrors(init) + tail;
    }
  }

  /** A log without error messages is left as it is. */
  lemma {:induction false} NonErrorsOfCleanLog(msgs: seq<Message>)
    requires forall i :: 0 <= i < |msgs| ==> !msgs[i].isError
    ensures NonErrors(msgs) == msgs
  {
    if |msgs| > 0 {
      NonErrorsOfCleanLog(msgs[..|msgs| - 1]);
    }
  }

  /** How `m` is shown as the latest message of a chat. */
  function Preview(m: Message): string {
    if m.role == User then "You: " + m.content else m.content
  }

  /** The preview of the last message with text among the first `n`; None when none of them has text. */
  function LastContentsBefore(msgs: seq<Message>, n: nat): (r: Option<string>)
    requires n <= |msgs|
    ensures r.None? <==> forall i :: 0 <= i < n ==> |msgs[i].content| == 0
    ensures r.Some? ==> exists i :: 0 <= i < n && |msgs[i].content| > 0 && r.value == Preview(msgs[i])
                                    && (forall j :: i < j < n ==> |msgs[j].content| == 0)
  {
    if n == 0 then None
    else if |msgs[n - 1].content| == 0 then LastContentsBefore(msgs, n - 1)
    else Some(Preview(msgs[n - 1]))
  }

  /** The preview of the last message with text. */
  function LastContents(msgs: seq<Message>): Option<string> {
    LastContentsBefore(msgs, |msgs|)
  }

  // ---------------------------------------------------------------------------
  // The chat

  class Chat {
    const id: nat
    var chatbox: string
    var messages: seq<Message>
    var summary: string
    var modelPicker: Widgets.ModelPicker
    var files: seq<Attachment>
    var tokenCount: Option<Gemini.u32>
    var lastContentHash: nat
    var lastTokenCheck: Option<nat>

    /** `Chat::new`: an empty chat. */
    constructor(id: nat, modelPicker: Widgets.ModelPicker)
      ensures this.id == id && this.modelPicker == modelPicker
      ensures chatbox == "" && messages == [] && summary == "" && files == []
      ensures tokenCount.None? && lastContentHash == 0 && lastTokenCheck.None?
    {
      this.id := id;
      this.modelPicker := modelPicker;
      chatbox, messages, summary, files := "", [], "", [];
      tokenCount, lastContentHash, lastTokenCheck := None, 0, None;
    }

    /**
     * `poll_flower`: applies the pending notices of the completion task in
     * order, then its outcome when it has finished; returns the text of the
     * alert raised for an error.
     */
    method PollFlower(notices: seq<Notice>, outcome: Option<Outcome>, now: nat, parse: ErrorDiagnosis.JsonParser)
      returns (alert: Option<string>)
      modifies this`messages
      requires Applicable(messages, notices)
      ensures Finalized(messages, alert) == Poll(old(messages), notices, outcome, now, parse)
    {
      ghost var start := messages;
      for i := 0 to |notices|
        invariant messages == ApplyNotices(start, notices, i, now)
      {
        TakeNotice(notices[i], now);
      }
      alert := None;
      if outcome.Some? {
        alert := Finalize(outcome.value, now, parse);
      }
    }

    /** One notice of `poll_flower`'s loop. */
    method TakeNotice(notice: Notice, now: nat)
      modifies this`messages
      requires NeedsMessage(notice) ==> |messages| > 0
      ensures messages == ApplyNotice(old(messages), notice, now)
    {
      var (idx, progress) := notice;
      match progress {
        case PartReceived(part) =>
          if idx < |messages| {
            messages := messages[idx := messages[idx].(statusMessage := None)];
          }
          if part.Text? {
            var k := |messages| - 1;
            var current := messages[k];
            if part.thought.GetOr(false) {
              if !current.isThought {
                current := current.(isThought := true);
              }
              messages := messages[k := current.(content := current.content + part.text)];
            } else if current.isThought {
              current := current.(isGenerating := false);
              current := current.(generationTime := Some(Elapsed(now, current.requestedAt)));
              messages := messages[k := current] + [AssistantMessage(part.text, current.model, now)];
            } else {
              messages := messages[k := current.(content := current.content + part.text)];
            }
          }
        case Status(s) =>
          if idx < |messages| {
            messages := messages[idx := messages[idx].(statusMessage := Some(s))];
          }
        case FileUploading(path) =>
          SetAttachmentState(idx, path, Uploading);
        case FileUploaded(path, file) =>
          SetAttachmentState(idx, path, Uploaded(file));
      }
    }

    method SetAttachmentState(idx: nat, path: string, state: AttachmentState)
      modifies this`messages
      ensures messages == WithAttachmentState(old(messages), idx, path, state)
    {
      if idx < |messages| {
        var found := FirstWithPath(messages[idx].files, path);
        if found.Some? {
          var files := messages[idx].files;
          messages := messages[idx := messages[idx].(files := files[found.value := files[found.value].(state := state)])];
        }
      }
    }

    /** The `finalize` step of `poll_flower`. */
    method Finalize(outcome: Outcome, now: nat, parse: ErrorDiagnosis.JsonParser) returns (alert: Option<string>)
      modifies this`messages
      ensures Finalized(messages, alert) == ApplyOutcome(old(messages), outcome, now, parse)
    {
      alert := RecordOutcome(outcome, now, parse);
      SettleLastMessage(now);
    }

    method RecordOutcome(outcome: Outcome, now: nat, parse: ErrorDiagnosis.JsonParser) returns (alert: Option<string>)
      modifies this`messages
      ensures Finalized(messages, alert) == Recorded(old(messages), outcome, now, parse)
    {
      alert := None;
      match outcome {
        case Success(idx, _, usage) =>
          if idx < |messages| {
            messages := messages[idx := messages[idx].(usage := usage, statusMessage := None)];
          }
        case _ =>
          var (target, msg) := FailureTarget(messages, outcome);
          var finalMsg := ErrorDiagnosis.Diagnose(msg, parse);
          if target.Some? {
            var m := messages[target.value];
            m := m.(content := finalMsg, isError := true, isGenerating := false);
            m := m.(generationTime := Some(Elapsed(now, m.requestedAt)), statusMessage := None);
            messages := messages[target.value := m];
          }
          alert := Some(finalMsg);
      }
    }

    method SettleLastMessage(now: nat)
      modifies this`messages
      ensures messages == SettleLast(old(messages), now)
    {
      if |messages| > 0 {
        var last := messages[|messages| - 1];
        if last.isGenerating {
          last := last.(isGenerating := false);
          last := last.(generationTime := Some(Elapsed(now, last.requestedAt)), statusMessage := None);
          messages := messages[|messages| - 1 := last];
        }
      }
    }

    /**
     * `send_message`: with something to send, drops old error messages,
     * appends the user's message (compose text without trailing whitespace)
     * and an empty generating assistant message, names the chat after the
     * first prompt, clears the compose box and starts a task for the last
     * message. With nothing to send, nothing happens.
     */
    method SendMessage(settings: Widgets.Settings, now: nat) returns (job: Option<CompletionJob>)
      modifies this`messages, this`summary, this`chatbox, this`files
      ensures old(|chatbox| == 0 && |files| == 0) ==>
        job.None? && messages == old(messages) && chatbox == old(chatbox) && files == old(files) && summary == old(summary)
      ensures old(|chatbox| > 0 || |files| > 0) ==>
        var model := modelPicker.selected;
        var prompt := PromptOf(old(chatbox));
        && messages == NonErrors(old(messages)) + [UserMessage(prompt, model, old(files), now), AssistantMessage("", model, now)]
        && summary == (if |old(summary)| == 0 then SummaryOf(prompt) else old(summary))
        && chatbox == "" && files == []
        && job == Some(JobFor(messages, modelPicker, settings, None))
    {
      if |chatbox| == 0 && |files| == 0 {
        return None;
      }
      PostPrompt(now);
      var spawned := SpawnCompletion(settings, None);
      job := Some(spawned);
    }

    /** The part of `send_message` that moves the compose box into the log. */
    method PostPrompt(now: nat)
      modifies this`messages, this`summary, this`chatbox, this`files
      ensures var model := modelPicker.selected;
        var prompt := PromptOf(old(chatbox));
        && messages == NonErrors(old(messages)) + [UserMessage(prompt, model, old(files), now), AssistantMessage("", model, now)]
        && summary == (if |old(summary)| == 0 then SummaryOf(prompt) else old(summary))
        && chatbox == "" && files == []
    {
      messages := RetainNonErrors(messages);
      var prompt := TrimEnd(chatbox);
      var model := modelPicker.selected;
      messages := messages + [UserMessage(prompt, model, files, now)];
      if |summary| == 0 {
        summary := MakeSummary(prompt);
      }
      chatbox := "";
      files := [];
      messages := messages + [AssistantMessage("", model, now)];
    }

    /** `Vec::retain` with the predicate "is not an error". */
    static method RetainNonErrors(msgs: seq<Message>) returns (kept: seq<Message>)
      ensures kept == NonErrors(msgs)
    {
      kept := [];
      for i := 0 to |msgs|
        invariant kept == NonErrors(msgs[..i])
      {
        assert msgs[..i + 1][..i] == msgs[..i];
        if !msgs[i].isError {
          kept := kept + [msgs[i]];
        }
      }
      assert msgs[..|msgs|] == msgs;
    }

    /**
     * `spawn_completion`: what the task is given: a copy of the log with
     * thoughts folded into ordinary messages when they are to be included,
     * the index of the message to answer (the given one, else the last), and
     * the settings it uses.
     */
    method SpawnCompletion(settings: Widgets.Settings, target: Option<nat>) returns (job: CompletionJob)
      requires target.Some? || |messages| > 0
      ensures job == JobFor(messages, modelPicker, settings, target)
    {
      var msgs := messages;
      var index := if target.Some? then target.value else |messages| - 1;
      if settings.includeThoughtsInHistory {
        msgs := FoldThoughts(msgs);
        assert msgs == FoldAll(messages) by {
          assert forall i :: 0 <= i < |messages| ==> FoldAll(messages)[i] == FoldedThought(messages[i]);
        }
      }
      job := CompletionJob(msgs, index, settings.useStreaming, settings.publicFileUpload,
                           Widgets.GetGenerationConfig(modelPicker), settings.authMethod, settings.apiKey,
                           settings.oauthToken, settings.projectId, settings.proxyPath, modelPicker.selected);
    }

    /** `last_message_contents`. */
    method LastMessageContents() returns (r: Option<string>)
      ensures r == LastContents(messages)
    {
      var i := |messages|;
      while i > 0
        invariant 0 <= i <= |messages|
        invariant LastContents(messages) == LastContentsBefore(messages, i)
      {
        var message := messages[i - 1];
        if |message.content| == 0 {
          i := i - 1;
          continue;
        }
        return Some(if message.role == User then "You: " + message.content else message.content);
      }
      return None;
    }
  }

  /** Every message with each thought folded. */
  function FoldAll(msgs: seq<Message>): (r: seq<Message>)
    ensures |r| == |msgs|
  {
    seq(|msgs|, i requires 0 <= i < |msgs| => FoldedThought(msgs[i]))
  }

  /** The job `spawn_completion` describes for a log, a model picker and the settings. */
  function JobFor(msgs: seq<Message>, picker: Widgets.ModelPicker, settings: Widgets.Settings, target: Option<nat>): CompletionJob
    requires target.Some? || |msgs| > 0
  {
    CompletionJob(
      if settings.includeThoughtsInHistory then FoldAll(msgs) else msgs,
      ResponseIndex(msgs, target), settings.useStreaming, settings.publicFileUpload,
      Widgets.GetGenerationConfig(picker), settings.authMethod, settings.apiKey,
      settings.oauthToken, settings.projectId, settings.proxyPath, picker.selected)
  }

  // ---------------------------------------------------------------------------
  // Properties of polling

  /** A notice with a text part that is (or is not) a thought. */
  predicate IsTextNotice(n: Notice, thought: bool) {
    IsTextPart(n.1) && n.1.part.thought.GetOr(false) == thought
  }

  /** The text a notice carries: its text part's text, or nothing. */
  function NoticeText(n: Notice): string {
    if IsTextPart(n.1) then n.1.part.text else ""
  }

  /** The texts of the notices from `from` up to `to`, concatenated. */
  function TextOf(notices: seq<Notice>, from: nat, to: nat): string
    requires from <= to <= |notices|
  {
    if to == from then "" else TextOf(notices, from, to - 1) + NoticeText(notices[to - 1])
  }

  /** A part clears the status of its message; a part that is not text does nothing else. */
  lemma PartClearsStatus(msgs: seq<Message>, idx: nat, part: Gemini.Part, now: nat)
    requires idx < |msgs|
    ensures var r := ApplyNotice(msgs, (idx, PartReceived(part)), now);
      && r[idx].statusMessage.None?
      && (!part.Text? ==> r == msgs[idx := msgs[idx].(statusMessage := None)])
  {
  }

  /** A status notice sets the status of its message and of no other; no content changes. */
  lemma StatusTargetsOneMessage(msgs: seq<Message>, idx: nat, status: string, now: nat)
    ensures var r := ApplyNotice(msgs, (idx, Status(status)), now);
      && |r| == |msgs|
      && (idx < |msgs| ==> r[idx].statusMessage == Some(status) && r[idx].content == msgs[idx].content)
      && forall j :: 0 <= j < |msgs| && j != idx ==> r[j] == msgs[j]
  {
  }

  /**
   * An upload notice changes the state of the first attachment of its message
   * with that path, and nothing else; with no such attachment nothing changes.
   */
  lemma UploadNoticeHitsFirstMatch(msgs: seq<Message>, n: Notice, now: nat)
    requires n.1.FileUploading? || n.1.FileUploaded?
    ensures var (idx, progress) := n;
      var state := if progress.FileUploading? then Uploading else Uploaded(progress.file);
      var r := ApplyNotice(msgs, n, now);
      && |r| == |msgs|
      && (forall j :: 0 <= j < |msgs| && j != idx ==> r[j] == msgs[j])
      && (idx < |msgs| ==>
            var files := msgs[idx].files;
            && r[idx] == msgs[idx].(files := r[idx].files)
            && |r[idx].files| == |files|
            && match FirstWithPath(files, progress.path)
               case None => r[idx].files == files
               case Some(k) => r[idx].files[k] == files[k].(state := state)
                               && forall j :: 0 <= j < |files| && j != k ==> r[idx].files[j] == files[j])
  {
  }

  /**
   * Thought text parts accumulate on the last message, which becomes a
   * thought; the number of messages and their other contents do not change.
   */
  lemma {:induction false} ThoughtsAccumulate(msgs: seq<Message>, notices: seq<Notice>, n: nat, now: nat)
    requires |msgs| > 0 && n <= |notices|
    requires forall i :: 0 <= i < n ==> IsTextNotice(notices[i], true)
    ensures Applicable(msgs, notices)
    ensures var r := ApplyNotices(msgs, notices, n, now); var k := |msgs| - 1;
      && |r| == |msgs|
      && r[k].content == msgs[k].content + TextOf(notices, 0, n)
      && (r[k].isThought <==> msgs[k].isThought || n > 0)
      && r[k].isGenerating == msgs[k].isGenerating && r[k].role == msgs[k].role && r[k].model == msgs[k].model
      && r[k].requestedAt == msgs[k].requestedAt
      && forall j :: 0 <= j < k ==> r[j].content == msgs[j].content
  {
    if n > 0 {
      ThoughtsAccumulate(msgs, notices, n - 1, now);
    }
  }

  /** The last message, not a thought, has `text` appended; no message is added and no other text changes. */
  ghost predicate AnswerAppended(msgs: seq<Message>, r: seq<Message>, text: string)
    requires |msgs| > 0
  {
    var k := |msgs| - 1;
    && |r| == |msgs|
    && r[k].content == msgs[k].content + text
    && !r[k].isThought && r[k].isGenerating == msgs[k].isGenerating
    && forall j :: 0 <= j < k ==> r[j].content == msgs[j].content
  }

  /**
   * Answer text parts on a last message that is not a thought are appended to
   * it; the number of messages does not change.
   */
  lemma {:induction false} AnswersAppend(msgs: seq<Message>, notices: seq<Notice>, n: nat, now: nat)
    requires |msgs| > 0 && !msgs[|msgs| - 1].isThought && n <= |notices|
    requires forall i :: 0 <= i < n ==> IsTextNotice(notices[i], false)
    ensures Applicable(msgs, notices)
    ensures AnswerAppended(msgs, ApplyNotices(msgs, notices, n, now), TextOf(notices, 0, n))
  {
    if n > 0 {
      AnswersAppend(msgs, notices, n - 1, now);
      AnswerStillAppends(msgs, ApplyNotices(msgs, notices, n - 1, now), TextOf(notices, 0, n - 1), notices[n - 1], now);
    }
  }

  lemma AnswerStillAppends(msgs: seq<Message>, prev: seq<Message>, text: string, n: Notice, now: nat)
    requires |msgs| > 0 && AnswerAppended(msgs, prev, text) && IsTextNotice(n, false)
    ensures AnswerAppended(msgs, ApplyNotice(prev, n, now), text + NoticeText(n))
  {
    AnswerExtends(prev, n, now);
  }

  /**
   * The first answer part after a thought ends the thought: its spinner stops
   * with the elapsed time, and exactly one new generating assistant message
   * holding the answer text is added.
   */
  lemma AnswerAfterThoughtSplits(msgs: seq<Message>, n: Notice, now: nat)
    requires |msgs| > 0 && msgs[|msgs| - 1].isThought && IsTextNotice(n, false)
    ensures var r := ApplyNotice(msgs, n, now); var k := |msgs| - 1;
      && |r| == |msgs| + 1
      && r[k].isThought && !r[k].isGenerating && r[k].content == msgs[k].content
      && r[k].generationTime == Some(Elapsed(now, msgs[k].requestedAt))
      && r[k + 1] == AssistantMessage(n.1.part.text, msgs[k].model, now)
      && forall j :: 0 <= j < k ==> r[j].content == msgs[j].content
  {
  }

  /** One more answer part on a last message that is not a thought is appended to it. */
  lemma AnswerExtends(msgs: seq<Message>, n: Notice, now: nat)
    requires |msgs| > 0 && !msgs[|msgs| - 1].isThought && IsTextNotice(n, false)
    ensures var r := ApplyNotice(msgs, n, now); var k := |msgs| - 1;
      && |r| == |msgs|
      && r[k] == msgs[k].(content := msgs[k].content + NoticeText(n), statusMessage := r[k].statusMessage)
      && forall j :: 0 <= j < k ==> r[j] == msgs[j].(statusMessage := r[j].statusMessage)
  {
  }

  /** What the last message and the new one hold and do once a reply has thought and then answered. */
  ghost predicate ThoughtThenAnswered(msgs: seq<Message>, r: seq<Message>, thought: string, answer: string)
    requires |msgs| > 0
  {
    var k := |msgs| - 1;
    && |r| == |msgs| + 1
    && r[k].isThought && !r[k].isGenerating && r[k].content == msgs[k].content + thought
    && r[k + 1].role == Assistant && !r[k + 1].isThought && r[k + 1].isGenerating
    && r[k + 1].content == answer && r[k + 1].model == msgs[k].model
    && forall j :: 0 <= j < k ==> r[j].content == msgs[j].content
  }

  /** The first answer part after some thought parts splits the reply. */
  lemma FirstAnswerAfterThoughts(msgs: seq<Message>, notices: seq<Notice>, t: nat, now: nat)
    requires |msgs| > 0 && 0 < t < |notices|
    requires forall i :: 0 <= i < t ==> IsTextNotice(notices[i], true)
    requires IsTextNotice(notices[t], false)
    ensures Applicable(msgs, notices)
    ensures ThoughtThenAnswered(msgs, ApplyNotices(msgs, notices, t + 1, now), TextOf(notices, 0, t), TextOf(notices, t, t + 1))
  {
    ThoughtsAccumulate(msgs, notices, t, now);
    var before := ApplyNotices(msgs, notices, t, now);
    AnswerEndsThought(msgs, before, TextOf(notices, 0, t), notices[t], now);
    assert TextOf(notices, t, t + 1) == NoticeText(notices[t]);
  }

  /** An answer part on a log whose last message is a thought in progress splits the reply. */
  lemma AnswerEndsThought(msgs: seq<Message>, before: seq<Message>, thought: string, n: Notice, now: nat)
    requires |msgs| > 0 && |before| == |msgs| && IsTextNotice(n, false)
    requires var k := |msgs| - 1;
      && before[k].isThought && before[k].content == msgs[k].content + thought
      && before[k].model == msgs[k].model
      && forall j :: 0 <= j < k ==> before[j].content == msgs[j].content
    ensures ThoughtThenAnswered(msgs, ApplyNotice(before, n, now), thought, NoticeText(n))
  {
    var cleared := WithStatus(before, n.0, None);
    var k := |msgs| - 1;
    assert |cleared| == |msgs| && cleared[k].isThought && cleared[k].content == before[k].content;
    assert forall j :: 0 <= j < k ==> cleared[j].content == before[j].content;
    AnswerAfterThoughtSplits(cleared, n, now);
    assert ApplyNotice(before, n, now) == ApplyText(cleared, n.1.part.text, false, now);
  }

  /**
   * A reply that thinks and then answers: after some thought parts and then
   * some answer parts, the placeholder holds the whole thought and has
   * stopped, and one assistant message after it holds the whole answer and
   * is still generating.
   */
  lemma {:induction false} ThoughtsThenAnswer(msgs: seq<Message>, notices: seq<Notice>, t: nat, n: nat, now: nat)
    requires |msgs| > 0 && 0 < t < n <= |notices|
    requires forall i :: 0 <= i < t ==> IsTextNotice(notices[i], true)
    requires forall i :: t <= i < n ==> IsTextNotice(notices[i], false)
    ensures Applicable(msgs, notices)
    ensures ThoughtThenAnswered(msgs, ApplyNotices(msgs, notices, n, now), TextOf(notices, 0, t), TextOf(notices, t, n))
  {
    if n == t + 1 {
      FirstAnswerAfterThoughts(msgs, notices, t, now);
    } else {
      ThoughtsThenAnswer(msgs, notices, t, n - 1, now);
      AnswerKeepsSplit(msgs, ApplyNotices(msgs, notices, n - 1, now), TextOf(notices, 0, t), TextOf(notices, t, n - 1), notices[n - 1], now);
    }
  }

  /** A further answer part extends the answer and leaves the finished thought alone. */
  lemma AnswerKeepsSplit(msgs: seq<Message>, prev: seq<Message>, thought: string, answer: string, n: Notice, now: nat)
    requires |msgs| > 0 && ThoughtThenAnswered(msgs, prev, thought, answer) && IsTextNotice(n, false)
    ensures ThoughtThenAnswered(msgs, ApplyNotice(prev, n, now), thought, answer + NoticeText(n))
  {
    AnswerExtends(prev, n, now);
    var r := ApplyNotice(prev, n, now);
    var k := |msgs| - 1;
    assert r[k] == prev[k].(statusMessage := r[k].statusMessage);
  }

  // ---------------------------------------------------------------------------
  // Properties of the outcome

  /** An error outcome: its message shows the diagnosis, is an error, has stopped, has no status, and the alert shows the same text. */
  lemma ErrorShownOnTarget(msgs: seq<Message>, o: Outcome, now: nat, parse: ErrorDiagnosis.JsonParser)
    requires o.Failure? && o.index < |msgs|
    ensures var r := ApplyOutcome(msgs, o, now, parse); var text := ErrorDiagnosis.Diagnose(o.error, parse);
      && |r.messages| == |msgs|
      && r.messages[o.index].content == text && r.messages[o.index].isError
      && !r.messages[o.index].isGenerating && r.messages[o.index].statusMessage.None?
      && r.alert == Some(text)
  {
  }

  /** An abnormal end of the task is shown on the last message, as an error naming the reason. */
  lemma PanicShownOnLast(msgs: seq<Message>, o: Outcome, now: nat, parse: ErrorDiagnosis.JsonParser)
    requires o.Panicked? && |msgs| > 0
    ensures var r := ApplyOutcome(msgs, o, now, parse); var k := |msgs| - 1;
      var text := ErrorDiagnosis.Diagnose(PanicPrefix + o.reason, parse);
      && |r.messages| == |msgs|
      && r.messages[k].content == text && r.messages[k].isError && !r.messages[k].isGenerating
      && r.messages[k].statusMessage.None?
      && r.alert == Some(text)
  {
  }

  /** A success stores the usage on its message; no content changes, nothing becomes an error and no alert is raised. */
  lemma SuccessStoresUsage(msgs: seq<Message>, o: Outcome, now: nat, parse: ErrorDiagnosis.JsonParser)
    requires o.Success?
    ensures var r := ApplyOutcome(msgs, o, now, parse);
      && |r.messages| == |msgs| && r.alert.None?
      && (o.index < |msgs| ==> r.messages[o.index].usage == o.usage)
      && forall j :: 0 <= j < |msgs| ==> r.messages[j].content == msgs[j].content && r.messages[j].isError == msgs[j].isError
  {
  }

  /** The message an outcome is written to, if it exists. */
  function OutcomeTarget(msgs: seq<Message>, o: Outcome): Option<nat> {
    if o.Success? then (if o.index < |msgs| then Some(o.index) else None) else FailureTarget(msgs, o).0
  }

  /**
   * Whatever message the outcome targets, the last message is not left
   * generating, and only the target and the last message change.
   */
  lemma OutcomeStopsSpinner(msgs: seq<Message>, o: Outcome, now: nat, parse: ErrorDiagnosis.JsonParser)
    ensures var r := ApplyOutcome(msgs, o, now, parse);
      && |r.messages| == |msgs|
      && (|msgs| > 0 ==> !r.messages[|msgs| - 1].isGenerating)
      && (r.alert.Some? <==> !o.Success?)
      && forall j :: 0 <= j < |msgs| - 1 && Some(j) != OutcomeTarget(msgs, o) ==> r.messages[j] == msgs[j]
  {
  }

  // ---------------------------------------------------------------------------
  // Properties of starting a request

  /**
   * The summary is the prompt's first line, at most 24 characters of it, with
   * the first character upper-cased, and an ellipsis exactly when it was cut
   * at 24 characters with more of the prompt following.
   */
  lemma SummaryIsFirstLine(prompt: string)
    ensures var r := SummaryOf(prompt);
      var cut := |prompt| > SummaryLength && '\n' !in prompt[..SummaryLength];
      var body := if cut then r[..|r| - 1] else r;
      && |body| <= SummaryLength
      && body == Capitalized(prompt[..|body|])
      && '\n' !in prompt[..|body|]
      && (|body| < |prompt| ==> prompt[|body|] == '\n' || |body| == SummaryLength)
      && (cut ==> |r| > 0 && r[|r| - 1] == '…')
  {
    var head := if |prompt| <= SummaryLength then prompt else prompt[..SummaryLength];
    match Find(head, '\n')
    case Some(k) =>
      assert head[..k] == prompt[..k];
    case None =>
      assert head == prompt[..|head|];
  }

  /**
   * With thoughts included in the history, every thought is sent as an
   * ordinary message wrapped in the reflection markers (so the history keeps
   * it), and every other message is sent unchanged.
   */
  lemma FoldedThoughtsAreSent(msgs: seq<Message>)
    ensures forall i :: 0 <= i < |msgs| && msgs[i].isThought ==>
      && FoldAll(msgs)[i].content == ReflectionsOpen + msgs[i].content + ReflectionsClose
      && HistoryBuilder.Kept(FoldAll(msgs)[i])
    ensures forall i :: 0 <= i < |msgs| && !msgs[i].isThought ==> FoldAll(msgs)[i] == msgs[i]
  {
  }
}
