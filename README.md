# Gemini desktop chat client: a Dafny model of its completion pipeline

This project models the core of a desktop client for the Gemini API. A user
types into a chat and the client turns the chat's message log into a
request. A background task consumes the service's reply and sends progress
back. The chat folds that progress into its log, then shows the task's
success or failure. The session keeps the list of chats and applies what
background tasks answer.

Modules, one per file:

- `Base` (base.dfy): Option and the string helpers Rust's standard library provides: `find`, `rfind`, `contains`, `replace`, `trim_end` and ASCII case mapping.
- `Gemini` (gemini.dfy): the client crate's wire types: parts, contents, remote files, usage and the generation config. `u32` and `i32` are bounded newtypes.
- `Widgets` (widgets.dfy): the model-id mapping, the mapping of a chat's inference settings onto a generation config, and the settings editor's toggle rules.
- `Messages` (messages.dfy): messages, attachments, progress notices and a task's terminal outcome.
- `HistoryBuilder` (history_builder.dfy): `build_history` and `process_attachments`, as loops proved against a functional specification, and `Path::file_name` on '/'-separated paths.
- `ErrorDiagnosis` (error_diagnosis.dfy): how an error text becomes the explanation shown to the user.
- `ChatState` (chat.dfy): the class `Chat`, covering `poll_flower`, `send_message`, `spawn_completion`'s thought folding, `make_summary` and `last_message_contents`.
- `RequestExecutor` (request_executor.dfy): the spawned completion task. It covers the credential checks, `request_completion` and `request_completion_code_assist`: the stream loop, the single request and cancellation.
- `SessionState` (sessions.dfy): the class `Sessions`, covering adding and removing chats, restoring the autosave, `poll_backend_flower`, the dropped-file filter and the token-recount trigger.

The outside world is passed in as parameters:

- the file converter (read, inline or upload a file; it may fail), together with the UTC clock (`HistoryBuilder.Oracle`);
- the JSON parser of the diagnosis (`ErrorDiagnosis.JsonParser`);
- the monotonic clock, as a `now: nat` in nanoseconds;
- the content hasher (`SessionState.Hasher`);
- what the service replies: an open error or the stream's items, and the single response;
- the number of replies after which the user's cancellation wins (`RequestExecutor.Service`);
- whether a client could be made.

What goes out on the progress channel, and every converter call, is kept as
an ordered event log (`HistoryBuilder.Event`). Each task ends in exactly one
`Outcome`.

Where a source method changes state step by step, the model is a method with
loops. That method is proved equal to a function of its inputs, or of the old
state: `BuildHistory` equals `Build`, `PollFlower` equals `Poll`,
`ConsumeStream` equals `Consume`. The properties the client promises are then
lemmas about those functions.

## Model

| member | source | states |
|---|---|---|
| Base.NatToString | src/chat.rs:1256 | A decimal rendering: digits only, no leading zero, and it reads back as the number. |
| Base.IntToString | src/chat.rs:1256 | A leading '-' exactly for a negative number, followed by the rendering of its magnitude. |
| Widgets.ModelName | src/widgets.rs:29-96 | Definition of each model's serialized name; its properties are in `NameRoundTrip` and `NamesDistinct`. |
| Widgets.ModelFromName | src/widgets.rs:29-96 | Definition of deserialization by name; its properties are in `NameRoundTrip`. |
| Widgets.Display | src/widgets.rs:110-121 | Definition of `Display`; its properties are in `DisplayIsName`. |
| Widgets.ToApiModel | src/widgets.rs:98-108 | Definition of the API model id; its properties are in `DisplayIsName` and `NamesDistinct`. |
| Widgets.NameRoundTrip | src/widgets.rs:29-96 | Deserializing any model's serialized name gives that model back. |
| Widgets.NamesDistinct | src/widgets.rs:98-108 | Two different models have different serialized names and different API model ids. |
| Widgets.DisplayIsName | src/widgets.rs:98-120 | `Display` shows the serialized name without its quotes. The API model id is "models/" followed by exactly that text. |
| Widgets.U32AsI32 | src/widgets.rs:265 | The `as i32` cast keeps values below 2^31 and wraps larger ones to the value minus 2^32. |
| Widgets.ToGenerationConfig | src/widgets.rs:260-281 | Copies temperature, top_p, max_output_tokens (num_predict) and the stop sequences. top_k is present exactly when set, as the i32 cast. A thinking config is attached exactly when thoughts are included or a budget is set. Inside it, include_thoughts is Some(true) exactly when the setting is on, and never Some(false); the budget is copied. |
| Widgets.ConfigRoundTrip | src/widgets.rs:260-281 | The mapping loses nothing: every setting can be read back out of the config. |
| Widgets.Toggle | src/widgets.rs:295-305 | Definition of one toggled optional field; its laws are in `ToggleLaws`. |
| Widgets.ToggleLaws | src/widgets.rs:295-305 | Toggling twice with the same click is toggling once. Switching a set field on keeps its value. Switching a field off and on again starts over from the default. |
| Widgets.EditThinking | src/widgets.rs:335-357 | The checkbox sets include_thoughts. The budget toggle counts only while thoughts are included: switched on with no budget, the budget becomes -1 (dynamic); switched off, it becomes None. Nothing else changes. |
| Widgets.KeptIndices | src/widgets.rs:389-398 | The indices below n that were not clicked, each exactly once, in increasing order. |
| Widgets.Retain | src/widgets.rs:389-398 | The result is exactly the entries at the kept indices, in order: its j-th entry is the list's entry at the j-th kept index. |
| Widgets.RetainBounds | src/widgets.rs:389-398 | Nothing clicked keeps the list unchanged. Every entry clicked empties it. The result is never longer than the list. |
| Widgets.EditStopList | src/widgets.rs:372-407 | The list exists exactly when the toggle leaves it enabled. It is: the kept entries, plus one empty entry if Add was clicked below five entries; or empty after Clear. |
| Widgets.StopListBounded | src/widgets.rs:399-401 | A list of at most five entries never grows past five. |
| HistoryBuilder.FileName | src/chat_completion.rs:122-125 | `Path::file_name`: a name, when there is one, is non-empty, holds no '/' and is neither "." nor "..". |
| HistoryBuilder.LastComponentShape | src/chat_completion.rs:122-125 | The last path component, skipping trailing '/' and "." components, holds no '/', is not ".", and ends the path up to such a trailer. |
| HistoryBuilder.NoComponentIffCurrentDirs | src/chat_completion.rs:122-125 | A path has no last component exactly when it holds only '/' and "." components. |
| HistoryBuilder.ComponentUnique | src/chat_completion.rs:122-125 | A component that ends the path up to a trailer of '/' and "." components is the last component. |
| HistoryBuilder.FileNameIsLastComponent | src/chat_completion.rs:122-125 | The file name is n exactly when n is a normal name ending the path, up to trailing '/' and "." components. There is none exactly when the path holds only such components or ends in "..". |
| HistoryBuilder.FileNameOfJoin | src/chat_completion.rs:122-125 | The file name of dir + "/" + name is name, also with a trailing "/" or "/.". |
| HistoryBuilder.ParentDirHasNoName | src/chat_completion.rs:122-125 | A path ending in "/.." has no file name. |
| HistoryBuilder.ProcessAttachment | src/chat_completion.rs:120-186 | One pass of the attachment loop gives exactly the parts and events of `ResolveAttachment`. |
| HistoryBuilder.ConvertFile | src/chat_completion.rs:147-186 | When there is a channel, the status line is sent, plus an "uploading" notice if uploads are allowed. Then one converter call, uploading only when allowed and a channel exists. An upload is announced on the channel. Its parts are the inline part, the upload's file reference if one can be made, or nothing on error. |
| HistoryBuilder.ProcessAttachments | src/chat_completion.rs:112-188 | Appends to the caller's buffer and log exactly the parts and events of all files, in order. |
| HistoryBuilder.MessageParts | src/chat_completion.rs:42-58 | Definition of a message's parts: its attachments' parts, then its text when there is any. Where they land in the history is in `MessagePartsInPlace`. |
| HistoryBuilder.AddMessage | src/chat_completion.rs:18-59 | One pass of the message loop is one `Step`. A skipped message changes nothing. A role change flushes a non-empty buffer under the previous role. The message's parts then join the buffer under its own role. |
| HistoryBuilder.AddExtra | src/chat_completion.rs:71-97 | The compose box's files (no upload, no channel) and text become one User block, added only when non-empty. |
| HistoryBuilder.BuildHistory | src/chat_completion.rs:6-110 | The history and log equal `Build`. With a channel, the last event is an empty status for that index. Without one, nothing is sent and nothing is uploaded. |
| HistoryBuilder.StepWellFormed | src/chat_completion.rs:28-40 | A message never leaves an empty block, nor a buffer without a role. |
| HistoryBuilder.StepKeepsParts | src/chat_completion.rs:28-58 | A message adds exactly its contribution to the history-plus-buffer, and nothing else. |
| HistoryBuilder.ScanWellFormed | src/chat_completion.rs:18-59 | After any number of messages, no block is empty and a pending buffer has a role. |
| HistoryBuilder.ScanKeepsParts | src/chat_completion.rs:18-59 | After n messages, the blocks followed by the buffer hold exactly the parts of the kept messages, in order. |
| HistoryBuilder.FlushKeepsParts | src/chat_completion.rs:61-68 | The final flush loses no part and adds no empty block. |
| HistoryBuilder.ExtraBlockKeepsParts | src/chat_completion.rs:91-96 | The extra block appends exactly the extra parts. |
| HistoryBuilder.AssembledPartsInOrder | src/chat_completion.rs:18-97 | The history's parts, in order, are those of the kept messages followed by the extra parts. No block is empty. |
| HistoryBuilder.PartsExactlyOnceInOrder | src/chat_completion.rs:18-97 | Every part of every kept message appears exactly once, in message order, then the extra content. Thoughts and empty messages contribute nothing. |
| HistoryBuilder.KeptPartsPrefix | src/chat_completion.rs:18-59 | The parts of the first m kept messages are a prefix of those of the first n, for m <= n. |
| HistoryBuilder.KeptMessagePrefix | src/chat_completion.rs:18-59 | The parts of the kept messages before message i, then message i's own, are a prefix of the parts of all kept messages. |
| HistoryBuilder.MessagePartsInPlace | src/chat_completion.rs:18-97 | In the history, a kept message's attachment parts and then its text come as one run, right after the parts of every earlier kept message. |
| HistoryBuilder.ExtraIsOneTrailingUserBlock | src/chat_completion.rs:71-97 | The extra content adds exactly one trailing User block, and only when it has parts. Non-empty text always gives one. |
| HistoryBuilder.NoChannelResolvePrefix | src/chat_completion.rs:147-166 | Without a channel, resolving attachments only calls the converter, never with upload. |
| HistoryBuilder.NoChannelResolveAll | src/chat_completion.rs:147-166 | Without a channel, the attachments of one message send nothing and upload nothing. |
| HistoryBuilder.NoChannelScan | src/chat_completion.rs:18-59 | If attachments send nothing, the message loop sends nothing. |
| HistoryBuilder.ExtraIsSilent | src/chat_completion.rs:71-81 | The compose box's files only call the converter, never with upload, and send no notice, even when the build has a channel. |
| HistoryBuilder.NoChannelOnlyInlineConversions | src/chat_completion.rs:71-81 | Building without a channel (the token count) sends nothing and uploads nothing. |
| HistoryBuilder.NeverUploadsScan | src/chat_completion.rs:42-50 | If attachments never upload, the message loop never uploads. |
| HistoryBuilder.NoUploadWithoutPermission | src/chat_completion.rs:155-166 | Without the public-upload setting, no converter call uploads, with or without a channel. |
| HistoryBuilder.UploadOnlyWhenAllowedPrefix | src/chat_completion.rs:165-168 | An upload call among the first n attachments implies that uploads are allowed and a channel exists. |
| HistoryBuilder.UploadOnlyWhenAllowed | src/chat_completion.rs:165-168 | An upload is attempted only when uploads are allowed and a channel exists. |
| HistoryBuilder.ReuseUnexpiredUpload | src/chat_completion.rs:127-145 | An uploaded file with a URI that is not expired becomes a file reference, with no converter call and no event. |
| HistoryBuilder.ExpiredUploadIsConvertedAgain | src/chat_completion.rs:127-168 | An expired upload goes through the converter again. |
| HistoryBuilder.ResolveAllAppend | src/chat_completion.rs:120-187 | The attachments of a concatenation resolve as those of each half, one after the other. |
| HistoryBuilder.FailedConversionSkipsOnlyThatFile | src/chat_completion.rs:168-186 | A file the converter fails on contributes nothing. The files before and after it keep their parts. |
| HistoryBuilder.ScanAlternates | src/chat_completion.rs:28-40 | When every kept message has text, neighbouring finished blocks have different roles, and a pending buffer's role differs from the last block's. |
| HistoryBuilder.RolesAlternate | src/chat_completion.rs:28-68 | When every kept message has text, neighbouring blocks of the history have different roles. |
| HistoryBuilder.MergeExample | src/chat_completion.rs:28-68 | Roles User, User, Assistant, User give three blocks. The first holds both user texts, in order. |
| ErrorDiagnosis.Diagnose | src/chat.rs:1216-1265 | Definition of the diagnosis; its properties are in `NoObjectShownVerbatim`, `UnparseableShownVerbatim`, `UnescapeOnlyAsFallback` and `EscapedQuotaErrorRecognised`. |
| ErrorDiagnosis.Template | src/chat.rs:1234-1256 | Definition of the explanation per status; its properties are in `TemplateCarriesMessage`, `QuotaExplained`, `TemplateOpensWithMark` and `EachKnownStatusOwnTemplate`. |
| ErrorDiagnosis.Interpret | src/chat.rs:1228-1262 | Definition of how a parsed value is explained; its properties are in `NoErrorMemberShownPretty` and `EscapedQuotaErrorRecognised`. |
| ErrorDiagnosis.JsonCandidate | src/chat.rs:1216-1219 | None exactly when there is no '{'. Otherwise the slice from the first '{' to the last '}' after it, or to the end when no '}' follows. |
| ErrorDiagnosis.Unescape | src/chat.rs:1221 | A text without a backslash is unchanged. |
| ErrorDiagnosis.UnescapeInvertsEscape | src/chat.rs:1221 | Unescaping undoes one level of escaping ('"' as `\"`, a newline as `\n`) of any text without a backslash. |
| ErrorDiagnosis.RetryInfo | src/chat.rs:1236-1244 | Empty when the message lacks "retry in ". Otherwise the suggestion lead followed by the message from the first occurrence of it on. |
| ErrorDiagnosis.NoObjectShownVerbatim | src/chat.rs:1216-1265 | A text without '{' is shown verbatim, whatever the parser. |
| ErrorDiagnosis.UnparseableShownVerbatim | src/chat.rs:1222-1262 | When neither the candidate nor its unescaped form parses, the text is shown verbatim. |
| ErrorDiagnosis.NoErrorMemberShownPretty | src/chat.rs:1257-1259 | A value without an "error" member is shown pretty-printed. |
| ErrorDiagnosis.UnescapeOnlyAsFallback | src/chat.rs:1221-1226 | The candidate is parsed as is when it parses, or when it has no backslash. |
| ErrorDiagnosis.TemplateCarriesMessage | src/chat.rs:1247-1256 | Every explanation except the quota one contains the service's message verbatim. The generic one also contains the status. |
| ErrorDiagnosis.QuotaExplained | src/chat.rs:1234-1246 | A RESOURCE_EXHAUSTED error opens with the quota text, which names "Quota Exhausted". The retry suggestion is added exactly when the message mentions "retry in", and it is the message from its first occurrence on. |
| ErrorDiagnosis.EscapedQuotaErrorRecognised | src/chat.rs:1216-1246 | An escaped error body that parses only after unescaping is still explained as a quota error. |
| ErrorDiagnosis.TemplateOpensWithMark | src/chat.rs:1234-1256 | Every explanation opens with its status's mark. |
| ErrorDiagnosis.EachKnownStatusOwnTemplate | src/chat.rs:1234-1256 | The explanations of two different statuses never coincide when one of them is a known status. |
| ChatState.FirstWithPath | src/chat.rs:1140-1142 | The index of the first attachment with the path, or None when no attachment has it. |
| ChatState.NonErrors | src/chat.rs:892 | Holds no error, only messages of the log, and every message of the log that is not an error. |
| ChatState.NonErrorsAppend | src/chat.rs:892 | Filtering a concatenation filters each half, in order: order and multiplicity are kept. |
| ChatState.NonErrorsOfCleanLog | src/chat.rs:892 | A log without errors is left unchanged. |
| ChatState.MakeSummary | src/chat.rs:845-863 | The character loop yields `SummaryOf(prompt)`. |
| ChatState.SummaryIsFirstLine | src/chat.rs:845-863 | The summary holds at most 24 characters of the prompt, from its first line, with the first character upper-cased. It ends at a newline or at 24 characters. An ellipsis is added exactly when it was cut at 24 characters with more following. |
| ChatState.FoldThoughts | src/chat.rs:917-926 | Each message becomes its folded form: a thought turns into an ordinary message wrapped in the reflection markers; any other message is unchanged. |
| ChatState.FoldedThoughtsAreSent | src/chat.rs:917-926 | A folded thought carries the markers around its text and is kept by the history builder. Other messages are sent unchanged. |
| ChatState.LastContentsBefore | src/chat.rs:1293-1305 | The preview of the last message with text ("You: " before a user's), or None exactly when no message has text. |
| ChatState.Chat.constructor | src/chat.rs:873-879 | A new chat has the given id and model picker, and is empty. |
| ChatState.Chat.PollFlower | src/chat.rs:1118-1291 | The log after a poll, and the alert raised, are `Poll`: every notice applied in order, then the outcome when the task has finished. |
| ChatState.Chat.TakeNotice | src/chat.rs:1122-1199 | One notice changes the log exactly as `ApplyNotice`. |
| ChatState.Chat.SetAttachmentState | src/chat.rs:1138-1159 | The first attachment with the path, of the message at the index, gets the new state, if both exist. |
| ChatState.Chat.Finalize | src/chat.rs:1201-1290 | The outcome is recorded on its message, then the last message settles (`ApplyOutcome`). |
| ChatState.Chat.RecordOutcome | src/chat.rs:1202-1281 | A success stores usage and clears the status. An error is diagnosed, written to its message and raised as the alert. |
| ChatState.Chat.SettleLastMessage | src/chat.rs:1283-1289 | A last message still generating stops, takes its time and loses its status. |
| ChatState.Chat.SendMessage | src/chat.rs:886-909 | Nothing happens when the compose box and files are empty. Otherwise: error messages are dropped; the user message (text without trailing whitespace, with the files) and a generating assistant placeholder are appended; the summary is set if empty; box and files are cleared; a task for the last message is started. |
| ChatState.Chat.PostPrompt | src/chat.rs:891-906 | The compose box moves into the log as that user message plus the placeholder; box and files end empty. |
| ChatState.Chat.RetainNonErrors | src/chat.rs:892 | `retain(!is_error)` leaves `NonErrors` of the log. |
| ChatState.Chat.SpawnCompletion | src/chat.rs:911-936 | The task gets: the log, with thoughts folded when they are to be included; the target index, else the last; and the settings it uses. |
| ChatState.Chat.LastMessageContents | src/chat.rs:1293-1305 | The reverse search returns `LastContents` of the log. |
| ChatState.PartClearsStatus | src/chat.rs:1125-1130 | A part clears its message's status. A part that is not text does nothing else. |
| ChatState.StatusTargetsOneMessage | src/chat.rs:1133-1137 | A status notice sets the status of its message only; no content changes. |
| ChatState.UploadNoticeHitsFirstMatch | src/chat.rs:1138-1159 | An upload notice changes only the state of the first matching attachment of its message. Without a match nothing changes. |
| ChatState.ThoughtsAccumulate | src/chat.rs:1167-1175 | Thought parts mark the last message as a thought and append to it, in order. The message count does not change. |
| ChatState.AnswersAppend | src/chat.rs:1189-1193 | Answer parts on a last message that is not a thought append to it, in order. The message count does not change. |
| ChatState.AnswerAfterThoughtSplits | src/chat.rs:1177-1188 | The first answer after a thought stops the thought with its elapsed time, and adds exactly one generating assistant message holding the answer. |
| ChatState.AnswerExtends | src/chat.rs:1189-1193 | One answer part on a plain last message appends its text. Only statuses change elsewhere. |
| ChatState.FirstAnswerAfterThoughts | src/chat.rs:1162-1194 | Thought parts, then one answer part: the split reply. |
| ChatState.ThoughtsThenAnswer | src/chat.rs:1162-1194 | After thought parts and then answer parts, the placeholder holds the whole thought and has stopped. One new message holds the whole answer and is still generating. |
| ChatState.ErrorShownOnTarget | src/chat.rs:1267-1280 | On an error, the target message shows the diagnosis, is an error, has stopped and has no status. The alert shows the same text. |
| ChatState.PanicShownOnLast | src/chat.rs:1208-1211 | A panicked task's reason, prefixed, is shown as an error on the last message, which has stopped and has no status. |
| ChatState.SuccessStoresUsage | src/chat.rs:1202-1206 | A success stores the usage on its message. No content changes, nothing becomes an error, and no alert is raised. |
| ChatState.OutcomeStopsSpinner | src/chat.rs:1283-1289 | Whatever the outcome targets, the last message is not left generating. There is an alert exactly on failure. Only the target and the last message change. |
| RequestExecutor.PartSends | src/chat.rs:600-603 | The notices are each part, in order, for the task's message. |
| RequestExecutor.SendParts | src/chat.rs:600-608 | Each part is sent in order, and the text parts' texts are concatenated. |
| RequestExecutor.FailureIsFinal | src/chat.rs:612 | Once an error has ended the stream, later items change nothing. |
| RequestExecutor.TakeResponse | src/chat.rs:591-611 | A response replaces the kept usage when it reports one, then sends its first candidate's parts. |
| RequestExecutor.TakeItem | src/chat.rs:589-614 | One stream item is one `ConsumeStep`. |
| RequestExecutor.ConsumeStream | src/chat.rs:583-617 | The stream loop consumes exactly the items before the cancellation, or all of them, stopping at the first error. |
| RequestExecutor.RequestCompletion | src/chat.rs:528-652 | The task builds the history with progress for its message, then consumes the reply, streaming or single. The result equals `Completion`. |
| RequestExecutor.SentTextOfParts | src/chat.rs:600-608 | The text notices of a response carry exactly its text. |
| RequestExecutor.AccumulatedTextIsSentText | src/chat.rs:583-617 | The accumulated text is the in-order concatenation of the texts of the part notices sent. Every notice sent is a part for the task's message. |
| RequestExecutor.UsageIsLastReported | src/chat.rs:592-595 | Without errors, the usage kept is that of the latest item reporting one. |
| RequestExecutor.FirstErrorEndsTask | src/chat.rs:612 | The first error item ends the task with a failure carrying its text. The parts before it have been sent. |
| RequestExecutor.CompletionLog | src/chat.rs:528-652 | The log opens with the history builder's events, ending in the cleared status. On success the text is that of the part notices after it. The outcome is for the task's index. |
| RequestExecutor.CancelBeforeOpen | src/chat.rs:566-577 | Cancelling an API-key stream before it opens succeeds with no text and no usage, and nothing is sent after the history. |
| RequestExecutor.CodeAssistOpenFailureWins | src/chat.rs:706-707 | Through Code Assist, a stream that fails to open fails the task even if cancellation was requested. |
| RequestExecutor.RunTask | src/chat.rs:941-980 | Definition of the task's dispatch on the credentials; its properties are in `RefusedTaskSendsNothing` and `CodeAssistNeverUploads`. |
| RequestExecutor.RefusedTaskSendsNothing | src/chat.rs:941-980 | A missing API key, a failed client, or a missing login or project fails the task for its message with the source's text; no request is made and nothing is sent. With credentials present, a request is made. |
| RequestExecutor.CodeAssistNeverUploads | src/chat.rs:673-680 | Through Code Assist no attachment is uploaded, whatever the upload setting. |
| SessionState.MaxId | src/sessions.rs:788 | The largest id among the chats, attained by one of them; 0 when there is none. |
| SessionState.FirstWithId | src/sessions.rs:740 | The index of the first chat with the id, or None when no chat has it. |
| SessionState.RoutingReachesOwnChat | src/sessions.rs:739-753 | With distinct ids, a response for a chat's id reaches that chat. |
| SessionState.RestoredIdsMisroute | src/sessions.rs:109-114 | With the ids a restored autosave has, a response for the second chat reaches the first. |
| SessionState.AuthApplied | src/sessions.rs:754-761 | A login stores the token and the projects. The first project becomes the project only when none was set and the list is non-empty; otherwise the project is unchanged. Nothing else changes. |
| SessionState.AttachmentsFrom | src/sessions.rs:742-743 | One attachment per picked file: the i-th is for the i-th path and is pending. |
| SessionState.AttachmentsFromAppend | src/sessions.rs:742-743 | Picking a concatenation of paths gives the attachments of each half, in order. |
| SessionState.Extension | src/sessions.rs:538-544 | Definition of `Path::extension`; its properties are in `ExtensionShape`. |
| SessionState.ExtensionShape | src/sessions.rs:538 | There is no extension exactly when there is no file name or no dot after the name's first character. Otherwise the extension is the text after the name's last dot, holds no dot, and that dot is not the name's first character. |
| SessionState.VerdictOf | src/sessions.rs:538-563 | Definition of the drop filter's verdict; its properties are in `AcceptedIffListed`. |
| SessionState.SkipToast | src/sessions.rs:540-563 | Definition of the toast a rejected file gets; its properties are in `AcceptedIffListed` and `EachDropAccountedFor`. |
| SessionState.ListedIsMembership | src/sessions.rs:546-554 | The search over the format lists is list membership. |
| SessionState.OnlySupportedFilesAdded | src/sessions.rs:535-565 | Every attachment a drop adds is pending and is for a dropped path judged acceptable. |
| SessionState.EverySupportedFileAdded | src/sessions.rs:535-565 | Every dropped path judged acceptable is attached. |
| SessionState.EachDropAccountedFor | src/sessions.rs:535-565 | Each dropped path gives exactly one attachment or one toast. |
| SessionState.AcceptedIffListed | src/sessions.rs:538-563 | A file is accepted exactly when its extension, in lower case, is one of the four format lists. It gets the no-extension toast exactly when it has no extension. |
| SessionState.ShouldRecount | src/sessions.rs:473-476 | Definition of when a recount is due; its properties are in `RecountThrottled`. |
| SessionState.RecountThrottled | src/sessions.rs:473-476 | No recount is due for unchanged content, nor within a second of the last one. One is due for changed content never counted. |
| SessionState.CountingIsSilent | src/sessions.rs:494-500 | Token counting sends no progress and uploads nothing. |
| SessionState.CountReachesItsChat | src/sessions.rs:749-753 | With distinct ids, a count's answer reaches the chat it was made for. |
| SessionState.Sessions.constructor | src/sessions.rs:133-159 | One empty default chat, selected, with the default settings. |
| SessionState.Sessions.MaxChatId | src/sessions.rs:788 | The loop finds `MaxId` of the chats. |
| SessionState.Sessions.AddDefaultChat | src/sessions.rs:786-791 | Exactly one new empty chat is appended. Its id is one more than the largest (1 for none), so it differs from every id in use, and distinct ids stay distinct. Nothing else changes. |
| SessionState.Sessions.NewChat | src/sessions.rs:917-926 | Exactly one chat is appended and selected. Its id is one more than the largest, and it is empty with the settings' model picker. Settings and popups are unchanged. |
| SessionState.Sessions.RemoveChat | src/sessions.rs:793-801 | Afterwards the list is non-empty and the selection is in range. The chat at the index is removed, and a selection past the end moves to the last chat. An emptied list gets one default chat, selected. |
| SessionState.Sessions.RestoreAutosave | src/sessions.rs:105-130 | A stored list replaces the chats, every chat with id 1. A selection out of range becomes 0. Nothing stored changes nothing. |
| SessionState.Sessions.RestoreAutosaveWithIds | src/sessions.rs:105-130 | The same with ids 1, 2, ..., so restored ids are distinct. |
| SessionState.Sessions.LoadChats | src/sessions.rs:109-113 | One fresh chat per saved chat, holding what was saved. |
| SessionState.Sessions.ApplyBackend | src/sessions.rs:732-783 | Files are appended, or a count stored, on the first chat with the answer's id and no other. Settings are replaced, or updated by a login. The toasts and dialogs of the outcome are shown. |
| SessionState.Sessions.Notify | src/sessions.rs:735-781 | The arms that act on settings and popups. |
| SessionState.Sessions.RouteToChat | src/sessions.rs:739-753 | The arms that act on a chat: only the target chat changes, as `ChatAfter` says. |
| SessionState.Sessions.DropFiles | src/sessions.rs:529-566 | With no chat selected, the selection resets to 0. Otherwise the dropped files with a supported extension are attached to the selected chat in order, each other one gets a toast, and no other chat changes. |
| SessionState.Sessions.TakeDrop | src/sessions.rs:536-564 | One dropped path is attached when its extension is supported; otherwise a toast says why not. |
| SessionState.Sessions.RecountTokens | src/sessions.rs:458-516 | A count job is made exactly when a recount is due for the selected chat's content hash. The hash and time are then recorded. No other chat changes. |
| SessionState.Sessions.ContentFeed | src/sessions.rs:460-470 | The hasher is fed the compose box, each message's text and paths, then the pending paths. |
| SessionState.Sessions.FeedPaths | src/sessions.rs:464-466 | The paths of the attachments, in order. |

## Left out

- I/O is not modelled: the autosave file, settings files, exports, file pickers, logging and TTS.
- The egui rendering, modals and toasts are not modelled. A toast or a dialog is an entry appended to `Sessions.popups`.
- Concurrency is not modelled: `tokio::spawn`, `select!`, the 100 ms cancellation poll and the flowync channel's internals. The channel is an in-order event log followed by one outcome. Cancellation is "the first k replies are consumed".
- The network clients are not modelled: the Gemini and Code Assist clients, `convert_file_to_part`, `count_tokens`, and the Code Assist handshake and onboarding (src/chat.rs:986-996). Their answers are parameters.
- `serde_json` parsing and pretty-printing are a parameter of the diagnosis.
- The `f32` settings (temperature, top_p) are opaque values copied through.
- `Instant` is a natural number of nanoseconds; `elapsed` saturates at zero.
- The content hash (`DefaultHasher`) is a parameter applied to the modelled feed.
- `regenerate_response`, the stop button and `prepend_buf` are not modelled. They are outside the modelled core; `SpawnCompletion` does take a target index.
- RequestExecutor.RequestCompletion: build_history never fails, so its `?` never fires. Code Assist's `Gemini::new("")` is taken to succeed.
- ChatState.Chat.PollFlower: requires a message for every text part. The source's `last_mut().unwrap()` panics on an empty log.
- ChatState.FailureTarget: a panicked task with an empty log targets no message. The source's `len() - 1` would underflow there.
- ChatState.Chat.SpawnCompletion: requires a target index or a non-empty log. The source's `len() - 1` underflows otherwise.
- SessionState.Sessions.RemoveChat: requires the index to be in range, as `Vec::remove` panics otherwise. The selection is not shifted when an earlier chat is removed; the source does not shift it either.
- SessionState.Sessions.Valid: an autosave holding no chats leaves the list empty with selection 0, as the source does.
- Base.Lowercase: ASCII only. This is exact for the drop filter. Every listed format is lower-case ASCII and none contains 'k'. The only non-ASCII characters whose Unicode lower case contains an ASCII letter are the Kelvin sign (to 'k') and the dotted capital I (to 'i' plus a non-ASCII combining dot).
- ChatState.Capitalized: ASCII upper-casing only. `char::to_uppercase` may also change non-ASCII letters, sometimes into several characters.
- The drop lemmas (`OnlySupportedFilesAdded`, `EverySupportedFileAdded`, `EachDropAccountedFor`) hold for any verdict function. `AcceptedIffListed` states the client's own verdict.
- The per-field settings editor is a function of the clicks of one frame (`Toggle`, `EditThinking`, `EditStopList`), not an in-place update of the `Option`/`Vec` fields. The "reset" button of a numeric field (which sets it to None) and the drag values are not modelled.
- `From<ModelSettings> for serde_json::Value` builds and returns a `GenerationConfig`; the model follows that body.
- `Settings` holds every field the client reads: `auth_method`, `oauth_token`, `project_id`, `available_projects` and `public_file_upload` besides those declared in src/widgets.rs:531-538.
- HistoryBuilder.FileName, SessionState.Extension: paths are read with '/' as the only separator. Windows' '\\' separator and drive or UNC prefixes are not modelled.
- HistoryBuilder.Oracle: the UTC clock is read once per build, while `process_attachments` reads `now_utc()` for each attachment (src/chat_completion.rs:128). An expiry that passes during one build is not modelled.
- file_handler.rs is not part of this model: `Attachment::from_path` gives a pending attachment, and conversion is the oracle.

## Findings

| source | as written | input that shows it | evidently intended | confidence | as-written member | corrected member |
|---|---|---|---|---|---|---|
| src/sessions.rs:109-114 | A restored chat's id comes from its flower, which is skipped when saving. `#[serde(default)]` rebuilds it as `Chat::default()`'s, with id 1 (src/chat.rs:464-511, 882-884). Every restored chat then has id 1, and `poll_backend_flower` sends file-picker and token-count answers to the first chat with that id. The restore from the application's own storage (src/main.rs:77-81) rebuilds the chats the same way. | An autosave of two chats; the second chat is selected and files are picked or tokens counted. The answer lands on the first chat. | Restored chats get distinct ids, as `add_default_chat` takes care to give new ones, so each answer reaches its own chat. | not executed | SessionState.Sessions.RestoreAutosave, SessionState.RestoredIdsMisroute | SessionState.Sessions.RestoreAutosaveWithIds, SessionState.RoutingReachesOwnChat |
