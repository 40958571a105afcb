/**
 * The list of chats and what happens to it: chats are added with a fresh
 * id and removed with the selection kept in range, an autosave is restored,
 * answers of background tasks are applied, dropped files are filtered by
 * extension, and token recounts are throttled.
 */
module SessionState {
  import opened Base
  import Gemini
  import opened Messages
  import Widgets
  import HistoryBuilder
  import ChatState

  type Chat = ChatState.Chat

  /** A toast or a modal dialog put on screen. */
  datatype Popup =
    | InfoToast(text: string)
    | SuccessToast(text: string)
    | ErrorToast(text: string)
    | Dialog(title: string, body: string)

  /** What a background task of the session answers. */
  datatype BackendResponse =
    | Ignore
    | ToastResponse(toast: Popup)
    | Files(id: nat, paths: seq<string>)
    | SettingsResponse(settings: Widgets.Settings)
    | TokenCount(chatId: nat, count: Gemini.u32)
    | AuthResult(token: string, projects: seq<string>)

  /** How a background task ended: with a response, with an error it reported, or abnormally. */
  datatype BackendOutcome =
    | Answered(response: BackendResponse)
    | Failed(error: string)
    | Panicked(reason: string)

  /** The id `Chat::default` gives, which is also the id of every chat read back from storage. */
  const DefaultChatId := 1

  /** What a chat holds, as a value. */
  datatype ChatView = ChatView(
    chatbox: string,
    messages: seq<Message>,
    summary: string,
    modelPicker: Widgets.ModelPicker,
    files: seq<Attachment>,
    tokenCount: Option<Gemini.u32>,
    lastContentHash: nat,
    lastTokenCheck: Option<nat>)

  function ViewOf(c: Chat): ChatView
    reads c
  {
    ChatView(c.chatbox, c.messages, c.summary, c.modelPicker, c.files, c.tokenCount, c.lastContentHash, c.lastTokenCheck)
  }

  /** A new chat: nothing typed, said, attached or counted yet. */
  function EmptyView(picker: Widgets.ModelPicker): ChatView {
    ChatView("", [], "", picker, [], None, 0, None)
  }

  /** A chat read back from storage: the persisted part of a chat. */
  datatype SavedChat = SavedChat(
    chatbox: string,
    messages: seq<Message>,
    summary: string,
    modelPicker: Widgets.ModelPicker,
    files: seq<Attachment>)

  /** A chat made from a saved one: what was saved, and nothing counted or hashed yet. */
  function RestoredView(s: SavedChat): ChatView {
    ChatView(s.chatbox, s.messages, s.summary, s.modelPicker, s.files, None, 0, None)
  }

  // ---------------------------------------------------------------------------
  // Ids

  /** The largest id among the first `n` chats, 0 for none. */
  function MaxId(chats: seq<Chat>, n: nat): (r: nat)
    requires n <= |chats|
    ensures forall i :: 0 <= i < n ==> chats[i].id <= r
    ensures n > 0 ==> exists i :: 0 <= i < n && chats[i].id == r
    ensures n == 0 ==> r == 0
  {
    if n == 0 then 0
    else
      var m := MaxId(chats, n - 1);
      if chats[n - 1].id > m then chats[n - 1].id else m
  }

  /** The index of the first chat with the given id. */
  function FirstWithId(chats: seq<Chat>, id: nat): (r: Option<nat>)
    ensures r.Some? ==> r.value < |chats| && chats[r.value].id == id
                        && forall j :: 0 <= j < r.value ==> chats[j].id != id
    ensures r.None? ==> forall j :: 0 <= j < |chats| ==> chats[j].id != id
  {
    if |chats| == 0 then None
    else if chats[0].id == id then Some(0)
    else match FirstWithId(chats[1..], id)
      case None => None
      case Some(i) => Some(i + 1)
  }

  ghost predicate DistinctIds(chats: seq<Chat>) {
    forall i, j :: 0 <= i < j < |chats| ==> chats[i].id != chats[j].id
  }

  /** With distinct ids, a response for a chat's id reaches that chat. */
  lemma RoutingReachesOwnChat(chats: seq<Chat>, k: nat)
    requires DistinctIds(chats) && k < |chats|
    ensures FirstWithId(chats, chats[k].id) == Some(k)
  {
  }

  /** With the ids storage gives back, a response for the second chat reaches the first one. */
  lemma RestoredIdsMisroute(chats: seq<Chat>)
    requires |chats| >= 2 && forall i :: 0 <= i < |chats| ==> chats[i].id == DefaultChatId
    ensures FirstWithId(chats, chats[1].id) == Some(0)
  {
  }

  // ---------------------------------------------------------------------------
  // Backend responses

  /** A login: the token and projects are stored; the first project is chosen only when none was. */
  function AuthApplied(s: Widgets.Settings, token: string, projects: seq<string>): (r: Widgets.Settings)
    ensures r.oauthToken == token && r.availableProjects == projects
    ensures |s.projectId| == 0 && |projects| > 0 ==> r.projectId == projects[0]
    ensures |s.projectId| > 0 || |projects| == 0 ==> r.projectId == s.projectId
    ensures r.(oauthToken := s.oauthToken, availableProjects := s.availableProjects, projectId := s.projectId) == s
  {
    var stored := s.(oauthToken := token, availableProjects := projects);
    if |stored.projectId| == 0 && |stored.availableProjects| > 0 then stored.(projectId := stored.availableProjects[0]) else stored
  }

  const LoginSucceeded := "Google Login successful!"
  const RequestFailedTitle := "Request failed"
  const PanicTitle := "Task panicked"
  const PanicPrefix := "Task panicked: "

  /** The attachments a list of picked files becomes, in that order. */
  function AttachmentsFrom(paths: seq<string>): (r: seq<Attachment>)
    ensures |r| == |paths| && forall i :: 0 <= i < |paths| ==> r[i].path == paths[i] && r[i].state == Pending
  {
    seq(|paths|, i requires 0 <= i < |paths| => AttachmentFromPath(paths[i]))
  }

  /** Picking two lists of files one after the other attaches them as one list. */
  lemma AttachmentsFromAppend(a: seq<string>, b: seq<string>)
    ensures AttachmentsFrom(a + b) == AttachmentsFrom(a) + AttachmentsFrom(b)
  {
  }

  /** The chat a response is for: the first one with its id. */
  function Target(chats: seq<Chat>, o: BackendOutcome): Option<nat> {
    if o.Answered? && o.response.Files? then FirstWithId(chats, o.response.id)
    else if o.Answered? && o.response.TokenCount? then FirstWithId(chats, o.response.chatId)
    else None
  }

  /** The targeted chat after a response: files are appended, or the count is stored. */
  function ChatAfter(v: ChatView, r: BackendResponse): ChatView {
    match r
    case Files(_, paths) => v.(files := v.files + AttachmentsFrom(paths))
    case TokenCount(_, count) => v.(tokenCount := Some(count))
    case _ => v
  }

  function SettingsAfter(s: Widgets.Settings, o: BackendOutcome): Widgets.Settings {
    if !o.Answered? then s
    else match o.response
      case SettingsResponse(next) => next
      case AuthResult(token, projects) => AuthApplied(s, token, projects)
      case _ => s
  }

  function PopupsOf(o: BackendOutcome): seq<Popup> {
    match o
    case Answered(r) =>
      (match r
       case ToastResponse(t) => [t]
       case AuthResult(_, _) => [SuccessToast(LoginSucceeded)]
       case _ => [])
    case Failed(e) => [Dialog(RequestFailedTitle, e)]
    case Panicked(e) => [Dialog(PanicTitle, PanicPrefix + e)]
  }

  // ---------------------------------------------------------------------------
  // Dropped files

  const ImageFormats: seq<string> := ["bmp", "dds", "ff", "gif", "hdr", "ico", "jpeg", "jpg", "exr", "png", "pnm", "qoi", "tga", "tiff", "webp"]
  const VideoFormats: seq<string> := ["mp4", "mpeg", "mov", "avi", "flv", "webm"]
  const TextFormats: seq<string> := ["txt", "md", "rs", "py", "js", "html", "css", "json", "toml", "yaml", "log", "csv", "xml", "pdf"]
  const MusicFormats: seq<string> := ["aac", "flac", "mp3", "m4a", "mpeg", "mpga", "opus", "pcm", "wav", "webm", "aiff", "ogg"]

  /** Every extension a dropped file may have. */
  function AllFormats(): seq<string> {
    ImageFormats + VideoFormats + TextFormats + MusicFormats
  }

  /**
   * `Path::extension`: what follows the last '.' of the file name, unless
   * that dot opens the name; none without a file name or without such a dot.
   * (`file_name` is never "..", which `Path::extension` would also refuse.)
   */
  function Extension(path: string): Option<string> {
    match HistoryBuilder.FileName(path)
    case None => None
    case Some(name) =>
      match RFind(name, '.')
      case None => None
      case Some(dot) => if dot == 0 then None else Some(name[dot + 1..])
  }

  /**
   * There is an extension exactly when the file name has a dot after its
   * first character; it is the text after the last dot, and has no dot.
   */
  lemma ExtensionShape(path: string)
    ensures var name := HistoryBuilder.FileName(path);
      && (Extension(path).None? <==> name.None? || '.' !in name.value[1..])
      && (Extension(path).Some? ==>
            var ext := Extension(path).value;
            && |ext| + 2 <= |name.value| && name.value[|name.value| - |ext| - 1] == '.'
            && name.value[|name.value| - |ext|..] == ext && '.' !in ext)
  {
    if HistoryBuilder.FileName(path).Some? {
      var name := HistoryBuilder.FileName(path).value;
      match RFind(name, '.')
      case None =>
      case Some(dot) =>
        var ext := name[dot + 1..];
        assert |name| - |ext| - 1 == dot && name[|name| - |ext|..] == ext;
        if dot == 0 {
          assert name[1..] == name[dot + 1..];
        } else {
          assert name[dot] == name[1..][dot - 1];
        }
    }
  }

  /** Whether `ext` is one of `formats`, looked up one entry at a time. */
  predicate Listed(ext: string, formats: seq<string>) {
    |formats| > 0 && (formats[0] == ext || Listed(ext, formats[1..]))
  }

  lemma {:induction false} ListedIsMembership(ext: string, formats: seq<string>)
    ensures Listed(ext, formats) <==> ext in formats
  {
    if |formats| > 0 {
      ListedIsMembership(ext, formats[1..]);
      assert formats == [formats[0]] + formats[1..];
    }
  }

  datatype Verdict = Accepted | NoExtension | Unsupported

  /** Whether a dropped file is taken, by its extension, compared in lower case. */
  function VerdictOf(path: string): Verdict {
    match Extension(path)
    case None => NoExtension
    case Some(ext) => if Listed(Lowercase(ext), AllFormats()) then Accepted else Unsupported
  }

  const NoExtensionLead := "Skipping file with no extension: `"
  const UnsupportedLead := "Skipping unsupported file type: `"
  const Backtick := "`"

  /** The toast shown for a dropped file that is skipped, by its verdict. */
  function SkipToast(path: string, v: Verdict): seq<Popup> {
    var name := HistoryBuilder.ShownName(path);
    match v
    case Accepted => []
    case NoExtension => [InfoToast(NoExtensionLead + name + Backtick)]
    case Unsupported => [InfoToast(UnsupportedLead + name + Backtick)]
  }

  /**
   * How dropped paths are judged. The drop handling below is stated for any
   * judge; the client's is `VerdictOf`.
   */
  type Judge = string -> Verdict

  /** The attachments the first `n` dropped files give; a drop without a path gives nothing. */
  function DroppedAttachments(dropped: seq<Option<string>>, n: nat, judge: Judge): seq<Attachment>
    requires n <= |dropped|
  {
    if n == 0 then []
    else DroppedAttachments(dropped, n - 1, judge)
         + (if dropped[n - 1].Some? && judge(dropped[n - 1].value) == Accepted then [AttachmentFromPath(dropped[n - 1].value)] else [])
  }

  /** The toasts the first `n` dropped files give. */
  function DroppedToasts(dropped: seq<Option<string>>, n: nat, judge: Judge): seq<Popup>
    requires n <= |dropped|
  {
    if n == 0 then []
    else DroppedToasts(dropped, n - 1, judge)
         + (if dropped[n - 1].Some? then SkipToast(dropped[n - 1].value, judge(dropped[n - 1].value)) else [])
  }

  /** Every attachment a drop adds is a pending one for a dropped path judged acceptable. */
  lemma {:induction false} OnlySupportedFilesAdded(dropped: seq<Option<string>>, n: nat, judge: Judge)
    requires n <= |dropped|
    ensures forall a :: a in DroppedAttachments(dropped, n, judge) ==>
      a.state == Pending && judge(a.path) == Accepted && exists i :: 0 <= i < n && dropped[i] == Some(a.path)
  {
    if n > 0 {
      OnlySupportedFilesAdded(dropped, n - 1, judge);
      forall a | a in DroppedAttachments(dropped, n, judge)
        ensures a.state == Pending && judge(a.path) == Accepted && exists i :: 0 <= i < n && dropped[i] == Some(a.path)
      {
        if a !in DroppedAttachments(dropped, n - 1, judge) {
          assert dropped[n - 1] == Some(a.path);
        }
      }
    }
  }

  /** Every dropped path judged acceptable is attached. */
  lemma {:induction false} EverySupportedFileAdded(dropped: seq<Option<string>>, n: nat, judge: Judge)
    requires n <= |dropped|
    ensures forall i :: 0 <= i < n && dropped[i].Some? && judge(dropped[i].value) == Accepted ==>
      AttachmentFromPath(dropped[i].value) in DroppedAttachments(dropped, n, judge)
  {
    if n > 0 {
      EverySupportedFileAdded(dropped, n - 1, judge);
      var before := DroppedAttachments(dropped, n - 1, judge);
      forall i | 0 <= i < n && dropped[i].Some? && judge(dropped[i].value) == Accepted
        ensures AttachmentFromPath(dropped[i].value) in DroppedAttachments(dropped, n, judge)
      {
        if i < n - 1 {
          assert AttachmentFromPath(dropped[i].value) in before;
        }
      }
    }
  }

  /** Each dropped path gives exactly one of: an attachment or a toast. */
  lemma {:induction false} EachDropAccountedFor(dropped: seq<Option<string>>, n: nat, judge: Judge)
    requires n <= |dropped|
    ensures |DroppedAttachments(dropped, n, judge)| + |DroppedToasts(dropped, n, judge)| == |set i | 0 <= i < n && dropped[i].Some?|
  {
    if n > 0 {
      EachDropAccountedFor(dropped, n - 1, judge);
      var before := set i | 0 <= i < n - 1 && dropped[i].Some?;
      var now := set i | 0 <= i < n && dropped[i].Some?;
      if dropped[n - 1].Some? {
        assert now == before + {n - 1};
      } else {
        assert now == before;
      }
    }
  }

  /**
   * A dropped file is accepted exactly when it has an extension whose lower
   * case form is one of the formats, and gets the no-extension toast exactly
   * when it has none.
   */
  lemma AcceptedIffListed(path: string)
    ensures VerdictOf(path) == Accepted <==> Extension(path).Some? && Lowercase(Extension(path).value) in AllFormats()
    ensures VerdictOf(path) == NoExtension <==> Extension(path).None?
  {
    if Extension(path).Some? {
      ListedIsMembership(Lowercase(Extension(path).value), AllFormats());
    }
  }

  // ---------------------------------------------------------------------------
  // Token recount

  /** What the content hash is fed with, in order. */
  datatype HashItem = Str(s: string) | PathItem(path: string)

  type Hasher = seq<HashItem> -> nat

  function PathsFeed(files: seq<Attachment>, n: nat): seq<HashItem>
    requires n <= |files|
  {
    if n == 0 then [] else PathsFeed(files, n - 1) + [PathItem(files[n - 1].path)]
  }

  function MessagesFeed(msgs: seq<Message>, n: nat): seq<HashItem>
    requires n <= |msgs|
  {
    if n == 0 then [] else MessagesFeed(msgs, n - 1) + [Str(msgs[n - 1].content)] + PathsFeed(msgs[n - 1].files, |msgs[n - 1].files|)
  }

  /** The compose box, then each message's text and attachment paths, then the pending attachments' paths. */
  function HashFeed(chatbox: string, msgs: seq<Message>, files: seq<Attachment>): seq<HashItem> {
    [Str(chatbox)] + MessagesFeed(msgs, |msgs|) + PathsFeed(files, |files|)
  }

  /** One second, in nanoseconds. */
  const RecountInterval := 1_000_000_000

  /** A recount is due when the content changed and more than a second has passed since the last one, if any. */
  predicate ShouldRecount(lastHash: nat, currentHash: nat, lastCheck: Option<nat>, now: nat) {
    lastHash != currentHash && (lastCheck.None? || Elapsed(now, lastCheck.value) > RecountInterval)
  }

  /**
   * Recounts are throttled: none is due for content that hashes as before,
   * nor within a second of the previous one; one is due for changed content
   * when no count was made yet.
   */
  lemma RecountThrottled(lastHash: nat, currentHash: nat, last: nat, now: nat)
    ensures !ShouldRecount(currentHash, currentHash, Some(last), now)
    ensures now <= last + RecountInterval ==> !ShouldRecount(lastHash, currentHash, Some(last), now)
    ensures lastHash != currentHash ==> ShouldRecount(lastHash, currentHash, None, now)
  {
  }

  /** What a token-count task is given. */
  datatype CountJob = CountJob(chatId: nat, messages: seq<Message>, chatbox: string, files: seq<Attachment>, settings: Widgets.Settings)

  /** The history a token count is made for: the log plus the compose box, without progress and without upload. */
  function CountHistory(job: CountJob, world: HistoryBuilder.Oracle): HistoryBuilder.Built {
    HistoryBuilder.Build(job.messages, Some(HistoryBuilder.ExtraContent(job.chatbox, job.files)), false, None, world)
  }

  /** The answer of a token-count task: the count for the chat, if a client was made and the count was returned. */
  function CountAnswer(job: CountJob, clientMade: bool, total: Option<Gemini.u32>): Option<BackendResponse> {
    if clientMade && total.Some? then Some(TokenCount(job.chatId, total.value)) else None
  }

  /** Counting tokens neither reports progress nor uploads anything. */
  lemma CountingIsSilent(job: CountJob, world: HistoryBuilder.Oracle)
    ensures forall e :: e in CountHistory(job, world).log ==> e.Convert? && !e.upload
  {
    HistoryBuilder.NoChannelOnlyInlineConversions(job.messages, Some(HistoryBuilder.ExtraContent(job.chatbox, job.files)), false, world);
  }

  /** The answer of a count reaches the chat it was made for, when ids are distinct. */
  lemma CountReachesItsChat(chats: seq<Chat>, k: nat, job: CountJob, total: Gemini.u32)
    requires DistinctIds(chats) && k < |chats| && job.chatId == chats[k].id
    ensures Target(chats, Answered(CountAnswer(job, true, Some(total)).value)) == Some(k)
  {
  }

  // ---------------------------------------------------------------------------
  // The session

  class Sessions {
    var chats: seq<Chat>
    var selectedChat: nat
    var settings: Widgets.Settings
    var popups: seq<Popup>

    /** Every entry of the list is a chat object of its own. */
    ghost predicate Distinct()
      reads this
    {
      forall i, j :: 0 <= i < j < |chats| ==> chats[i] != chats[j]
    }

    /** Distinct chats, and the selection in range (or zero when there is no chat). */
    ghost predicate Valid()
      reads this
    {
      Distinct() && (selectedChat < |chats| || (|chats| == 0 && selectedChat == 0))
    }

    /** `Sessions::default`: one default chat, selected, with the default settings. */
    constructor()
      ensures Valid() && DistinctIds(chats)
      ensures |chats| == 1 && chats[0].id == DefaultChatId && fresh(chats[0])
      ensures ViewOf(chats[0]) == EmptyView(Widgets.DefaultModelPicker)
      ensures selectedChat == 0 && settings == Widgets.DefaultSettings && popups == []
    {
      var first := new ChatState.Chat(DefaultChatId, Widgets.DefaultModelPicker);
      chats := [first];
      selectedChat := 0;
      settings := Widgets.DefaultSettings;
      popups := [];
    }

    /** The largest id in use, or 0. */
    method MaxChatId() returns (m: nat)
      ensures m == MaxId(chats, |chats|)
    {
      m := 0;
      for i := 0 to |chats|
        invariant m == MaxId(chats, i)
      {
        if chats[i].id > m {
          m := chats[i].id;
        }
      }
    }

    /** `add_default_chat`: one empty chat is appended, with an id above every id in use. */
    method AddDefaultChat()
      requires Valid()
      modifies this
      ensures Valid()
      ensures |chats| == |old(chats)| + 1 && chats[..|old(chats)|] == old(chats)
      ensures var added := chats[|chats| - 1];
        && fresh(added)
        && added.id == MaxId(old(chats), |old(chats)|) + 1
        && (forall i :: 0 <= i < |old(chats)| ==> old(chats)[i].id < added.id)
        && ViewOf(added) == EmptyView(settings.modelPicker)
      ensures old(DistinctIds(chats)) ==> DistinctIds(chats)
      ensures selectedChat == old(selectedChat) && settings == old(settings) && popups == old(popups)
    {
      var maxId := MaxChatId();
      var added := new ChatState.Chat(maxId + 1, settings.modelPicker);
      chats := chats + [added];
    }

    /** The "New Chat" button: a default chat is added and selected. */
    method NewChat()
      requires Valid()
      modifies this
      ensures Valid() && selectedChat == |chats| - 1
      ensures |chats| == |old(chats)| + 1 && chats[..|old(chats)|] == old(chats)
      ensures var added := chats[|chats| - 1];
        && fresh(added)
        && added.id == MaxId(old(chats), |old(chats)|) + 1
        && (forall i :: 0 <= i < |old(chats)| ==> old(chats)[i].id < added.id)
        && ViewOf(added) == EmptyView(settings.modelPicker)
      ensures old(DistinctIds(chats)) ==> DistinctIds(chats)
      ensures settings == old(settings) && popups == old(popups)
    {
      AddDefaultChat();
      selectedChat := |chats| - 1;
    }

    /**
     * `remove_chat`: the chat at `idx` is removed; an emptied list gets a new
     * default chat, selected; otherwise a selection past the end moves to
     * the last chat. Either way some chat is selected.
     */
    method RemoveChat(idx: nat)
      requires Valid() && idx < |chats|
      modifies this
      ensures Valid() && |chats| > 0 && selectedChat < |chats|
      ensures |old(chats)| > 1 ==>
        && chats == old(chats[..idx] + chats[idx + 1..])
        && selectedChat == (if old(selectedChat) >= |chats| then |chats| - 1 else old(selectedChat))
      ensures |old(chats)| == 1 ==>
        && |chats| == 1 && fresh(chats[0]) && chats[0].id == DefaultChatId && selectedChat == 0
        && ViewOf(chats[0]) == EmptyView(settings.modelPicker)
      ensures old(DistinctIds(chats)) ==> DistinctIds(chats)
      ensures settings == old(settings) && popups == old(popups)
    {
      ghost var before := chats;
      chats := chats[..idx] + chats[idx + 1..];
      assert forall i :: 0 <= i < |chats| ==> chats[i] == before[if i < idx then i else i + 1];
      if |chats| == 0 {
        selectedChat := 0;
        AddDefaultChat();
        selectedChat := 0;
      } else if selectedChat >= |chats| {
        selectedChat := |chats| - 1;
      }
    }

    /**
     * `try_restore_autosave`: when storage holds chats and a selection, they
     * replace the current ones, each chat with the id `Chat::default` gives;
     * a selection out of range becomes 0.
     */
    method RestoreAutosave(saved: Option<(seq<SavedChat>, nat)>) returns (restored: bool)
      requires Valid()
      modifies this
      ensures Valid() && restored == saved.Some?
      ensures saved.None? ==> chats == old(chats) && selectedChat == old(selectedChat)
      ensures saved.Some? ==>
        var (list, sel) := saved.value;
        && |chats| == |list|
        && (forall i :: 0 <= i < |list| ==> fresh(chats[i]) && chats[i].id == DefaultChatId && ViewOf(chats[i]) == RestoredView(list[i]))
        && selectedChat == (if sel >= |list| then 0 else sel)
      ensures settings == old(settings) && popups == old(popups)
    {
      if saved.None? {
        return false;
      }
      var (list, sel) := saved.value;
      var loaded := LoadChats(list, false);
      chats := loaded;
      selectedChat := sel;
      if selectedChat >= |chats| {
        selectedChat := 0;
      }
      return true;
    }

    /** The chats of an autosave with ids 1, 2, ... in order, so that every restored chat can be told apart. */
    method RestoreAutosaveWithIds(saved: Option<(seq<SavedChat>, nat)>) returns (restored: bool)
      requires Valid()
      modifies this
      ensures Valid() && restored == saved.Some?
      ensures saved.None? ==> chats == old(chats) && selectedChat == old(selectedChat)
      ensures saved.Some? ==>
        var (list, sel) := saved.value;
        && |chats| == |list|
        && (forall i :: 0 <= i < |list| ==> fresh(chats[i]) && chats[i].id == i + 1 && ViewOf(chats[i]) == RestoredView(list[i]))
        && DistinctIds(chats)
        && selectedChat == (if sel >= |list| then 0 else sel)
      ensures settings == old(settings) && popups == old(popups)
    {
      if saved.None? {
        return false;
      }
      var (list, sel) := saved.value;
      var loaded := LoadChats(list, true);
      chats := loaded;
      selectedChat := sel;
      if selectedChat >= |chats| {
        selectedChat := 0;
      }
      return true;
    }

    /** Makes one chat object per saved chat, with the default id or with ids 1, 2, .... */
    static method LoadChats(list: seq<SavedChat>, numbered: bool) returns (loaded: seq<Chat>)
      ensures |loaded| == |list|
      ensures forall i :: 0 <= i < |list| ==>
        fresh(loaded[i]) && loaded[i].id == (if numbered then i + 1 else DefaultChatId) && ViewOf(loaded[i]) == RestoredView(list[i])
      ensures forall i, j :: 0 <= i < j < |loaded| ==> loaded[i] != loaded[j]
    {
      loaded := [];
      for i := 0 to |list|
        invariant |loaded| == i
        invariant forall k :: 0 <= k < i ==>
          fresh(loaded[k]) && loaded[k].id == (if numbered then k + 1 else DefaultChatId) && ViewOf(loaded[k]) == RestoredView(list[k])
        invariant forall k, j :: 0 <= k < j < i ==> loaded[k] != loaded[j]
      {
        var s := list[i];
        var c := new ChatState.Chat(if numbered then i + 1 else DefaultChatId, s.modelPicker);
        c.chatbox, c.messages, c.summary, c.files := s.chatbox, s.messages, s.summary, s.files;
        loaded := loaded + [c];
      }
    }

    /**
     * `poll_backend_flower`: a finished background task's answer is applied:
     * files and token counts go to the first chat with the answer's id (and
     * nowhere when there is none), settings are replaced or updated by a
     * login, and toasts and dialogs are shown.
     */
    method ApplyBackend(o: BackendOutcome)
      requires Distinct()
      modifies this, chats
      ensures Distinct() && (old(Valid()) ==> Valid()) && chats == old(chats) && selectedChat == old(selectedChat)
      ensures settings == SettingsAfter(old(settings), o)
      ensures popups == old(popups) + PopupsOf(o)
      ensures var t := Target(chats, o);
        && (forall j :: 0 <= j < |chats| && Some(j) != t ==> ViewOf(chats[j]) == old(ViewOf(chats[j])))
        && (t.Some? ==> ViewOf(chats[t.value]) == ChatAfter(old(ViewOf(chats[t.value])), o.response))
    {
      RouteToChat(o);
      Notify(o);
    }

    /** The arms of `poll_backend_flower` that reach the settings and the popups. */
    method Notify(o: BackendOutcome)
      modifies this`settings, this`popups
      ensures settings == SettingsAfter(old(settings), o)
      ensures popups == old(popups) + PopupsOf(o)
    {
      match o {
        case Answered(r) =>
          match r {
            case ToastResponse(t) => popups := popups + [t];
            case SettingsResponse(next) => settings := next;
            case AuthResult(token, projects) =>
              settings := settings.(oauthToken := token, availableProjects := projects);
              if |settings.projectId| == 0 && |settings.availableProjects| > 0 {
                settings := settings.(projectId := settings.availableProjects[0]);
              }
              popups := popups + [SuccessToast(LoginSucceeded)];
            case _ =>
          }
        case Failed(e) => popups := popups + [Dialog(RequestFailedTitle, e)];
        case Panicked(e) => popups := popups + [Dialog(PanicTitle, PanicPrefix + e)];
      }
    }

    /** The arms of `poll_backend_flower` that reach a chat: found by id, its files are extended or its count stored. */
    method RouteToChat(o: BackendOutcome)
      requires Distinct()
      modifies chats
      ensures var t := Target(chats, o);
        && (forall j :: 0 <= j < |chats| && Some(j) != t ==> ViewOf(chats[j]) == old(ViewOf(chats[j])))
        && (t.Some? ==> ViewOf(chats[t.value]) == ChatAfter(old(ViewOf(chats[t.value])), o.response))
    {
      if o.Answered? {
        match o.response {
          case Files(id, paths) =>
            var k := FirstWithId(chats, id);
            if k.Some? {
              var chat := chats[k.value];
              chat.files := chat.files + AttachmentsFrom(paths);
            }
          case TokenCount(chatId, count) =>
            var k := FirstWithId(chats, chatId);
            if k.Some? {
              chats[k.value].tokenCount := Some(count);
            }
          case _ =>
        }
      }
    }

    /**
     * The drop handling of `show_selected_chat`: with no chat at the
     * selection, the selection is reset to 0 and nothing else happens;
     * otherwise each dropped file with a supported extension is attached to
     * the selected chat, in order, and each other one gets a toast.
     */
    method DropFiles(dropped: seq<Option<string>>)
      requires Distinct()
      modifies this, chats
      ensures Distinct() && chats == old(chats) && (old(Valid()) ==> Valid())
      ensures old(selectedChat) >= |chats| ==>
        selectedChat == 0 && popups == old(popups) && forall j :: 0 <= j < |chats| ==> ViewOf(chats[j]) == old(ViewOf(chats[j]))
      ensures old(selectedChat) < |chats| ==>
        && selectedChat == old(selectedChat)
        && ViewOf(chats[selectedChat]) == old(ViewOf(chats[selectedChat])).(files := old(chats[selectedChat].files) + DroppedAttachments(dropped, |dropped|, VerdictOf))
        && popups == old(popups) + DroppedToasts(dropped, |dropped|, VerdictOf)
        && forall j :: 0 <= j < |chats| && j != selectedChat ==> ViewOf(chats[j]) == old(ViewOf(chats[j]))
      ensures settings == old(settings)
    {
      if selectedChat >= |chats| {
        selectedChat := 0;
        return;
      }
      var chat: Chat := chats[selectedChat];
      ghost var files0 := chat.files;
      ghost var popups0 := popups;
      for i := 0 to |dropped|
        modifies chat`files, this`popups
        invariant chat.files == files0 + DroppedAttachments(dropped, i, VerdictOf)
        invariant popups == popups0 + DroppedToasts(dropped, i, VerdictOf)
      {
        if dropped[i].Some? {
          var path := dropped[i].value;
          TakeDrop(chat, path);
          AppendAssoc(files0, DroppedAttachments(dropped, i, VerdictOf),
                      if VerdictOf(path) == Accepted then [AttachmentFromPath(path)] else []);
          AppendAssoc(popups0, DroppedToasts(dropped, i, VerdictOf), SkipToast(path, VerdictOf(path)));
        } else {
          assert DroppedAttachments(dropped, i + 1, VerdictOf) == DroppedAttachments(dropped, i, VerdictOf) + [];
          assert DroppedToasts(dropped, i + 1, VerdictOf) == DroppedToasts(dropped, i, VerdictOf) + [];
        }
      }
    }

    /** One dropped path: attached to `chat` when its extension is supported, else a toast says why not. */
    method TakeDrop(chat: Chat, path: string)
      modifies chat`files, this`popups
      ensures chat.files == old(chat.files) + (if VerdictOf(path) == Accepted then [AttachmentFromPath(path)] else [])
      ensures popups == old(popups) + SkipToast(path, VerdictOf(path))
    {
      var filename := HistoryBuilder.ShownName(path);
      var ext := Extension(path);
      if ext.None? {
        popups := popups + [InfoToast(NoExtensionLead + filename + Backtick)];
        return;
      }
      if !Listed(Lowercase(ext.value), AllFormats()) {
        popups := popups + [InfoToast(UnsupportedLead + filename + Backtick)];
        return;
      }
      chat.files := chat.files + [AttachmentFromPath(path)];
      assert popups == old(popups) + [];
    }

    /**
     * The token-count trigger: the selected chat's content is hashed; when a
     * recount is due, the hash and the time are recorded and a count is
     * requested for the chat's log, compose box and attachments.
     */
    method RecountTokens(hasher: Hasher, now: nat) returns (job: Option<CountJob>)
      requires Distinct()
      modifies chats
      ensures selectedChat >= |chats| ==> job.None?
      ensures selectedChat < |chats| ==>
        var c := chats[selectedChat];
        var before := old(ViewOf(c));
        var h := hasher(HashFeed(before.chatbox, before.messages, before.files));
        && (job.Some? <==> ShouldRecount(before.lastContentHash, h, before.lastTokenCheck, now))
        && (job.Some? ==> ViewOf(c) == before.(lastContentHash := h, lastTokenCheck := Some(now))
                          && job.value == CountJob(c.id, before.messages, before.chatbox, before.files, settings))
        && (job.None? ==> ViewOf(c) == before)
      ensures forall j :: 0 <= j < |chats| && j != selectedChat ==> ViewOf(chats[j]) == old(ViewOf(chats[j]))
    {
      job := None;
      if selectedChat >= |chats| {
        return;
      }
      var chat := chats[selectedChat];
      var feed := ContentFeed(chat.chatbox, chat.messages, chat.files);
      var currentHash := hasher(feed);
      var shouldUpdate := chat.lastContentHash != currentHash
        && (chat.lastTokenCheck.None? || Elapsed(now, chat.lastTokenCheck.value) > RecountInterval);
      if shouldUpdate {
        chat.lastContentHash := currentHash;
        chat.lastTokenCheck := Some(now);
        job := Some(CountJob(chat.id, chat.messages, chat.chatbox, chat.files, settings));
      }
    }

    /** Feeds the hasher: the compose box, each message's text and attachment paths, then the pending paths. */
    static method ContentFeed(chatbox: string, messages: seq<Message>, files: seq<Attachment>) returns (feed: seq<HashItem>)
      ensures feed == HashFeed(chatbox, messages, files)
    {
      feed := [Str(chatbox)];
      for i := 0 to |messages|
        invariant feed == [Str(chatbox)] + MessagesFeed(messages, i)
      {
        var msg := messages[i];
        feed := feed + [Str(msg.content)];
        var paths := FeedPaths(msg.files);
        feed := feed + paths;
      }
      var paths := FeedPaths(files);
      feed := feed + paths;
    }

    static method FeedPaths(files: seq<Attachment>) returns (feed: seq<HashItem>)
      ensures feed == PathsFeed(files, |files|)
    {
      feed := [];
      for i := 0 to |files|
        invariant feed == PathsFeed(files, i)
      {
        feed := feed + [PathItem(files[i].path)];
      }
    }
  }
}
