/**
 * The history builder: turns a chat's message log into the role-grouped
 * content blocks of a generation request, resolving each attachment either to
 * a reference to a still-valid uploaded file or through the file converter.
 *
 * The converter (which reads the file and may upload it) and the wall clock
 * are supplied by the caller as an `Oracle`. Every message sent on the
 * progress channel, and every call of the converter, is recorded in order in
 * an event log.
 */
module HistoryBuilder {
  import opened Base
  import opened Messages
  import Gemini

  /** The file reference `FileData::try_from` makes of an uploaded file, when it can. */
  datatype FileLink = FileLink(uri: string, mimeType: string)

  /** What the file converter returns for (path, upload allowed). */
  datatype Conversion =
    | InlinePart(part: Gemini.Part)
    | UploadedFile(meta: Gemini.RemoteFile, link: Option<FileLink>)
    | ConvertError(reason: string)

  /** The outside world the builder consults: the UTC clock and the file converter. */
  datatype Oracle = Oracle(utcNow: int, convert: (string, bool) -> Conversion)

  /** A progress message sent for the message at `index`, or a call of the converter. */
  datatype Event =
    | Send(index: nat, progress: ChatProgress)
    | Convert(path: string, upload: bool)

  /** The parts an attachment (or a run of them) contributes and the events that produces. */
  datatype Resolved = Resolved(parts: seq<Gemini.Part>, log: seq<Event>) {
    function Then(next: Resolved): Resolved {
      Resolved(parts + next.parts, log + next.log)
    }
  }

  // ---------------------------------------------------------------------------
  // File names, as `Path::file_name` gives them for '/'-separated paths

  /** The text after the last '/' of a path (all of it when it has none). */
  function LastSegment(path: string): string {
    if |path| == 0 || path[|path| - 1] == '/' then []
    else LastSegment(path[..|path| - 1]) + [path[|path| - 1]]
  }

  /** The last segment is the longest suffix of the path without '/': a suffix, with no '/', preceded by one. */
  lemma {:induction false} LastSegmentIsSuffix(path: string)
    ensures var r := LastSegment(path);
      && |r| <= |path| && r == path[|path| - |r|..] && '/' !in r
      && (|r| < |path| ==> path[|path| - |r| - 1] == '/')
  {
    if |path| > 0 && path[|path| - 1] != '/' {
      var init := path[..|path| - 1];
      LastSegmentIsSuffix(init);
      var r := LastSegment(init);
      var last := path[|path| - 1];
      assert LastSegment(path) == r + [last];
      assert path[|path| - |r| - 1..] == init[|init| - |r|..] + [last];
      assert '/' !in r + [last];
      if |r| + 1 < |path| {
        assert path[|path| - |r| - 2] == init[|init| - |r| - 1];
      }
    }
  }

  /** The last segment of a path whose final segment is `name` is `name`. */
  lemma {:induction false} LastSegmentOfJoin(dir: string, name: string)
    requires |dir| == 0 || dir[|dir| - 1] == '/'
    requires '/' !in name
    ensures LastSegment(dir + name) == name
    decreases |name|
  {
    var path := dir + name;
    if |name| > 0 {
      var init := name[..|name| - 1];
      LastSegmentOfJoin(dir, init);
      assert path[..|path| - 1] == dir + init;
      assert init + [name[|name| - 1]] == name;
    } else {
      assert path == dir;
    }
  }

  /**
   * The last component of a path, as `Path::components` reads it from the
   * back: trailing separators and "." components are skipped; empty when
   * nothing else is left.
   */
  function LastComponent(path: string): string {
    if |path| == 0 then []
    else if path[|path| - 1] == '/' || LastSegment(path) == "." then LastComponent(path[..|path| - 1])
    else LastSegment(path)
  }

  /** The character at `i` is a separator, or a "." component: a dot between separators (or the ends). */
  predicate CurrentDirAt(s: string, i: nat)
    requires i < |s|
  {
    s[i] == '/' || (s[i] == '.' && (i == 0 || s[i - 1] == '/') && (i + 1 == |s| || s[i + 1] == '/'))
  }

  /** Only separators and "." components. */
  predicate OnlyCurrentDirs(s: string) {
    forall i :: 0 <= i < |s| ==> CurrentDirAt(s, i)
  }

  /**
   * The component `c` sits at `k` at the end of `path`: it starts the path or
   * follows a '/', and after it come only separators and "." components.
   */
  predicate ComponentAt(path: string, c: string, k: nat) {
    k + |c| <= |path| && path[k..k + |c|] == c && (k == 0 || path[k - 1] == '/')
    && (k + |c| == |path| || path[k + |c|] == '/') && OnlyCurrentDirs(path[k + |c|..])
  }

  /** `path` ends with the component `c`. */
  ghost predicate EndsWithComponent(path: string, c: string) {
    exists k: nat :: ComponentAt(path, c, k)
  }

  /** What a file name can be: non-empty, without '/', and neither "." nor "..". */
  predicate NormalName(n: string) {
    |n| > 0 && '/' !in n && n != "." && n != ".."
  }

  /** `Path::file_name`: the last component, unless there is none or it is "..". */
  function FileName(path: string): (r: Option<string>)
    ensures r.Some? ==> NormalName(r.value)
  {
    LastComponentShape(path);
    var c := LastComponent(path);
    if c == [] || c == ".." then None else Some(c)
  }

  /** The file name as the client shows it: `file_name()`, or empty without one. */
  function ShownName(path: string): string {
    FileName(path).GetOr([])
  }

  lemma OnlyCurrentDirsPrefix(s: string, n: nat)
    requires OnlyCurrentDirs(s) && n <= |s|
    ensures OnlyCurrentDirs(s[..n])
  {
    forall i | 0 <= i < n
      ensures CurrentDirAt(s[..n], i)
    {
      assert CurrentDirAt(s, i);
    }
  }

  lemma OnlyCurrentDirsSlash(s: string)
    requires OnlyCurrentDirs(s)
    ensures OnlyCurrentDirs(s + "/")
  {
    var t := s + "/";
    forall i | 0 <= i < |t|
      ensures CurrentDirAt(t, i)
    {
      if i < |s| {
        assert CurrentDirAt(s, i);
        assert t[i] == s[i];
        if i > 0 { assert t[i - 1] == s[i - 1]; }
        if i + 1 < |s| { assert t[i + 1] == s[i + 1]; } else { assert t[i + 1] == '/'; }
      } else {
        assert t[i] == '/';
      }
    }
  }

  lemma OnlyCurrentDirsDot(s: string)
    requires OnlyCurrentDirs(s) && (|s| == 0 || s[|s| - 1] == '/')
    ensures OnlyCurrentDirs(s + ".")
  {
    var t := s + ".";
    forall i | 0 <= i < |t|
      ensures CurrentDirAt(t, i)
    {
      if i < |s| {
        assert CurrentDirAt(s, i);
        assert t[i] == s[i];
        if i > 0 { assert t[i - 1] == s[i - 1]; }
        if i + 1 < |s| { assert t[i + 1] == s[i + 1]; } else { assert t[i] == '/'; }
      } else {
        assert t[i] == '.';
        if i > 0 { assert t[i - 1] == s[|s| - 1]; }
      }
    }
  }

  /** A path ending in '.' whose last segment is something else ends in a longer segment. */
  lemma DotSegment(path: string)
    requires |path| > 0 && path[|path| - 1] == '.'
    ensures LastSegment(path) == "." <==> |path| == 1 || path[|path| - 2] == '/'
  {
    var init := path[..|path| - 1];
    assert LastSegment(path) == LastSegment(init) + ['.'];
    if |init| > 0 && init[|init| - 1] != '/' {
      assert |LastSegment(init)| > 0;
    }
  }

  /** Skipping a trailing '/' or "." keeps a component at the end of the path. */
  lemma ComponentAtSkip(path: string, c: string, k: nat)
    requires |path| > 0 && (path[|path| - 1] == '/' || (path[|path| - 1] == '.' && (|path| == 1 || path[|path| - 2] == '/')))
    requires |c| > 0 && '/' !in c && ComponentAt(path[..|path| - 1], c, k)
    ensures ComponentAt(path, c, k)
  {
    var init := path[..|path| - 1];
    var last := path[|path| - 1];
    assert path == init + [last];
    if k + |c| == |init| {
      assert init[|init| - 1] == c[|c| - 1] && c[|c| - 1] in c;
    }
    assert path[k..k + |c|] == c;
    var t := init[k + |c|..];
    assert path[k + |c|..] == t + [last];
    if last == '/' { OnlyCurrentDirsSlash(t); } else { OnlyCurrentDirsDot(t); }
  }

  /** The last component has no '/' and is not "."; it is a component the path ends with. */
  lemma {:induction false} LastComponentShape(path: string)
    ensures var c := LastComponent(path);
      c != [] ==> '/' !in c && c != "." && EndsWithComponent(path, c)
    decreases |path|
  {
    if |path| > 0 {
      var init := path[..|path| - 1];
      var last := path[|path| - 1];
      LastSegmentIsSuffix(path);
      if last == '/' || LastSegment(path) == "." {
        LastComponentShape(init);
        var c := LastComponent(init);
        if last == '.' {
          DotSegment(path);
        }
        if c != [] {
          var k: nat :| ComponentAt(init, c, k);
          ComponentAtSkip(path, c, k);
        }
      } else {
        var c := LastSegment(path);
        assert c == LastSegment(init) + [last];
        assert path[|path| - |c|..|path|] == c;
        assert ComponentAt(path, c, |path| - |c|);
      }
    }
  }

  /** A path has no last component exactly when it holds only separators and "." components. */
  lemma {:induction false} NoComponentIffCurrentDirs(path: string)
    ensures LastComponent(path) == [] <==> OnlyCurrentDirs(path)
    decreases |path|
  {
    if |path| > 0 {
      var init := path[..|path| - 1];
      var last := path[|path| - 1];
      assert path == init + [last];
      if last == '/' || LastSegment(path) == "." {
        NoComponentIffCurrentDirs(init);
        if last == '.' {
          DotSegment(path);
        }
        if OnlyCurrentDirs(path) {
          OnlyCurrentDirsPrefix(path, |path| - 1);
        }
        if OnlyCurrentDirs(init) {
          if last == '/' {
            OnlyCurrentDirsSlash(init);
            assert init + "/" == path;
          } else {
            OnlyCurrentDirsDot(init);
            assert init + "." == path;
          }
        }
      } else {
        assert LastSegment(path) == LastSegment(init) + [last];
        if OnlyCurrentDirs(path) {
          assert CurrentDirAt(path, |path| - 1);
          DotSegment(path);
        }
      }
    }
  }

  /** Dropping the last character after a component at the end of the path keeps it there. */
  lemma ComponentAtDrop(path: string, c: string, k: nat)
    requires ComponentAt(path, c, k) && k + |c| < |path|
    ensures ComponentAt(path[..|path| - 1], c, k)
  {
    var t := path[k + |c|..];
    var init := path[..|path| - 1];
    assert init[k..k + |c|] == c;
    assert init[k + |c|..] == t[..|t| - 1];
    OnlyCurrentDirsPrefix(t, |t| - 1);
    if |t| > 1 {
      assert init[k + |c|] == t[0];
    }
  }

  /** What follows a component at the end of the path ends in a separator or a "." segment. */
  lemma TrailerSkipped(path: string, c: string, k: nat)
    requires ComponentAt(path, c, k) && k + |c| < |path|
    ensures path[|path| - 1] == '/' || LastSegment(path) == "."
  {
    var t := path[k + |c|..];
    assert t[|t| - 1] == path[|path| - 1];
    assert CurrentDirAt(t, |t| - 1);
    if path[|path| - 1] == '.' {
      assert t[0] == path[k + |c|] == '/';
      assert t[|t| - 2] == path[|path| - 2];
      DotSegment(path);
    }
  }

  /** A component the path ends with, without '/' and other than ".", is its last component. */
  lemma {:induction false} ComponentUnique(path: string, c: string)
    requires |c| > 0 && '/' !in c && c != "."
    requires EndsWithComponent(path, c)
    ensures LastComponent(path) == c
    decreases |path|
  {
    var k: nat :| ComponentAt(path, c, k);
    if k + |c| == |path| {
      var dir := path[..k];
      assert path == dir + c;
      if k > 0 { assert dir[|dir| - 1] == path[k - 1]; }
      LastSegmentOfJoin(dir, c);
      assert path[|path| - 1] == c[|c| - 1] && c[|c| - 1] in c;
    } else {
      ComponentAtDrop(path, c, k);
      TrailerSkipped(path, c, k);
      ComponentUnique(path[..|path| - 1], c);
    }
  }

  /**
   * `file_name` is the path's last component when that is a normal name:
   * exactly the names a path ends with; none exactly when the path holds only
   * separators and "." components, or ends with "..".
   */
  lemma FileNameIsLastComponent(path: string, n: string)
    ensures FileName(path) == Some(n) <==> NormalName(n) && EndsWithComponent(path, n)
    ensures FileName(path).None? <==> OnlyCurrentDirs(path) || EndsWithComponent(path, "..")
  {
    LastComponentShape(path);
    NoComponentIffCurrentDirs(path);
    if NormalName(n) && EndsWithComponent(path, n) {
      ComponentUnique(path, n);
    }
    if EndsWithComponent(path, "..") {
      ComponentUnique(path, "..");
    }
  }

  /** A name after a directory's '/', followed by separators and "." components, is a component at the end. */
  lemma JoinedComponent(dir: string, name: string, rest: string)
    requires OnlyCurrentDirs(rest) && (rest == [] || rest[0] == '/')
    ensures ComponentAt(dir + "/" + name + rest, name, |dir| + 1)
  {
    var p := dir + "/" + name + rest;
    var k := |dir| + 1;
    assert p[k..k + |name|] == name && p[k - 1] == '/' && p[k + |name|..] == rest;
  }

  /** A name after a directory's '/', followed only by separators and "." components, is the file name. */
  lemma JoinedName(dir: string, name: string, rest: string)
    requires NormalName(name) && OnlyCurrentDirs(rest) && (rest == [] || rest[0] == '/')
    ensures FileName(dir + "/" + name + rest) == Some(name)
  {
    JoinedComponent(dir, name, rest);
    FileNameIsLastComponent(dir + "/" + name + rest, name);
  }

  /**
   * The name of a file in a directory is its own name, with or without
   * trailing separators or "." components.
   */
  lemma FileNameOfJoin(dir: string, name: string)
    requires NormalName(name)
    ensures FileName(dir + "/" + name) == Some(name)
    ensures FileName(dir + "/" + name + "/") == Some(name)
    ensures FileName(dir + "/" + name + "/.") == Some(name)
  {
    JoinedName(dir, name, []);
    assert dir + "/" + name + [] == dir + "/" + name;
    assert CurrentDirAt("/", 0);
    JoinedName(dir, name, "/");
    assert CurrentDirAt("/.", 0) && CurrentDirAt("/.", 1);
    JoinedName(dir, name, "/.");
  }

  /** A path ending in a ".." component has no file name. */
  lemma ParentDirHasNoName(dir: string)
    ensures FileName(dir + "/..").None?
  {
    JoinedComponent(dir, "..", []);
    assert dir + "/" + ".." + [] == dir + "/..";
    FileNameIsLastComponent(dir + "/..", "..");
  }

  const ProcessingPrefix := "Processing file: "
  const ProcessingSuffix := "..."

  function ProcessingStatus(path: string): string {
    ProcessingPrefix + ShownName(path) + ProcessingSuffix
  }

  predicate IsExpired(f: Gemini.RemoteFile, utcNow: int) {
    f.expirationTime.Some? && f.expirationTime.value < utcNow
  }

  /** The reference part for an attachment whose upload is still valid and has a URI. */
  function ReusablePart(a: Attachment, utcNow: int): Option<Gemini.Part> {
    if a.state.Uploaded? && !IsExpired(a.state.file, utcNow) && a.state.file.uri.Some? then
      Some(Gemini.FileData(a.state.file.uri.value, a.state.file.mimeType.GetOr("")))
    else None
  }

  /**
   * One attachment. Without a reusable upload: a status message and, when
   * uploads are allowed, an "uploading" notice (both only with a channel), then
   * one converter call, uploading only when allowed and a channel is present;
   * an upload is announced on the channel; a converter error drops the file.
   */
  function ResolveAttachment(a: Attachment, allowUpload: bool, channel: Option<nat>, msgIdx: nat, world: Oracle): Resolved {
    match ReusablePart(a, world.utcNow)
    case Some(p) => Resolved([p], [])
    case None => ConvertAttachment(a.path, allowUpload, channel, msgIdx, world.convert(a.path, allowUpload && channel.Some?))
  }

  /** An attachment without a reusable upload: its notices and what its one converter call gave. */
  function ConvertAttachment(path: string, allowUpload: bool, channel: Option<nat>, msgIdx: nat, converted: Conversion): Resolved {
    var notices :=
      if channel.Some? then
        [Send(channel.value, Status(ProcessingStatus(path)))]
        + (if allowUpload then [Send(msgIdx, FileUploading(path))] else [])
      else [];
    var upload := allowUpload && channel.Some?;
    var before := notices + [Convert(path, upload)];
    match converted
    case InlinePart(p) => Resolved([p], before)
    case UploadedFile(meta, link) =>
      Resolved(
        if link.Some? then [Gemini.FileData(link.value.uri, link.value.mimeType)] else [],
        before + (if channel.Some? then [Send(msgIdx, FileUploaded(path, meta))] else []))
    case ConvertError(_) => Resolved([], before)
  }

  /** The first `n` attachments, in order. */
  function ResolvePrefix(files: seq<Attachment>, n: nat, allowUpload: bool, channel: Option<nat>, msgIdx: nat, world: Oracle): Resolved
    requires n <= |files|
  {
    if n == 0 then Resolved([], [])
    else ResolvePrefix(files, n - 1, allowUpload, channel, msgIdx, world)
           .Then(ResolveAttachment(files[n - 1], allowUpload, channel, msgIdx, world))
  }

  /** The attachments of one message, in order. */
  function ResolveAll(files: seq<Attachment>, allowUpload: bool, channel: Option<nat>, msgIdx: nat, world: Oracle): Resolved {
    ResolvePrefix(files, |files|, allowUpload, channel, msgIdx, world)
  }

  /** The body of the attachment loop of `process_attachments`, for one attachment. */
  method ProcessAttachment(attachment: Attachment, allowUpload: bool, channel: Option<nat>, msgIdx: nat, world: Oracle)
    returns (parts: seq<Gemini.Part>, events: seq<Event>)
    ensures Resolved(parts, events) == ResolveAttachment(attachment, allowUpload, channel, msgIdx, world)
  {
    if attachment.state.Uploaded? {
      var remote := attachment.state.file;
      var isExpired := if remote.expirationTime.Some? then remote.expirationTime.value < world.utcNow else false;
      if !isExpired && remote.uri.Some? {
        parts, events := [Gemini.FileData(remote.uri.value, remote.mimeType.GetOr(""))], [];
        return;
      }
    }
    var converted := world.convert(attachment.path, allowUpload && channel.Some?);
    parts, events := ConvertFile(attachment.path, allowUpload, channel, msgIdx, converted);
  }

  /** The rest of the attachment loop for one file: its notices, and the parts the converter call gave. */
  method ConvertFile(path: string, allowUpload: bool, channel: Option<nat>, msgIdx: nat, converted: Conversion)
    returns (parts: seq<Gemini.Part>, events: seq<Event>)
    ensures Resolved(parts, events) == ConvertAttachment(path, allowUpload, channel, msgIdx, converted)
  {
    var notices: seq<Event> := [];
    if channel.Some? {
      notices := [Send(channel.value, Status(ProcessingStatus(path)))];
      if allowUpload {
        notices := notices + [Send(msgIdx, FileUploading(path))];
      }
    }
    var effectiveUpload := allowUpload && channel.Some?;
    events := notices + [Convert(path, effectiveUpload)];
    parts := [];
    match converted
    case InlinePart(part) =>
      parts := [part];
    case UploadedFile(meta, link) =>
      if channel.Some? {
        events := events + [Send(msgIdx, FileUploaded(path, meta))];
      }
      if link.Some? {
        parts := [Gemini.FileData(link.value.uri, link.value.mimeType)];
      }
    case ConvertError(_) =>
  }

  /**
   * `process_attachments`: appends the parts of `files` to `buffer` and the
   * events to `log`.
   */
  method ProcessAttachments(files: seq<Attachment>, buffer: seq<Gemini.Part>, log: seq<Event>,
                            allowUpload: bool, channel: Option<nat>, msgIdx: nat, world: Oracle)
    returns (buffer': seq<Gemini.Part>, log': seq<Event>)
    ensures buffer' == buffer + ResolveAll(files, allowUpload, channel, msgIdx, world).parts
    ensures log' == log + ResolveAll(files, allowUpload, channel, msgIdx, world).log
  {
    buffer', log' := buffer, log;
    ghost var done := Resolved([], []);
    for i := 0 to |files|
      invariant done == ResolvePrefix(files, i, allowUpload, channel, msgIdx, world)
      invariant buffer' == buffer + done.parts && log' == log + done.log
    {
      var parts, events := ProcessAttachment(files[i], allowUpload, channel, msgIdx, world);
      AppendAssoc(buffer, done.parts, parts);
      AppendAssoc(log, done.log, events);
      done := done.Then(Resolved(parts, events));
      buffer' := buffer' + parts;
      log' := log' + events;
    }
  }

  function RoleOf(r: MessageRole): Gemini.Role {
    match r
    case User => Gemini.User
    case Assistant => Gemini.Model
  }

  /** Thought messages, and messages with neither text nor files, are skipped. */
  predicate Kept(m: Message) {
    !m.isThought && !(|m.content| == 0 && |m.files| == 0)
  }

  /** How the attachments of the message at a given index are resolved. */
  type Resolver = (seq<Attachment>, nat) -> Resolved

  /** The resolver `build_history` uses for the chat's messages. */
  function AttachmentResolver(allowUpload: bool, channel: Option<nat>, world: Oracle): Resolver {
    (files: seq<Attachment>, msgIdx: nat) => ResolveAll(files, allowUpload, channel, msgIdx, world)
  }

  /** A message's parts: its attachments first, then its text when there is any. */
  function MessageParts(m: Message, msgIdx: nat, resolve: Resolver): (r: Resolved)
    ensures var files := resolve(m.files, msgIdx);
      && r.log == files.log
      && (|m.content| == 0 ==> r.parts == files.parts)
      && (|m.content| > 0 ==> r.parts == files.parts + [Gemini.Text(m.content, None)])
  {
    var files := resolve(m.files, msgIdx);
    Resolved(files.parts + (if |m.content| > 0 then [Gemini.Text(m.content, None)] else []), files.log)
  }

  /** The builder's state: finished blocks, the pending buffer, the role it belongs to. */
  datatype Builder = Builder(history: seq<Gemini.Content>, buffer: seq<Gemini.Part>, active: Option<Gemini.Role>, log: seq<Event>)

  /**
   * One message: skipped ones change nothing; on a role change a non-empty
   * buffer becomes a block under the previous role; then the message's parts
   * join the buffer under its own role.
   */
  function Step(b: Builder, m: Message, msgIdx: nat, resolve: Resolver): Builder {
    if !Kept(m) then b
    else
      var role := RoleOf(m.role);
      var flush := b.active.Some? && b.active.value != role && |b.buffer| > 0;
      var history := if flush then b.history + [Gemini.Content(b.buffer, b.active.value)] else b.history;
      var buffer := if flush then [] else b.buffer;
      var r := MessageParts(m, msgIdx, resolve);
      Builder(history, buffer + r.parts, Some(role), b.log + r.log)
  }

  const EmptyBuilder := Builder([], [], None, [])

  /** The builder after the first `n` messages. */
  function Scan(msgs: seq<Message>, n: nat, resolve: Resolver): Builder
    requires n <= |msgs|
  {
    if n == 0 then EmptyBuilder
    else Step(Scan(msgs, n - 1, resolve), msgs[n - 1], n - 1, resolve)
  }

  /** The final flush: a non-empty buffer becomes the last block under the active role. */
  function Flush(b: Builder): seq<Gemini.Content> {
    if |b.buffer| > 0 && b.active.Some? then b.history + [Gemini.Content(b.buffer, b.active.value)] else b.history
  }

  /** The compose box's text and files, added when counting tokens. */
  datatype ExtraContent = ExtraContent(text: string, files: seq<Attachment>)

  /** Extra content: files converted without upload and without a channel, then the text. */
  function ExtraParts(e: ExtraContent, world: Oracle): Resolved {
    var files := ResolveAll(e.files, false, None, 0, world);
    Resolved(files.parts + (if |e.text| > 0 then [Gemini.Text(e.text, None)] else []), files.log)
  }

  datatype Built = Built(history: seq<Gemini.Content>, log: seq<Event>)

  /** `build_history` over the first `|msgs|` messages with a given resolver. */
  function Assemble(msgs: seq<Message>, ex: Resolved, channel: Option<nat>, resolve: Resolver): Built {
    var b := Scan(msgs, |msgs|, resolve);
    Built(
      Flush(b) + ExtraBlock(ex),
      b.log + ex.log + (if channel.Some? then [Send(channel.value, Status(""))] else []))
  }

  /** The whole of `build_history`: the history it returns and the events it produces. */
  function Build(msgs: seq<Message>, extra: Option<ExtraContent>, publicUpload: bool, channel: Option<nat>, world: Oracle): Built {
    var ex := if extra.Some? then ExtraParts(extra.value, world) else Resolved([], []);
    Assemble(msgs, ex, channel, AttachmentResolver(publicUpload, channel, world))
  }

  /** One iteration of the message loop of `build_history`. */
  method AddMessage(history: seq<Gemini.Content>, partsBuffer: seq<Gemini.Part>, activeRole: Option<Gemini.Role>, log: seq<Event>,
                    message: Message, msgIdx: nat, publicUpload: bool, channel: Option<nat>, world: Oracle)
    returns (history': seq<Gemini.Content>, partsBuffer': seq<Gemini.Part>, activeRole': Option<Gemini.Role>, log': seq<Event>)
    ensures Builder(history', partsBuffer', activeRole', log')
      == Step(Builder(history, partsBuffer, activeRole, log), message, msgIdx, AttachmentResolver(publicUpload, channel, world))
  {
    history', partsBuffer', activeRole', log' := history, partsBuffer, activeRole, log;
    if message.isThought || (|message.content| == 0 && |message.files| == 0) {
      return;
    }
    var messageRole := RoleOf(message.role);
    if activeRole'.Some? {
      if activeRole'.value != messageRole {
        if |partsBuffer'| > 0 {
          history' := history' + [Gemini.Content(partsBuffer', activeRole'.value)];
          partsBuffer' := [];
        }
        activeRole' := Some(messageRole);
      }
    } else {
      activeRole' := Some(messageRole);
    }
    partsBuffer', log' := ProcessAttachments(message.files, partsBuffer', log', publicUpload, channel, msgIdx, world);
    if |message.content| > 0 {
      partsBuffer' := partsBuffer' + [Gemini.Text(message.content, None)];
    }
  }

  /** The extra content, when there is some, becomes one user block after the history. */
  method AddExtra(history: seq<Gemini.Content>, log: seq<Event>, extra: Option<ExtraContent>, world: Oracle)
    returns (history': seq<Gemini.Content>, log': seq<Event>)
    ensures var ex := if extra.Some? then ExtraParts(extra.value, world) else Resolved([], []);
      history' == history + ExtraBlock(ex) && log' == log + ex.log
  {
    history', log' := history, log;
    var extraParts: seq<Gemini.Part> := [];
    if extra.Some? {
      extraParts, log' := ProcessAttachments(extra.value.files, [], log', false, None, 0, world);
      assert extraParts == ResolveAll(extra.value.files, false, None, 0, world).parts;
      if |extra.value.text| > 0 {
        extraParts := extraParts + [Gemini.Text(extra.value.text, None)];
      } else {
        assert extraParts == extraParts + [];
      }
      assert extraParts == ExtraParts(extra.value, world).parts;
      if |extraParts| > 0 {
        history' := history' + [Gemini.Content(extraParts, Gemini.User)];
      }
    } else {
      assert history' == history + [];
    }
  }

  /** `build_history`. */
  method BuildHistory(messages: seq<Message>, extra: Option<ExtraContent>, publicUpload: bool, channel: Option<nat>, world: Oracle)
    returns (history: seq<Gemini.Content>, log: seq<Event>)
    ensures Built(history, log) == Build(messages, extra, publicUpload, channel, world)
    ensures channel.Some? ==> |log| > 0 && log[|log| - 1] == Send(channel.value, Status(""))
    ensures channel.None? ==> forall e :: e in log ==> e.Convert? && !e.upload
  {
    history := [];
    var partsBuffer: seq<Gemini.Part> := [];
    var activeRole: Option<Gemini.Role> := None;
    log := [];
    for msgIdx := 0 to |messages|
      invariant Builder(history, partsBuffer, activeRole, log) == Scan(messages, msgIdx, AttachmentResolver(publicUpload, channel, world))
    {
      history, partsBuffer, activeRole, log :=
        AddMessage(history, partsBuffer, activeRole, log, messages[msgIdx], msgIdx, publicUpload, channel, world);
    }
    ghost var b := Builder(history, partsBuffer, activeRole, log);
    if |partsBuffer| > 0 {
      if activeRole.Some? {
        history := history + [Gemini.Content(partsBuffer, activeRole.value)];
        partsBuffer := [];
      }
    }
    ghost var main := history;
    assert main == Flush(b);
    history, log := AddExtra(history, log, extra, world);
    if channel.Some? {
      log := log + [Send(channel.value, Status(""))];
    }
    if channel.None? {
      NoChannelOnlyInlineConversions(messages, extra, publicUpload, world);
    }
  }

  // ---------------------------------------------------------------------------
  // Properties of the specification

  /** The parts of a list of blocks, concatenated in order. */
  function AllParts(h: seq<Gemini.Content>): seq<Gemini.Part> {
    if |h| == 0 then [] else AllParts(h[..|h| - 1]) + h[|h| - 1].parts
  }

  /** The parts of the kept messages among the first `n`, in message order. */
  function KeptParts(msgs: seq<Message>, n: nat, resolve: Resolver): seq<Gemini.Part>
    requires n <= |msgs|
  {
    if n == 0 then []
    else KeptParts(msgs, n - 1, resolve) + Contribution(msgs[n - 1], n - 1, resolve)
  }

  lemma AllPartsAppend(h: seq<Gemini.Content>, c: Gemini.Content)
    ensures AllParts(h + [c]) == AllParts(h) + c.parts
  {
    assert (h + [c])[..|h|] == h;
  }

  ghost predicate NoEmptyBlock(h: seq<Gemini.Content>) {
    forall i :: 0 <= i < |h| ==> |h[i].parts| > 0
  }

  lemma AppendBlock(h: seq<Gemini.Content>, c: Gemini.Content)
    requires NoEmptyBlock(h) && |c.parts| > 0
    ensures AllParts(h + [c]) == AllParts(h) + c.parts
    ensures NoEmptyBlock(h + [c])
  {
    AllPartsAppend(h, c);
  }

  /** The builder's invariant: finished blocks are never empty, a pending buffer has a role. */
  ghost predicate WellFormed(b: Builder) {
    && NoEmptyBlock(b.history)
    && (|b.buffer| > 0 ==> b.active.Some?)
  }

  /** The parts one message adds. */
  function Contribution(m: Message, msgIdx: nat, resolve: Resolver): seq<Gemini.Part> {
    if Kept(m) then MessageParts(m, msgIdx, resolve).parts else []
  }

  lemma StepWellFormed(b: Builder, m: Message, msgIdx: nat, resolve: Resolver)
    requires WellFormed(b)
    ensures WellFormed(Step(b, m, msgIdx, resolve))
  {
  }

  lemma StepKeepsParts(b: Builder, m: Message, msgIdx: nat, resolve: Resolver)
    ensures var b' := Step(b, m, msgIdx, resolve);
      AllParts(b'.history) + b'.buffer == AllParts(b.history) + b.buffer + Contribution(m, msgIdx, resolve)
  {
    if Kept(m) {
      var r := MessageParts(m, msgIdx, resolve).parts;
      if b.active.Some? && b.active.value != RoleOf(m.role) && |b.buffer| > 0 {
        var c := Gemini.Content(b.buffer, b.active.value);
        AllPartsAppend(b.history, c);
        assert AllParts(b.history + [c]) + ([] + r) == AllParts(b.history) + b.buffer + r;
      } else {
        assert AllParts(b.history) + (b.buffer + r) == AllParts(b.history) + b.buffer + r;
      }
    }
  }

  lemma {:induction false} ScanWellFormed(msgs: seq<Message>, n: nat, resolve: Resolver)
    requires n <= |msgs|
    ensures WellFormed(Scan(msgs, n, resolve))
  {
    if n > 0 {
      ScanWellFormed(msgs, n - 1, resolve);
      StepWellFormed(Scan(msgs, n - 1, resolve), msgs[n - 1], n - 1, resolve);
    }
  }

  lemma {:induction false} ScanKeepsParts(msgs: seq<Message>, n: nat, resolve: Resolver)
    requires n <= |msgs|
    ensures var b := Scan(msgs, n, resolve);
      AllParts(b.history) + b.buffer == KeptParts(msgs, n, resolve)
  {
    if n > 0 {
      ScanKeepsParts(msgs, n - 1, resolve);
      StepKeepsParts(Scan(msgs, n - 1, resolve), msgs[n - 1], n - 1, resolve);
    }
  }

  lemma FlushKeepsParts(b: Builder)
    requires WellFormed(b)
    ensures AllParts(Flush(b)) == AllParts(b.history) + b.buffer
    ensures NoEmptyBlock(Flush(b))
  {
    if |b.buffer| > 0 && b.active.Some? {
      AppendBlock(b.history, Gemini.Content(b.buffer, b.active.value));
    } else {
      assert b.buffer == [];
      assert AllParts(b.history) + b.buffer == AllParts(b.history);
    }
  }

  /** The extra content's block, if it has parts. */
  function ExtraBlock(ex: Resolved): seq<Gemini.Content> {
    if |ex.parts| > 0 then [Gemini.Content(ex.parts, Gemini.User)] else []
  }

  lemma ExtraBlockKeepsParts(h: seq<Gemini.Content>, ex: Resolved)
    requires NoEmptyBlock(h)
    ensures AllParts(h + ExtraBlock(ex)) == AllParts(h) + ex.parts
    ensures NoEmptyBlock(h + ExtraBlock(ex))
  {
    if |ex.parts| > 0 {
      AppendBlock(h, Gemini.Content(ex.parts, Gemini.User));
    } else {
      assert h + ExtraBlock(ex) == h;
      assert AllParts(h) + ex.parts == AllParts(h);
    }
  }

  lemma AssembledPartsInOrder(msgs: seq<Message>, ex: Resolved, channel: Option<nat>, resolve: Resolver)
    ensures var h := Assemble(msgs, ex, channel, resolve).history;
      && AllParts(h) == KeptParts(msgs, |msgs|, resolve) + ex.parts
      && NoEmptyBlock(h)
  {
    var b := Scan(msgs, |msgs|, resolve);
    ScanWellFormed(msgs, |msgs|, resolve);
    ScanKeepsParts(msgs, |msgs|, resolve);
    FlushKeepsParts(b);
    ExtraBlockKeepsParts(Flush(b), ex);
  }

  /**
   * Every part of every kept message appears exactly once in the history,
   * in message order, followed by the parts of the extra content; skipped
   * messages contribute nothing; no block is empty.
   */
  lemma PartsExactlyOnceInOrder(msgs: seq<Message>, extra: Option<ExtraContent>, publicUpload: bool, channel: Option<nat>, world: Oracle)
    ensures var h := Build(msgs, extra, publicUpload, channel, world).history;
      && AllParts(h) == KeptParts(msgs, |msgs|, AttachmentResolver(publicUpload, channel, world))
                        + (if extra.Some? then ExtraParts(extra.value, world).parts else [])
      && NoEmptyBlock(h)
  {
    var ex := if extra.Some? then ExtraParts(extra.value, world) else Resolved([], []);
    AssembledPartsInOrder(msgs, ex, channel, AttachmentResolver(publicUpload, channel, world));
  }

  /** The parts of the first `m` kept messages come before those of the first `n`, for `m <= n`. */
  lemma {:induction false} KeptPartsPrefix(msgs: seq<Message>, m: nat, n: nat, resolve: Resolver)
    requires m <= n <= |msgs|
    ensures KeptParts(msgs, m, resolve) <= KeptParts(msgs, n, resolve)
    decreases n
  {
    if m < n {
      KeptPartsPrefix(msgs, m, n - 1, resolve);
    }
  }

  /** The parts of the kept messages before message `i`, then message `i`'s own, start the parts of all of them. */
  lemma KeptMessagePrefix(msgs: seq<Message>, i: nat, resolve: Resolver)
    requires i < |msgs|
    ensures KeptParts(msgs, i, resolve) + Contribution(msgs[i], i, resolve) <= KeptParts(msgs, |msgs|, resolve)
  {
    KeptPartsPrefix(msgs, i + 1, |msgs|, resolve);
  }

  /**
   * In the history, a kept message's parts (its attachments, then its text,
   * as `MessageParts` states) come as one run right after the parts of every
   * earlier kept message.
   */
  lemma MessagePartsInPlace(msgs: seq<Message>, extra: Option<ExtraContent>, publicUpload: bool, channel: Option<nat>, world: Oracle, i: nat)
    requires i < |msgs| && Kept(msgs[i])
    ensures var resolve := AttachmentResolver(publicUpload, channel, world);
      KeptParts(msgs, i, resolve) + MessageParts(msgs[i], i, resolve).parts
        <= AllParts(Build(msgs, extra, publicUpload, channel, world).history)
  {
    var resolve := AttachmentResolver(publicUpload, channel, world);
    PartsExactlyOnceInOrder(msgs, extra, publicUpload, channel, world);
    KeptMessagePrefix(msgs, i, resolve);
  }

  /** The extra content is exactly one trailing User block, present only when it produced parts. */
  lemma ExtraIsOneTrailingUserBlock(msgs: seq<Message>, e: ExtraContent, publicUpload: bool, channel: Option<nat>, world: Oracle)
    ensures var without := Build(msgs, None, publicUpload, channel, world).history;
      var with := Build(msgs, Some(e), publicUpload, channel, world).history;
      var parts := ExtraParts(e, world).parts;
      && (|parts| == 0 ==> with == without)
      && (|parts| > 0 ==> with == without + [Gemini.Content(parts, Gemini.User)])
      && (|e.text| > 0 ==> |parts| > 0)
  {
  }

  /** Without a channel nothing is sent and every conversion is inline (no upload). */
  lemma {:induction false} NoChannelResolvePrefix(files: seq<Attachment>, n: nat, allowUpload: bool, msgIdx: nat, world: Oracle)
    requires n <= |files|
    ensures forall e :: e in ResolvePrefix(files, n, allowUpload, None, msgIdx, world).log ==> e.Convert? && !e.upload
  {
    if n > 0 {
      NoChannelResolvePrefix(files, n - 1, allowUpload, msgIdx, world);
    }
  }

  lemma NoChannelResolveAll(files: seq<Attachment>, allowUpload: bool, msgIdx: nat, world: Oracle)
    ensures forall e :: e in ResolveAll(files, allowUpload, None, msgIdx, world).log ==> e.Convert? && !e.upload
  {
    NoChannelResolvePrefix(files, |files|, allowUpload, msgIdx, world);
  }

  /** Neither the attachments of a message nor anything else sends on a missing channel. */
  ghost predicate SendsNothing(resolve: Resolver) {
    forall files, msgIdx, e :: e in resolve(files, msgIdx).log ==> e.Convert? && !e.upload
  }

  lemma {:induction false} NoChannelScan(msgs: seq<Message>, n: nat, resolve: Resolver)
    requires n <= |msgs|
    requires SendsNothing(resolve)
    ensures forall e :: e in Scan(msgs, n, resolve).log ==> e.Convert? && !e.upload
  {
    if n > 0 {
      NoChannelScan(msgs, n - 1, resolve);
    }
  }

  /** Token counting calls the builder without a channel: nothing is sent and nothing is uploaded. */
  lemma NoChannelOnlyInlineConversions(msgs: seq<Message>, extra: Option<ExtraContent>, publicUpload: bool, world: Oracle)
    ensures forall e :: e in Build(msgs, extra, publicUpload, None, world).log ==> e.Convert? && !e.upload
  {
    var resolve := AttachmentResolver(publicUpload, None, world);
    forall files, msgIdx: nat
      ensures forall e :: e in resolve(files, msgIdx).log ==> e.Convert? && !e.upload
    {
      NoChannelResolveAll(files, publicUpload, msgIdx, world);
    }
    NoChannelScan(msgs, |msgs|, resolve);
    if extra.Some? {
      NoChannelResolveAll(extra.value.files, false, 0, world);
    }
  }

  /** The compose box's files are always converted without upload and without notices, whatever the channel. */
  lemma ExtraIsSilent(e: ExtraContent, world: Oracle)
    ensures forall ev :: ev in ExtraParts(e, world).log ==> ev.Convert? && !ev.upload
  {
    NoChannelResolveAll(e.files, false, 0, world);
  }

  ghost predicate NeverUploads(resolve: Resolver) {
    forall files, msgIdx, e :: e in resolve(files, msgIdx).log && e.Convert? ==> !e.upload
  }

  lemma {:induction false} NeverUploadsScan(msgs: seq<Message>, n: nat, resolve: Resolver)
    requires n <= |msgs|
    requires NeverUploads(resolve)
    ensures forall e :: e in Scan(msgs, n, resolve).log && e.Convert? ==> !e.upload
  {
    if n > 0 {
      NeverUploadsScan(msgs, n - 1, resolve);
    }
  }

  /** Without the public-upload setting no attachment is ever uploaded, whether or not progress is reported. */
  lemma NoUploadWithoutPermission(msgs: seq<Message>, extra: Option<ExtraContent>, channel: Option<nat>, world: Oracle)
    ensures forall e :: e in Build(msgs, extra, false, channel, world).log && e.Convert? ==> !e.upload
  {
    var resolve := AttachmentResolver(false, channel, world);
    forall files, msgIdx: nat
      ensures forall e :: e in resolve(files, msgIdx).log && e.Convert? ==> !e.upload
    {
      UploadOnlyWhenAllowed(files, false, channel, msgIdx, world);
    }
    NeverUploadsScan(msgs, |msgs|, resolve);
    if extra.Some? {
      NoChannelResolveAll(extra.value.files, false, 0, world);
    }
  }

  lemma {:induction false} UploadOnlyWhenAllowedPrefix(files: seq<Attachment>, n: nat, allowUpload: bool, channel: Option<nat>, msgIdx: nat, world: Oracle)
    requires n <= |files|
    ensures forall e :: e in ResolvePrefix(files, n, allowUpload, channel, msgIdx, world).log && e.Convert? && e.upload
                ==> allowUpload && channel.Some?
  {
    if n > 0 {
      UploadOnlyWhenAllowedPrefix(files, n - 1, allowUpload, channel, msgIdx, world);
    }
  }

  /** An upload is attempted only when uploads are allowed and a channel is present. */
  lemma UploadOnlyWhenAllowed(files: seq<Attachment>, allowUpload: bool, channel: Option<nat>, msgIdx: nat, world: Oracle)
    ensures forall e :: e in ResolveAll(files, allowUpload, channel, msgIdx, world).log && e.Convert? && e.upload
                ==> allowUpload && channel.Some?
  {
    UploadOnlyWhenAllowedPrefix(files, |files|, allowUpload, channel, msgIdx, world);
  }

  /**
   * A still-valid upload with a URI is reused as a file reference: no
   * converter call and no progress message.
   */
  lemma ReuseUnexpiredUpload(a: Attachment, allowUpload: bool, channel: Option<nat>, msgIdx: nat, world: Oracle)
    requires a.state.Uploaded? && a.state.file.uri.Some?
    requires a.state.file.expirationTime.None? || a.state.file.expirationTime.value >= world.utcNow
    ensures ResolveAttachment(a, allowUpload, channel, msgIdx, world)
      == Resolved([Gemini.FileData(a.state.file.uri.value, a.state.file.mimeType.GetOr(""))], [])
  {
  }

  /** An expired upload goes through the converter again. */
  lemma ExpiredUploadIsConvertedAgain(a: Attachment, allowUpload: bool, channel: Option<nat>, msgIdx: nat, world: Oracle)
    requires a.state.Uploaded? && a.state.file.expirationTime.Some? && a.state.file.expirationTime.value < world.utcNow
    ensures Convert(a.path, allowUpload && channel.Some?) in ResolveAttachment(a, allowUpload, channel, msgIdx, world).log
  {
  }

  lemma {:induction false} ResolvePrefixAgree(xs: seq<Attachment>, ys: seq<Attachment>, n: nat, allowUpload: bool, channel: Option<nat>, msgIdx: nat, world: Oracle)
    requires n <= |xs| && n <= |ys| && xs[..n] == ys[..n]
    ensures ResolvePrefix(xs, n, allowUpload, channel, msgIdx, world) == ResolvePrefix(ys, n, allowUpload, channel, msgIdx, world)
  {
    if n > 0 {
      assert xs[n - 1] == xs[..n][n - 1] == ys[..n][n - 1] == ys[n - 1];
      assert xs[..n - 1] == xs[..n][..n - 1] == ys[..n][..n - 1] == ys[..n - 1];
      ResolvePrefixAgree(xs, ys, n - 1, allowUpload, channel, msgIdx, world);
    }
  }

  lemma {:induction false} ResolvePrefixAppend(xs: seq<Attachment>, ys: seq<Attachment>, k: nat, allowUpload: bool, channel: Option<nat>, msgIdx: nat, world: Oracle)
    requires k <= |ys|
    ensures ResolvePrefix(xs + ys, |xs| + k, allowUpload, channel, msgIdx, world)
      == ResolveAll(xs, allowUpload, channel, msgIdx, world).Then(ResolvePrefix(ys, k, allowUpload, channel, msgIdx, world))
  {
    var left := ResolveAll(xs, allowUpload, channel, msgIdx, world);
    if k == 0 {
      assert (xs + ys)[..|xs|] == xs[..|xs|];
      ResolvePrefixAgree(xs + ys, xs, |xs|, allowUpload, channel, msgIdx, world);
      assert left.parts + [] == left.parts && left.log + [] == left.log;
    } else {
      ResolvePrefixAppend(xs, ys, k - 1, allowUpload, channel, msgIdx, world);
      assert (xs + ys)[|xs| + k - 1] == ys[k - 1];
      var mid := ResolvePrefix(ys, k - 1, allowUpload, channel, msgIdx, world);
      var last := ResolveAttachment(ys[k - 1], allowUpload, channel, msgIdx, world);
      ThenAssoc(left, mid, last);
    }
  }

  lemma ThenAssoc(a: Resolved, b: Resolved, c: Resolved)
    ensures a.Then(b).Then(c) == a.Then(b.Then(c))
  {
    AppendAssoc(a.parts, b.parts, c.parts);
    AppendAssoc(a.log, b.log, c.log);
  }

  lemma ResolveAllAppend(xs: seq<Attachment>, ys: seq<Attachment>, allowUpload: bool, channel: Option<nat>, msgIdx: nat, world: Oracle)
    ensures ResolveAll(xs + ys, allowUpload, channel, msgIdx, world)
      == ResolveAll(xs, allowUpload, channel, msgIdx, world).Then(ResolveAll(ys, allowUpload, channel, msgIdx, world))
  {
    ResolvePrefixAppend(xs, ys, |ys|, allowUpload, channel, msgIdx, world);
  }

  /**
   * A file the converter fails on is skipped on its own: the parts are those
   * of the files before it followed by those of the files after it.
   */
  lemma FailedConversionSkipsOnlyThatFile(files: seq<Attachment>, i: nat, allowUpload: bool, channel: Option<nat>, msgIdx: nat, world: Oracle)
    requires i < |files|
    requires ReusablePart(files[i], world.utcNow).None?
    requires world.convert(files[i].path, allowUpload && channel.Some?).ConvertError?
    ensures ResolveAll(files, allowUpload, channel, msgIdx, world).parts
      == ResolveAll(files[..i], allowUpload, channel, msgIdx, world).parts
         + ResolveAll(files[i + 1..], allowUpload, channel, msgIdx, world).parts
  {
    assert files == files[..i] + ([files[i]] + files[i + 1..]);
    ResolveAllAppend(files[..i], [files[i]] + files[i + 1..], allowUpload, channel, msgIdx, world);
    ResolveAllAppend([files[i]], files[i + 1..], allowUpload, channel, msgIdx, world);
    assert ResolveAttachment(files[i], allowUpload, channel, msgIdx, world).parts == [];
    assert ResolvePrefix([files[i]], 0, allowUpload, channel, msgIdx, world).parts == [];
    assert ResolveAll([files[i]], allowUpload, channel, msgIdx, world).parts == [];
  }

  /**
   * When every kept message has text (so contributes at least one part),
   * neighbouring blocks have different roles.
   */
  ghost predicate Alternating(h: seq<Gemini.Content>) {
    forall i :: 0 < i < |h| ==> h[i - 1].role != h[i].role
  }

  lemma {:induction false} ScanAlternates(msgs: seq<Message>, n: nat, resolve: Resolver)
    requires n <= |msgs|
    requires forall j :: 0 <= j < n && Kept(msgs[j]) ==> |msgs[j].content| > 0
    ensures var b := Scan(msgs, n, resolve);
      && Alternating(b.history)
      && (b.active.Some? <==> |b.buffer| > 0)
      && (|b.history| > 0 ==> b.active.Some? && b.history[|b.history| - 1].role != b.active.value)
  {
    if n > 0 {
      ScanAlternates(msgs, n - 1, resolve);
    }
  }

  lemma RolesAlternate(msgs: seq<Message>, publicUpload: bool, channel: Option<nat>, world: Oracle)
    requires forall j :: 0 <= j < |msgs| && Kept(msgs[j]) ==> |msgs[j].content| > 0
    ensures Alternating(Build(msgs, None, publicUpload, channel, world).history)
  {
    ScanAlternates(msgs, |msgs|, AttachmentResolver(publicUpload, channel, world));
  }

  /** A message with text and no files, from the given role. */
  function TextMessage(role: MessageRole, text: string): Message {
    Message(Widgets.Gemini30Flash, text, role, false, 0, None, false, [], false, None, None)
  }

  /** Roles [User, User, Assistant, User] give three blocks; the first holds both user texts in order. */
  lemma MergeExample(a: string, b: string, c: string, d: string, world: Oracle)
    requires |a| > 0 && |b| > 0 && |c| > 0 && |d| > 0
    ensures var msgs := [TextMessage(User, a), TextMessage(User, b), TextMessage(Assistant, c), TextMessage(User, d)];
      Build(msgs, None, false, None, world).history == [
        Gemini.Content([Gemini.Text(a, None), Gemini.Text(b, None)], Gemini.User),
        Gemini.Content([Gemini.Text(c, None)], Gemini.Model),
        Gemini.Content([Gemini.Text(d, None)], Gemini.User)]
  {
    var msgs := [TextMessage(User, a), TextMessage(User, b), TextMessage(Assistant, c), TextMessage(User, d)];
    var resolve := AttachmentResolver(false, None, world);
    forall role, text, i: nat | |text| > 0
      ensures MessageParts(TextMessage(role, text), i, resolve) == Resolved([Gemini.Text(text, None)], [])
    {
      assert resolve([], i) == ResolveAll([], false, None, i, world) == Resolved([], []);
    }
    var b1 := Scan(msgs, 1, resolve);
    assert Scan(msgs, 0, resolve) == EmptyBuilder;
    assert MessageParts(msgs[0], 0, resolve) == Resolved([Gemini.Text(a, None)], []);
    assert b1 == Step(EmptyBuilder, msgs[0], 0, resolve);
    assert b1 == Builder([], [Gemini.Text(a, None)], Some(Gemini.User), []);
    var b2 := Scan(msgs, 2, resolve);
    assert b2 == Builder([], [Gemini.Text(a, None), Gemini.Text(b, None)], Some(Gemini.User), []);
    var b3 := Scan(msgs, 3, resolve);
    assert b3 == Builder([Gemini.Content([Gemini.Text(a, None), Gemini.Text(b, None)], Gemini.User)],
                         [Gemini.Text(c, None)], Some(Gemini.Model), []);
    var b4 := Scan(msgs, 4, resolve);
    assert b4 == Builder([Gemini.Content([Gemini.Text(a, None), Gemini.Text(b, None)], Gemini.User),
                          Gemini.Content([Gemini.Text(c, None)], Gemini.Model)],
                         [Gemini.Text(d, None)], Some(Gemini.User), []);
  }
}
