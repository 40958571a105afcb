/**
 * Turning the error text of a failed completion into the message shown to
 * the user: the JSON object embedded in the text is located, parsed (as is,
 * or after undoing one level of escaping), and a known API status is
 * rendered with an explanation.
 *
 * JSON parsing itself is a parameter: a parser reports, for a text, whether
 * it is a JSON value, and if so its "error" member and its pretty-printed
 * form.
 */
module ErrorDiagnosis {
  import opened Base

  /** The members of the "error" object that are read: integer code, string status and message. */
  datatype ErrorObject = ErrorObject(code: Option<int>, status: Option<string>, message: Option<string>)

  /** A parsed JSON value, reduced to its "error" member and its pretty-printed text. */
  datatype JsonValue = JsonValue(error: Option<ErrorObject>, pretty: string)

  type JsonParser = string -> Option<JsonValue>

  /**
   * The text from the first '{' to the last '}' after it (inclusive), or to
   * the end of the text when no '}' follows; None when there is no '{'.
   */
  function JsonCandidate(msg: string): (r: Option<string>)
    ensures r.None? <==> '{' !in msg
    ensures r.Some? ==> exists start, end :: 0 <= start < end <= |msg| && r.value == msg[start..end]
                                             && msg[start] == '{' && '{' !in msg[..start]
                                             && (('}' in msg[start..] ==> msg[end - 1] == '}' && '}' !in msg[end..])
                                                 && ('}' !in msg[start..] ==> end == |msg|))
  {
    match Find(msg, '{')
    case None => None
    case Some(start) =>
      var tail := msg[start..];
      var end := match RFind(tail, '}') case Some(i) => i + 1 case None => |tail|;
      assert tail[0] == '{';
      assert end > 0 by {
        if RFind(tail, '}').None? { assert |tail| > 0; }
      }
      assert msg[start + end..] == tail[end..];
      Some(tail[..end])
  }

  /** Undoes one level of escaping: `\"` becomes `"`, then `\n` becomes a newline. */
  function Unescape(s: string): (r: string)
    ensures '\\' !in s ==> r == s
  {
    NoBackslashNoEscape(s);
    var once := Replace(s, "\\\"", "\"");
    NoBackslashNoEscape(once);
    Replace(once, "\\n", "\n")
  }

  /** One level of escaping, as a JSON body quoted inside an error text has: '"' becomes `\"`, a newline `\n`. */
  function Escape(t: string): string {
    if |t| == 0 then []
    else (if t[0] == '"' then "\\\"" else if t[0] == '\n' then "\\n" else [t[0]]) + Escape(t[1..])
  }

  /** Only the newlines escaped: what is left once `\"` has been undone. */
  function EscapeNewlines(t: string): string {
    if |t| == 0 then []
    else (if t[0] == '\n' then "\\n" else [t[0]]) + EscapeNewlines(t[1..])
  }

  /** `Unescape` undoes `Escape` on any text without backslashes. */
  lemma UnescapeInvertsEscape(t: string)
    requires '\\' !in t
    ensures Unescape(Escape(t)) == t
  {
    UndoQuotes(t);
    UndoNewlines(t);
  }

  lemma {:induction false} UndoQuotes(t: string)
    requires '\\' !in t
    ensures Replace(Escape(t), "\\\"", "\"") == EscapeNewlines(t)
  {
    if |t| > 0 {
      UndoQuotes(t[1..]);
      var rest := Escape(t[1..]);
      if t[0] == '"' {
        ReplaceHit("\\\"", rest, "\"");
      } else if t[0] == '\n' {
        QuoteSkipsNewline(rest);
      } else {
        QuoteSkipsChar(t[0], rest);
      }
    }
  }

  /** An escaped newline is left alone when undoing `\"`. */
  lemma QuoteSkipsNewline(rest: string)
    ensures Replace("\\n" + rest, "\\\"", "\"") == "\\n" + Replace(rest, "\\\"", "\"")
  {
    assert ("\\n" + rest)[1] != "\\\""[1];
    ReplaceSkip("\\n" + rest, "\\\"", "\"");
    assert ("\\n" + rest)[1..] == "n" + rest;
    ReplaceSkip("n" + rest, "\\\"", "\"");
    assert ("n" + rest)[1..] == rest;
  }

  /** A character other than a backslash is left alone when undoing `\"`. */
  lemma QuoteSkipsChar(c: char, rest: string)
    requires c != '\\'
    ensures Replace([c] + rest, "\\\"", "\"") == [c] + Replace(rest, "\\\"", "\"")
  {
    ReplaceSkip([c] + rest, "\\\"", "\"");
    assert ([c] + rest)[1..] == rest;
  }

  lemma {:induction false} UndoNewlines(t: string)
    requires '\\' !in t
    ensures Replace(EscapeNewlines(t), "\\n", "\n") == t
  {
    if |t| > 0 {
      UndoNewlines(t[1..]);
      var rest := EscapeNewlines(t[1..]);
      if t[0] == '\n' {
        ReplaceHit("\\n", rest, "\n");
      } else {
        ReplaceSkip([t[0]] + rest, "\\n", "\n");
        assert ([t[0]] + rest)[1..] == rest;
      }
      assert t == [t[0]] + t[1..];
    }
  }

  lemma NoBackslashNoEscape(s: string)
    ensures '\\' !in s ==> !Contains(s, "\\\"") && !Contains(s, "\\n")
  {
    EscapeNeedsBackslash(s, "\\\"");
    EscapeNeedsBackslash(s, "\\n");
  }

  lemma EscapeNeedsBackslash(s: string, pat: string)
    requires |pat| > 0 && pat[0] == '\\'
    ensures Contains(s, pat) ==> '\\' in s
  {
    if Contains(s, pat) {
      var i :| 0 <= i <= |s| && OccursAt(s, pat, i);
      assert s[i] == s[i..i + |pat|][0];
    }
  }

  const QuotaName := "Quota Exhausted"
  const QuotaMark := "🛑" + " **"
  const QuotaRest := " (429)**\n\nYou've hit the Gemini API rate limit. Please wait a bit or check your Google AI Studio quota."
  const QuotaText := QuotaMark + QuotaName + QuotaRest
  const SuggestionLead := "\n\n⏳ **Suggestion:** "
  const RetryMarker := "retry in "
  const NotFoundText := "🚫" + " **Model Not Found (404)**\n\nThe model you selected is either not found or not supported for this operation. Try choosing a different model.\n\n**Details:** "
  const PermissionText := "🔒" + " **Permission Denied (403)**\n\nCheck your API Key and project permissions. Make sure the Key is valid for the selected region.\n\n**Details:** "
  const InvalidText := "❌" + " **Invalid Request (400)**\n\nSomething is wrong with the request parameters.\n\n**Details:** "

  /** `pos` is where "retry in " first occurs in the message. */
  predicate FirstRetryAt(message: string, pos: nat) {
    pos <= |message| && OccursAt(message, RetryMarker, pos)
    && forall j :: 0 <= j < pos ==> !OccursAt(message, RetryMarker, j)
  }

  /** The retry hint of a quota error: the message from the first "retry in " on. */
  function RetryInfo(message: string): (r: string)
    ensures !Contains(message, RetryMarker) ==> r == ""
    ensures Contains(message, RetryMarker) ==>
      exists pos: nat :: FirstRetryAt(message, pos) && r == SuggestionLead + message[pos..]
  {
    ContainsFound(message, RetryMarker);
    match FindSub(message, RetryMarker)
    case None => ""
    case Some(pos) => SuggestionLead + message[pos..]
  }

  /** The statuses that get an explanation of their own, and all the others. */
  datatype StatusKind = Quota | NotFound | PermissionDenied | InvalidArgument | OtherStatus

  function KindOf(status: string): StatusKind {
    if status == "RESOURCE_EXHAUSTED" then Quota
    else if status == "NOT_FOUND" then NotFound
    else if status == "PERMISSION_DENIED" then PermissionDenied
    else if status == "INVALID_ARGUMENT" then InvalidArgument
    else OtherStatus
  }

  const GenericMark := "❗" + " **Gemini API Error ("
  const StatusLead := ")**\n\n**Status:** "
  const MessageLead := "\n**Message:** "

  /** The explanation of a status without one of its own: code, status and message. */
  function GenericText(code: int, status: string, message: string): string {
    GenericMark + IntToString(code) + StatusLead + status + MessageLead + message
  }

  /** The explanation shown for an API error with the given code, status and message. */
  function Template(code: int, status: string, message: string): string {
    match KindOf(status)
    case Quota => QuotaText + RetryInfo(message)
    case NotFound => NotFoundText + message
    case PermissionDenied => PermissionText + message
    case InvalidArgument => InvalidText + message
    case OtherStatus => GenericText(code, status, message)
  }

  /** The text shown for a parsed value: the explanation of its "error" member, or the value itself. */
  function Interpret(json: JsonValue): string {
    match json.error
    case None => json.pretty
    case Some(e) => Template(e.code.GetOr(0), e.status.GetOr("UNKNOWN"), e.message.GetOr("No message"))
  }

  /** The text `parse` is applied to: the candidate if it parses, else its unescaped form. */
  function ParseTarget(candidate: string, parse: JsonParser): string {
    if parse(candidate).Some? then candidate else Unescape(candidate)
  }

  /** The error diagnosis: the text shown for the error text `msg`. */
  function Diagnose(msg: string, parse: JsonParser): string {
    match JsonCandidate(msg)
    case None => msg
    case Some(candidate) =>
      match parse(ParseTarget(candidate, parse))
      case None => msg
      case Some(json) => Interpret(json)
  }

  // ---------------------------------------------------------------------------
  // Properties

  /** A text without '{' is shown verbatim, whatever the parser. */
  lemma NoObjectShownVerbatim(msg: string, parse: JsonParser)
    requires '{' !in msg
    ensures Diagnose(msg, parse) == msg
  {
  }

  /** When neither the candidate nor its unescaped form parses, the text is shown verbatim. */
  lemma UnparseableShownVerbatim(msg: string, parse: JsonParser)
    requires JsonCandidate(msg).Some?
    requires parse(JsonCandidate(msg).value).None? && parse(Unescape(JsonCandidate(msg).value)).None?
    ensures Diagnose(msg, parse) == msg
  {
  }

  /** A value without an "error" member is shown pretty-printed. */
  lemma NoErrorMemberShownPretty(msg: string, parse: JsonParser, json: JsonValue)
    requires JsonCandidate(msg).Some? && parse(ParseTarget(JsonCandidate(msg).value, parse)) == Some(json)
    requires json.error.None?
    ensures Diagnose(msg, parse) == json.pretty
  {
  }

  /** The unescaped form is tried only when the candidate itself does not parse, and only matters with a backslash. */
  lemma UnescapeOnlyAsFallback(candidate: string, parse: JsonParser)
    ensures parse(candidate).Some? ==> ParseTarget(candidate, parse) == candidate
    ensures '\\' !in candidate ==> ParseTarget(candidate, parse) == candidate
  {
  }

  /** Every explanation but the quota one carries the service's message verbatim; the generic one also the status. */
  lemma TemplateCarriesMessage(code: int, status: string, message: string)
    ensures KindOf(status) != Quota ==> Contains(Template(code, status, message), message)
    ensures KindOf(status) == OtherStatus ==> Contains(Template(code, status, message), status)
  {
    match KindOf(status)
    case Quota =>
    case NotFound => ContainsSuffix(NotFoundText, message);
    case PermissionDenied => ContainsSuffix(PermissionText, message);
    case InvalidArgument => ContainsSuffix(InvalidText, message);
    case OtherStatus => GenericCarries(code, status, message);
  }

  lemma GenericCarries(code: int, status: string, message: string)
    ensures Contains(GenericText(code, status, message), message) && Contains(GenericText(code, status, message), status)
  {
    ContainsSuffix(GenericMark + IntToString(code) + StatusLead + status + MessageLead, message);
    var head := GenericMark + IntToString(code) + StatusLead;
    ContainsSecond(head, status, MessageLead, message);
  }

  /**
   * A quota error is explained as such; the suggestion is added exactly when
   * the service's message mentions "retry in ", and is that message from there.
   */
  lemma QuotaExplained(code: int, message: string)
    ensures var r := Template(code, "RESOURCE_EXHAUSTED", message);
      && r[..|QuotaText|] == QuotaText && Contains(r, QuotaName)
      && (!Contains(message, RetryMarker) ==> r == QuotaText)
      && (Contains(message, RetryMarker) ==> exists pos: nat :: FirstRetryAt(message, pos)
                                                                && r == QuotaText + SuggestionLead + message[pos..])
  {
    var info := RetryInfo(message);
    assert Template(code, "RESOURCE_EXHAUSTED", message) == QuotaText + info;
    PrefixOfAppend(QuotaText, info);
    ContainsSecond(QuotaMark, QuotaName, QuotaRest, info);
    if Contains(message, RetryMarker) {
      var pos: nat :| FirstRetryAt(message, pos) && info == SuggestionLead + message[pos..];
      AppendAssoc(QuotaText, SuggestionLead, message[pos..]);
    } else {
      assert QuotaText + info == QuotaText + "";
    }
  }

  /**
   * An escaped error body, as the client library reports it inside its own
   * error text, is recognised after unescaping: a quota error is explained
   * as a quota error.
   */
  lemma EscapedQuotaErrorRecognised(msg: string, parse: JsonParser, e: ErrorObject, pretty: string)
    requires JsonCandidate(msg).Some?
    requires var c := JsonCandidate(msg).value;
      parse(c).None? && parse(Unescape(c)) == Some(JsonValue(Some(e), pretty))
    requires e.status == Some("RESOURCE_EXHAUSTED")
    ensures Diagnose(msg, parse)[..|QuotaText|] == QuotaText
  {
    QuotaExplained(e.code.GetOr(0), e.message.GetOr("No message"));
  }

  /** The mark an explanation opens with, one per known status and one for every other. */
  function StatusMark(kind: StatusKind): char {
    match kind
    case Quota => '🛑'
    case NotFound => '🚫'
    case PermissionDenied => '🔒'
    case InvalidArgument => '❌'
    case OtherStatus => '❗'
  }

  /** Every explanation opens with the mark of its status. */
  lemma TemplateOpensWithMark(code: int, status: string, message: string)
    ensures |Template(code, status, message)| > 0 && Template(code, status, message)[0] == StatusMark(KindOf(status))
  {
  }

  /** Each known status gets its own explanation: explanations of different known statuses never coincide, nor with the generic one. */
  lemma EachKnownStatusOwnTemplate(c1: int, s1: string, m1: string, c2: int, s2: string, m2: string)
    requires KindOf(s1) != OtherStatus && KindOf(s1) != KindOf(s2)
    ensures Template(c1, s1, m1) != Template(c2, s2, m2)
  {
    TemplateOpensWithMark(c1, s1, m1);
    TemplateOpensWithMark(c2, s2, m2);
  }
}
