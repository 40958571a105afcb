/**
 * The conversation log: messages, their attachments, the progress events a
 * completion task sends for a message, and the terminal outcome of a task.
 */
module Messages {
  import opened Base
  import Gemini
  import Widgets

  datatype MessageRole = User | Assistant

  /** Upload state of an attached file. */
  datatype AttachmentState =
    | Pending
    | Uploading
    | Uploaded(file: Gemini.RemoteFile)
    | Failed

  datatype Attachment = Attachment(path: string, state: AttachmentState)

  /** A freshly attached file (`Attachment::from_path`). */
  function AttachmentFromPath(path: string): Attachment {
    Attachment(path, Pending)
  }

  /**
   * One message of a chat. Times are readings of the monotonic clock in
   * nanoseconds; `generationTime` is a duration in nanoseconds.
   */
  datatype Message = Message(
    model: Widgets.GeminiModel,
    content: string,
    role: MessageRole,
    isGenerating: bool,
    requestedAt: nat,
    generationTime: Option<nat>,
    isError: bool,
    files: seq<Attachment>,
    isThought: bool,
    usage: Option<Gemini.UsageMetadata>,
    statusMessage: Option<string>)

  /** `Message::user`: a user message that is not generating. */
  function UserMessage(content: string, model: Widgets.GeminiModel, files: seq<Attachment>, now: nat): Message {
    Message(model, content, User, false, now, None, false, files, false, None, None)
  }

  /** `Message::assistant`: an assistant message whose spinner runs. */
  function AssistantMessage(content: string, model: Widgets.GeminiModel, now: nat): Message {
    Message(model, content, Assistant, true, now, None, false, [], false, None, None)
  }

  /** What a completion task sends before its terminal outcome. */
  datatype ChatProgress =
    | PartReceived(part: Gemini.Part)
    | Status(message: string)
    | FileUploading(path: string)
    | FileUploaded(path: string, file: Gemini.RemoteFile)

  /**
   * The terminal outcome a completion task leaves in its channel: success
   * with the full text, an error it reported, or an abnormal end of the task.
   */
  datatype Outcome =
    | Success(index: nat, text: string, usage: Option<Gemini.UsageMetadata>)
    | Failure(index: nat, error: string)
    | Panicked(reason: string)

  predicate IsTextPart(p: ChatProgress) {
    p.PartReceived? && p.part.Text?
  }
}
