/**
 * The wire types of the Gemini client crate that the completion pipeline
 * builds and consumes. Only the fields the client reads or writes are kept.
 */
module Gemini {
  import opened Base

  newtype u32 = x: int | 0 <= x < 0x1_0000_0000
  newtype i32 = x: int | -0x8000_0000 <= x < 0x8000_0000

  /** An `f32` is copied through unchanged; only its bit pattern is kept. */
  datatype F32 = F32(bits: bv32)

  datatype Role = User | Model

  /** A content part. `ToolCall` stands for the non-text, non-file parts (function calls and responses). */
  datatype Part =
    | Text(text: string, thought: Option<bool>)
    | InlineData(mimeType: string, data: string)
    | FileData(fileUri: string, mimeType: string)
    | ToolCall(name: string)

  /** One role-tagged block of the request history. */
  datatype Content = Content(parts: seq<Part>, role: Role)

  /** Metadata of a file stored by the service (`gemini_rust::File`). */
  datatype RemoteFile = RemoteFile(uri: Option<string>, mimeType: Option<string>, expirationTime: Option<int>)

  datatype UsageMetadata = UsageMetadata(promptTokenCount: Option<u32>, candidatesTokenCount: Option<u32>, totalTokenCount: Option<u32>)

  datatype ThinkingConfig = ThinkingConfig(includeThoughts: Option<bool>, thinkingBudget: Option<i32>)

  const DefaultThinkingConfig := ThinkingConfig(None, None)

  datatype GenerationConfig = GenerationConfig(
    temperature: Option<F32>,
    topP: Option<F32>,
    topK: Option<i32>,
    maxOutputTokens: Option<i32>,
    stopSequences: Option<seq<string>>,
    thinkingConfig: Option<ThinkingConfig>)

  const DefaultGenerationConfig := GenerationConfig(None, None, None, None, None, None)

  /** `Model::Custom`, the model name the request is addressed to. */
  datatype Model = Custom(name: string)
}
