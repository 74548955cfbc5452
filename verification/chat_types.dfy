/**
 * The data exchanged by the chat endpoint: the flat message list and the
 * optional attachment record of the request body, and the model-native
 * content blocks built from them.
 */
module ChatTypes {

  import opened Wrappers

  /** A message of the request body. Its role is kept as the string the
      client sent: only "user" and "assistant" are acted upon. */
  datatype Message = Message(role: string, content: string)

  /** The optional `data` record of the request body (all fields base64 or
      media-type text, each of them possibly absent). */
  datatype RequestData = RequestData(media: Option<string>, mediaTypes: Option<string>, audio: Option<string>)

  /** A request body that the schema accepted. */
  datatype VisionRequest = VisionRequest(messages: seq<Message>, data: Option<RequestData>)

  /** One part of a content block: plain text or inline binary data. */
  datatype Part = Text(text: string) | InlineData(mimeType: string, data: string)

  /** A role-tagged block of parts, as the generative-model API takes it. */
  datatype Content = Content(role: string, parts: seq<Part>)

  const UserRole := "user"
  const AssistantRole := "assistant"
  const ModelRole := "model"

  /** The media type every audio attachment is sent with, whatever its source. */
  const AudioMimeType := "audio/mp3"

  /** The model the composed request is addressed to. */
  const ModelName := "gemini-1.5-pro-latest"

  /** The allergen-detection persona and response-format instructions; its
      wording plays no part in how the request is composed, so it is left
      uninterpreted. */
  const SystemInstruction: string

  /** The block every request starts with. */
  const InstructionBlock := Content(UserRole, [Text(SystemInstruction)])

  /** A block holding a single text part. */
  function TextBlock(role: string, text: string): Content
  {
    Content(role, [Text(text)])
  }
}
