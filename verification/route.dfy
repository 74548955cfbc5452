/**
 * The POST handler of the chat endpoint: reject a body the request schema
 * refuses, otherwise compose the request for the generative model.
 */
module ChatRoute {

  import opened Wrappers
  import opened ChatTypes
  import opened Attachments
  import opened Conversation

  /** The outcome of parsing the JSON body with the request schema. */
  datatype ParseOutcome = Parsed(request: VisionRequest) | ParseFailed

  /** What the handler produces: an error response, or the request it hands
      to the generative model (whose streamed reply is relayed unchanged). */
  datatype Response =
    | ErrorResponse(status: int, contentType: string, body: string)
    | Generate(model: string, contents: seq<Content>)

  const BadRequest := 400
  const JsonContentType := "application/json"
  const InvalidRequestBody := "{\"error\":\"Invalid request data\"}"

  /** The reduce of the handler: a left fold that pushes new blocks onto an
      accumulator and pushes text, and finally the attachment parts, onto
      its last block, preceded by the instruction block. */
  method BuildContents(messages: seq<Message>, parts: seq<Part>) returns (contents: seq<Content>)
    ensures contents == Compose(messages, parts)
  {
    var acc: seq<Content> := [];
    var i := 0;
    while i < |messages|
      invariant 0 <= i <= |messages|
      invariant Fold(acc, messages[i..], parts) == Fold([], messages, parts)
    {
      var m := messages[i];
      assert messages[i..][1..] == messages[i + 1..];
      if m.role == UserRole {
        if acc != [] && acc[|acc| - 1].role == UserRole {
          var last := acc[|acc| - 1];
          acc := acc[..|acc| - 1] + [last.(parts := last.parts + [Text(m.content)])];
        } else {
          acc := acc + [Content(UserRole, [Text(m.content)])];
        }
        if i == |messages| - 1 {
          var last := acc[|acc| - 1];
          acc := acc[..|acc| - 1] + [last.(parts := last.parts + parts)];
        }
      } else if m.role == AssistantRole {
        acc := acc + [Content(ModelRole, [Text(m.content)])];
      }
      i := i + 1;
    }
    contents := [InstructionBlock] + acc;
  }

  /** Handles one request: a refused body gets status 400 and never reaches
      the model; an accepted one becomes the composed model request. */
  method Post(parsed: ParseOutcome) returns (response: Response)
    ensures parsed.ParseFailed? ==>
      response == ErrorResponse(BadRequest, JsonContentType, InvalidRequestBody)
    ensures parsed.Parsed? ==>
      response == Generate(ModelName,
                           Compose(parsed.request.messages, AttachmentParts(parsed.request.data)))
  {
    if parsed.ParseFailed? {
      return ErrorResponse(BadRequest, JsonContentType, InvalidRequestBody);
    }
    var parts := CollectAttachmentParts(parsed.request.data);
    var contents := BuildContents(parsed.request.messages, parts);
    response := Generate(ModelName, contents);
  }
}
