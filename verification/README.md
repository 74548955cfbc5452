# Chat request composer

A Dafny model of the request composer behind `POST /api/chat` of a food-allergy chat
app. The handler gets a parsed JSON body. It has a flat list of messages
(`role`, `content`) and an optional `data` record (`media`, `media_types`,
`audio`, all base64 or media-type text). The handler then does three things:

1. It rejects a body that the request schema refuses with status 400 and the
   JSON body `{"error":"Invalid request data"}`. The model is never called.
2. It builds the attachment parts: an inline-data part for the media
   (media type `media_types`, or `""`), then an inline-data part for the audio
   (media type always `audio/mp3`). Each part is built only when its payload is a
   non-empty string.
3. It builds the model-native `contents`:
   - a fixed instruction block (role `"user"`, one text part) comes first;
   - then a left fold over the messages follows;
   - a user message joins the preceding block when that block has role `"user"`;
     otherwise it opens a new `"user"` block;
   - every assistant message opens its own `"model"` block;
   - messages with any other role are dropped;
   - the attachment parts are pushed onto the last block while the final message
     is handled, and only when that message is a user message.

Files:

- `wrappers.dfy`: `Option`.
- `chat_types.dfy`: messages, parts, content blocks, the request body and
  the constants (roles, `audio/mp3`, the model name, the instruction block).
- `attachments.dfy`: JavaScript truthiness of optional strings, the
  attachment parts as a function, and the method that pushes them.
- `conversation.dfy`:
  - `Step`/`Fold` are the reduce callback and the reduce exactly as the handler
    runs them;
  - `Compose` is the whole `contents`;
  - `Blocks` is an independent run-based description: a maximal run of user
    messages gives one `"user"` block, and each assistant message gives one
    `"model"` block;
  - it also defines the counting and flattening functions that the properties
    use.
- `conversation_facts.dfy`:
  - the fold equals the run-based description;
  - from that follow the block count, content preservation, block shape, merging,
    dropping of other roles and attachment placement.
- `route.dfy`:
  - the reduce as a loop over the messages that updates a sequence of blocks,
    proved equal to `Compose`;
  - the handler, which takes the outcome of the schema parse as input.

Consequences of the code as written, which the model keeps:

- The instruction block is never merged with a leading user message. The fold
  starts from an empty accumulator, so a first message from the user opens a
  second `"user"` block right after the instruction block.
- Assistant messages are never merged, so `"model"` blocks can follow one
  another. `WellFormed` therefore forbids only adjacent `"user"` blocks, and
  only among the message blocks (everything after the instruction block).
- The attachment parts are pushed only when the final message overall is a user
  message. A trailing message of another role (for example `system`) therefore
  drops the attachments (`OtherRoleDroppedFromRequest`).
- Any message list and any role string is accepted, because the request schema
  is not part of this model.

## Model

| member | source | states |
|---|---|---|
| Attachments.AttachmentParts | src/app/api/chat/route.ts:27-45 | one part per non-empty payload, all inline data; the media part comes first and carries `media_types` or `""`; the audio part comes last and always carries `audio/mp3` |
| Attachments.CollectAttachmentParts | src/app/api/chat/route.ts:27-45 | the conditional pushes build exactly the attachment parts above |
| Conversation.UserRun | src/app/api/chat/route.ts:87-96 | a run consumes every message before the first assistant message: what remains is the suffix of the list that is empty or starts with an assistant message, no consumed message is an assistant message, and the run's parts are the texts of the consumed user messages in order; a run that starts with a non-assistant message consumes at least one message |
| ConversationFacts.StepWithoutParts | src/app/api/chat/route.ts:98-100 | without attachment parts, the callback does not depend on whether the message is the last one |
| ConversationFacts.FoldIsMerge | src/app/api/chat/route.ts:86-109 | the reduce from any accumulator equals appending the run-based blocks, where a leading user run joins a trailing user block |
| ConversationFacts.GroupedIsBlocks | src/app/api/chat/route.ts:86-109 | the reduce over the messages (without attachments) equals the run-based description |
| ConversationFacts.FoldWithParts | src/app/api/chat/route.ts:98-100 | the attachment parts change the fold only by being appended to its last block, and only when the final message is a user message |
| ConversationFacts.FoldEndsWithUser | src/app/api/chat/route.ts:87-96 | when the final message is a user message, the fold ends with a `"user"` block |
| ConversationFacts.BlocksCount | src/app/api/chat/route.ts:86-109 | one block per maximal user run and one per assistant message |
| ConversationFacts.BlocksParts | src/app/api/chat/route.ts:86-109 | the blocks hold one text part per user or assistant message, with its content verbatim, in message order, and nothing else |
| ConversationFacts.BlocksModel | src/app/api/chat/route.ts:101-106 | the `"model"` blocks are exactly one single-text block per assistant message, in order |
| ConversationFacts.BlocksWellFormed | src/app/api/chat/route.ts:86-109 | roles are only `"user"`/`"model"`, no block is empty, `"model"` blocks have one part, and no two `"user"` blocks are adjacent |
| ConversationFacts.UserStretchMerged | src/app/api/chat/route.ts:87-96 | a stretch without assistant messages, followed by an assistant message or nothing, yields one `"user"` block with one text part per user message of the stretch in order, or nothing if it has no user message |
| ConversationFacts.AssistantOwnBlock | src/app/api/chat/route.ts:101-106 | an assistant message opens its own `"model"` block with a single text part and is merged with nothing before or after it |
| ConversationFacts.OtherRoleDropped | src/app/api/chat/route.ts:86-108 | inserting a message of any other role anywhere leaves the message blocks unchanged |
| ConversationFacts.AttachmentPlacement | src/app/api/chat/route.ts:98-100 | if the final message is a user message, the last block is a `"user"` block and the attachment parts are appended at its end, with every other block unchanged; otherwise `contents` is the instruction block plus the message blocks |
| ConversationFacts.ComposeParts | src/app/api/chat/route.ts:49-110 | the parts of `contents` are, in order: the instruction text, every user or assistant message's content, and the attachment parts (exactly once, and only when the final message is a user message) |
| ConversationFacts.NoInlineDataWithoutFinalUser | src/app/api/chat/route.ts:98-100 | if the list is empty or its final message is not a user message, no inline-data part appears anywhere |
| ConversationFacts.InstructionNotMerged | src/app/api/chat/route.ts:50-96 | the first block is the instruction block; a leading user message opens a separate `"user"` block right after it, starting with its text |
| ConversationFacts.ComposeCount | src/app/api/chat/route.ts:49-110 | the number of blocks in `contents` is 1 + the number of maximal user runs + the number of assistant messages |
| ConversationFacts.ComposeWellFormed | src/app/api/chat/route.ts:49-110 | the message blocks of `contents` keep the well-formed shape, attachments included |
| ConversationFacts.ComposeModelBlocks | src/app/api/chat/route.ts:101-106 | the `"model"` blocks of `contents` are one per assistant message, in order |
| ConversationFacts.SameBlocksSameFold | src/app/api/chat/route.ts:86-110 | two message lists with the same blocks whose final messages agree on being user messages give the same message blocks for any attachment parts |
| ConversationFacts.OtherRoleDroppedFromRequest | src/app/api/chat/route.ts:86-108 | a message of another role inserted before the final message leaves `contents` unchanged; appended as the final message, it also removes the attachments |
| ChatRoute.BuildContents | src/app/api/chat/route.ts:49-110 | the loop that pushes blocks and parts builds exactly `Compose(messages, parts)` |
| ChatRoute.Post | src/app/api/chat/route.ts:13-47 | a refused body yields status 400 with `application/json` and `{"error":"Invalid request data"}`, and no request is built; an accepted body yields the request to `gemini-1.5-pro-latest` (the model name fixed at `src/app/api/chat/route.ts:117`) whose `contents` is `Compose(messages, AttachmentParts(data))` |

## Left out

- The model call and the streamed reply (`src/app/api/chat/route.ts:113-123`) are left out. They are calls into the generative-AI SDK and network I/O. `Post` stops at the request that it hands to the model; the model name that request carries (`src/app/api/chat/route.ts:117`) is part of it.
- Reading `GOOGLE_API_KEY` from the environment (`src/app/api/chat/route.ts:113`) is left out. It is environment access.
- Reading the request body (`await req.json()`) and the request schema (`visionRequestSchema`) are left out. The schema's file is not part of this model, so `Post` takes the parse outcome (`Parsed(request)` or `ParseFailed`) as input, and no rule of the schema is assumed.
- The cast `messages as Message[]` (`src/app/api/chat/route.ts:47`) has no effect at run time. Message fields other than `role` and `content` play no part in composing the request.
- The wording of the instruction text (`src/app/api/chat/route.ts:55-82`) is an uninterpreted constant. Nothing in the composition depends on it.
- The reduce pushes onto the accumulator array and onto the last block's `parts` array in place. The model reassigns sequence values instead. Every block is freshly created by the reduce and never shared, so no aliasing is lost.
- `src/app/_components/ChatContainer.tsx` (React UI, file encoding, scrolling) and `src/app/layout.tsx` (static layout) are not part of this model.
