/**
 * The conversation the chat handler sends to the model: a fixed instruction
 * block followed by a left fold over the request's messages.
 *
 * `Fold` is the fold exactly as the handler's reduce callback performs it.
 * `Blocks` is an independent, run-based description of the same result:
 * a maximal run of user messages becomes one "user" block, every assistant
 * message one "model" block, every other role nothing.  The lemmas connect
 * the two and derive what the handler promises about ordering, merging,
 * block counts and where the attachments end up.
 */
module Conversation {

  import opened ChatTypes

  predicate IsUser(m: Message)
  {
    m.role == UserRole
  }

  predicate IsAssistant(m: Message)
  {
    m.role == AssistantRole
  }

  /** Whether the request's final message is a user message: the only case
      in which the attachment parts are pushed. */
  predicate EndsWithUserMessage(ms: seq<Message>)
  {
    ms != [] && IsUser(ms[|ms| - 1])
  }

  /** A message the fold acts upon; every other role is dropped. */
  predicate IsKept(m: Message)
  {
    IsUser(m) || IsAssistant(m)
  }

  // ---------------------------------------------------------------------
  // The fold as the handler performs it
  // ---------------------------------------------------------------------

  /** Pushes `parts` onto the parts of the last block; on an empty list
      nothing happens (the optional chaining of the handler). */
  function AppendToLast(acc: seq<Content>, parts: seq<Part>): seq<Content>
  {
    if acc == [] then acc
    else acc[..|acc| - 1] + [acc[|acc| - 1].(parts := acc[|acc| - 1].parts + parts)]
  }

  /** Whether the last block of the accumulator has role "user". */
  predicate EndsWithUser(acc: seq<Content>)
  {
    acc != [] && acc[|acc| - 1].role == UserRole
  }

  /** One call of the reduce callback: `isLast` says the message is the
      last one of the request, `parts` are the attachment parts. */
  function Step(acc: seq<Content>, m: Message, isLast: bool, parts: seq<Part>): seq<Content>
  {
    if IsUser(m) then
      var merged :=
        if EndsWithUser(acc) then AppendToLast(acc, [Text(m.content)])
        else acc + [TextBlock(UserRole, m.content)];
      if isLast then AppendToLast(merged, parts) else merged
    else if IsAssistant(m) then
      acc + [TextBlock(ModelRole, m.content)]
    else
      acc
  }

  /** The reduce from accumulator `acc` over the remaining messages `ms`. */
  function Fold(acc: seq<Content>, ms: seq<Message>, parts: seq<Part>): seq<Content>
    decreases |ms|
  {
    if ms == [] then acc
    else Fold(Step(acc, ms[0], |ms| == 1, parts), ms[1..], parts)
  }

  /** The blocks built from the messages alone, without attachments. */
  function Grouped(ms: seq<Message>): seq<Content>
  {
    Fold([], ms, [])
  }

  /** The `contents` of the request handed to the model. */
  function Compose(ms: seq<Message>, parts: seq<Part>): seq<Content>
  {
    [InstructionBlock] + Fold([], ms, parts)
  }

  // ---------------------------------------------------------------------
  // The run-based reference description
  // ---------------------------------------------------------------------

  /** The text parts of the user messages that come before the first
      assistant message, and the messages from that assistant message on. */
  function UserRun(ms: seq<Message>): (run: (seq<Part>, seq<Message>))
    ensures |run.1| <= |ms|
    ensures run.1 == ms[|ms| - |run.1|..]
    ensures run.1 == [] || IsAssistant(run.1[0])
    ensures forall i :: 0 <= i < |ms| - |run.1| ==> !IsAssistant(ms[i])
    ensures run.0 == Texts(ms[..|ms| - |run.1|])
    ensures ms != [] && !IsAssistant(ms[0]) ==> |run.1| < |ms|
    decreases |ms|
  {
    if ms == [] then ([], [])
    else if IsAssistant(ms[0]) then
      assert ms[..0] == [];
      ([], ms)
    else
      var rest := UserRun(ms[1..]);
      var n := |ms| - |rest.1|;
      assert ms[n..] == ms[1..][n - 1..];
      var prefix := ms[..n];
      assert prefix[0] == ms[0] && prefix[1..] == ms[1..][..n - 1];
      assert Texts(prefix) == (if IsKept(ms[0]) then [Text(ms[0].content)] else []) + rest.0;
      if IsUser(ms[0]) then ([Text(ms[0].content)] + rest.0, rest.1) else rest
  }

  /** The blocks of a message list, described run by run. */
  function Blocks(ms: seq<Message>): seq<Content>
    decreases |ms|
  {
    if ms == [] then []
    else if IsUser(ms[0]) then
      var run := UserRun(ms);
      [Content(UserRole, run.0)] + Blocks(run.1)
    else if IsAssistant(ms[0]) then
      [TextBlock(ModelRole, ms[0].content)] + Blocks(ms[1..])
    else
      Blocks(ms[1..])
  }

  /** Appends `bs` to `acc`, joining a leading user block of `bs` to a
      trailing user block of `acc`. */
  function Merge(acc: seq<Content>, bs: seq<Content>): seq<Content>
  {
    if EndsWithUser(acc) && bs != [] && bs[0].role == UserRole
    then AppendToLast(acc, bs[0].parts) + bs[1..]
    else acc + bs
  }

  // ---------------------------------------------------------------------
  // Observations over messages and blocks
  // ---------------------------------------------------------------------

  /** The messages the fold acts upon, in order. */
  function Kept(ms: seq<Message>): (ks: seq<Message>)
    ensures forall m :: m in ks ==> IsKept(m)
    decreases |ms|
  {
    if ms == [] then []
    else (if IsKept(ms[0]) then [ms[0]] else []) + Kept(ms[1..])
  }

  /** The number of user messages that end a maximal run of user messages
      in a list of kept messages. */
  function RunEnds(ks: seq<Message>): nat
    decreases |ks|
  {
    if ks == [] then 0
    else (if IsUser(ks[0]) && (|ks| == 1 || !IsUser(ks[1])) then 1 else 0) + RunEnds(ks[1..])
  }

  /** The number of maximal runs of user messages; dropped roles do not
      interrupt a run. */
  function UserRuns(ms: seq<Message>): nat
  {
    RunEnds(Kept(ms))
  }

  function AssistantCount(ms: seq<Message>): nat
    decreases |ms|
  {
    if ms == [] then 0
    else (if IsAssistant(ms[0]) then 1 else 0) + AssistantCount(ms[1..])
  }

  /** One text part per kept message, carrying its content. */
  function Texts(ms: seq<Message>): seq<Part>
    decreases |ms|
  {
    if ms == [] then []
    else (if IsKept(ms[0]) then [Text(ms[0].content)] else []) + Texts(ms[1..])
  }

  /** One "model" block per assistant message, carrying its content. */
  function AssistantBlocks(ms: seq<Message>): seq<Content>
    decreases |ms|
  {
    if ms == [] then []
    else (if IsAssistant(ms[0]) then [TextBlock(ModelRole, ms[0].content)] else []) + AssistantBlocks(ms[1..])
  }

  /** The "model" blocks of a block list, in order. */
  function ModelBlocks(bs: seq<Content>): seq<Content>
    decreases |bs|
  {
    if bs == [] then []
    else (if bs[0].role == ModelRole then [bs[0]] else []) + ModelBlocks(bs[1..])
  }

  /** All parts of all blocks, in order. */
  function AllParts(bs: seq<Content>): seq<Part>
    decreases |bs|
  {
    if bs == [] then [] else bs[0].parts + AllParts(bs[1..])
  }

  /** The shape the target API expects of the message blocks: roles "user"
      or "model", no empty block, a single part per "model" block, and never
      two "user" blocks side by side. */
  predicate WellFormed(bs: seq<Content>)
  {
    && (forall i :: 0 <= i < |bs| ==> bs[i].role == UserRole || bs[i].role == ModelRole)
    && (forall i :: 0 <= i < |bs| ==> bs[i].parts != [])
    && (forall i :: 0 <= i < |bs| && bs[i].role == ModelRole ==> |bs[i].parts| == 1)
    && (forall i :: 0 < i < |bs| && bs[i].role == UserRole ==> bs[i - 1].role != UserRole)
  }
}
