/**
 * What the composed conversation satisfies: the fold equals the run-based
 * description, and from that follow merging, block counts, content
 * preservation, the dropping of other roles and the placement of the
 * attachment parts.
 */
module ConversationFacts {

  import opened ChatTypes
  import opened Conversation

  // ---------------------------------------------------------------------
  // Small facts about the building blocks
  // ---------------------------------------------------------------------

  lemma AppendNothing(acc: seq<Content>)
    ensures AppendToLast(acc, []) == acc
  {
    if acc != [] {
      var last := acc[|acc| - 1];
      assert last.parts + [] == last.parts;
      assert acc[..|acc| - 1] + [last] == acc;
    }
  }

  lemma AppendTwice(acc: seq<Content>, p: seq<Part>, q: seq<Part>)
    ensures AppendToLast(AppendToLast(acc, p), q) == AppendToLast(acc, p + q)
  {
    if acc != [] {
      var last := acc[|acc| - 1];
      var once := AppendToLast(acc, p);
      assert once[..|once| - 1] == acc[..|acc| - 1];
      assert once[|once| - 1].parts + q == last.parts + (p + q);
    }
  }

  lemma AppendAfter(acc: seq<Content>, b: Content, q: seq<Part>)
    ensures AppendToLast(acc + [b], q) == acc + [b.(parts := b.parts + q)]
  {
    assert (acc + [b])[..|acc|] == acc;
  }

  /** Without attachment parts, the callback does not depend on whether the
      message is the last one. */
  lemma StepWithoutParts(acc: seq<Content>, m: Message, isLast: bool)
    ensures Step(acc, m, isLast, []) == Step(acc, m, false, [])
  {
    if IsUser(m) {
      var merged :=
        if EndsWithUser(acc) then AppendToLast(acc, [Text(m.content)])
        else acc + [TextBlock(UserRole, m.content)];
      AppendNothing(merged);
    }
  }

  /** After a user message the accumulator ends with a "user" block. */
  lemma StepUserEndsWithUser(acc: seq<Content>, m: Message, isLast: bool, parts: seq<Part>)
    requires IsUser(m)
    ensures EndsWithUser(Step(acc, m, isLast, parts))
  {
  }

  // ---------------------------------------------------------------------
  // The fold equals the run-based description
  // ---------------------------------------------------------------------

  /** The blocks are the user block of the leading stretch that `UserRun`
      takes, if that stretch holds a user message, followed by the blocks of
      what the stretch leaves. */
  lemma {:induction false} BlocksSkipRun(ms: seq<Message>)
    ensures Blocks(ms) ==
      if UserRun(ms).0 == [] then Blocks(UserRun(ms).1)
      else [Content(UserRole, UserRun(ms).0)] + Blocks(UserRun(ms).1)
    decreases |ms|
  {
    if ms != [] && !IsUser(ms[0]) && !IsAssistant(ms[0]) {
      BlocksSkipRun(ms[1..]);
    }
  }

  /** The blocks of a list that is empty or starts with an assistant
      message are empty or start with a "model" block. */
  lemma BlocksStartWithModel(ms: seq<Message>)
    requires ms == [] || IsAssistant(ms[0])
    ensures Blocks(ms) == [] || Blocks(ms)[0].role == ModelRole
  {
  }

  /** Joining a user message and the user blocks after it to an accumulator. */
  lemma MergeUserMessage(acc: seq<Content>, c: string, t: seq<Part>, rest: seq<Content>)
    requires rest == [] || rest[0].role != UserRole
    ensures Merge(Step(acc, Message(UserRole, c), false, []),
                  if t == [] then rest else [Content(UserRole, t)] + rest)
         == Merge(acc, [Content(UserRole, [Text(c)] + t)] + rest)
  {
    var run := [Content(UserRole, [Text(c)] + t)] + rest;
    assert run[1..] == rest;
    if EndsWithUser(acc) {
      var acc' := AppendToLast(acc, [Text(c)]);
      assert EndsWithUser(acc');
      if t == [] {
        assert [Text(c)] + t == [Text(c)];
      } else {
        assert ([Content(UserRole, t)] + rest)[1..] == rest;
        AppendTwice(acc, [Text(c)], t);
      }
    } else {
      var b := TextBlock(UserRole, c);
      if t == [] {
        assert [Text(c)] + t == [Text(c)];
        assert (acc + [b]) + rest == acc + ([b] + rest);
      } else {
        assert ([Content(UserRole, t)] + rest)[1..] == rest;
        AppendAfter(acc, b, t);
        assert (acc + [Content(UserRole, [Text(c)] + t)]) + rest == acc + run;
      }
    }
  }

  /** One callback step followed by the blocks of the remaining messages
      is the blocks of the messages including that one. */
  lemma StepThenBlocks(acc: seq<Content>, m: Message, tail: seq<Message>)
    ensures Merge(Step(acc, m, false, []), Blocks(tail)) == Merge(acc, Blocks([m] + tail))
  {
    var ms := [m] + tail;
    assert ms[0] == m && ms[1..] == tail;
    if IsUser(m) {
      var run := UserRun(tail);
      assert UserRun(ms) == ([Text(m.content)] + run.0, run.1);
      assert Blocks(ms) == [Content(UserRole, [Text(m.content)] + run.0)] + Blocks(run.1);
      BlocksSkipRun(tail);
      BlocksStartWithModel(run.1);
      MergeUserMessage(acc, m.content, run.0, Blocks(run.1));
    } else if IsAssistant(m) {
      var b := TextBlock(ModelRole, m.content);
      assert Blocks(ms) == [b] + Blocks(tail);
      assert (acc + [b]) + Blocks(tail) == acc + ([b] + Blocks(tail));
    } else {
      assert Blocks(ms) == Blocks(tail);
    }
  }

  /** The fold from any accumulator appends the run-based blocks to it. */
  lemma {:induction false} FoldIsMerge(acc: seq<Content>, ms: seq<Message>)
    ensures Fold(acc, ms, []) == Merge(acc, Blocks(ms))
    decreases |ms|
  {
    if ms == [] {
      assert acc + [] == acc;
    } else {
      var m, tail := ms[0], ms[1..];
      var acc' := Step(acc, m, false, []);
      StepWithoutParts(acc, m, |ms| == 1);
      assert Fold(acc, ms, []) == Fold(acc', tail, []);
      FoldIsMerge(acc', tail);
      StepThenBlocks(acc, m, tail);
      assert [m] + tail == ms;
    }
  }

  /** The fold over the messages is the run-based description. */
  lemma GroupedIsBlocks(ms: seq<Message>)
    ensures Grouped(ms) == Blocks(ms)
  {
    FoldIsMerge([], ms);
    assert [] + Blocks(ms) == Blocks(ms);
  }

  // ---------------------------------------------------------------------
  // Attachments
  // ---------------------------------------------------------------------

  /** The attachment parts only ever land at the end of the last block, and
      only when the last message is a user message. */
  lemma {:induction false} FoldWithParts(acc: seq<Content>, ms: seq<Message>, parts: seq<Part>)
    ensures Fold(acc, ms, parts) ==
      if EndsWithUserMessage(ms) then AppendToLast(Fold(acc, ms, []), parts)
      else Fold(acc, ms, [])
    decreases |ms|
  {
    if ms != [] {
      var m := ms[0];
      if |ms| == 1 {
        StepWithoutParts(acc, m, true);
        if IsUser(m) {
          var merged :=
            if EndsWithUser(acc) then AppendToLast(acc, [Text(m.content)])
            else acc + [TextBlock(UserRole, m.content)];
          AppendNothing(merged);
        }
      } else {
        assert Step(acc, m, false, parts) == Step(acc, m, false, []);
        FoldWithParts(Step(acc, m, false, []), ms[1..], parts);
        assert ms[1..][|ms| - 2] == ms[|ms| - 1];
      }
    }
  }

  /** When the last message is a user message, the fold ends with a "user" block. */
  lemma {:induction false} FoldEndsWithUser(acc: seq<Content>, ms: seq<Message>)
    requires EndsWithUserMessage(ms)
    ensures EndsWithUser(Fold(acc, ms, []))
    decreases |ms|
  {
    if |ms| == 1 {
      StepUserEndsWithUser(acc, ms[0], true, []);
    } else {
      assert ms[1..][|ms| - 2] == ms[|ms| - 1];
      FoldEndsWithUser(Step(acc, ms[0], false, []), ms[1..]);
    }
  }

  // ---------------------------------------------------------------------
  // Properties of the run-based description
  // ---------------------------------------------------------------------

  lemma {:induction false} TextsConcat(xs: seq<Message>, ys: seq<Message>)
    ensures Texts(xs + ys) == Texts(xs) + Texts(ys)
    decreases |xs|
  {
    if xs == [] {
      assert xs + ys == ys;
    } else {
      assert (xs + ys)[0] == xs[0];
      assert (xs + ys)[1..] == xs[1..] + ys;
      TextsConcat(xs[1..], ys);
    }
  }

  /** A run takes the texts of the user messages it skips over. */
  lemma UserRunTexts(ms: seq<Message>)
    ensures Texts(ms) == UserRun(ms).0 + Texts(UserRun(ms).1)
  {
    var run := UserRun(ms);
    var n := |ms| - |run.1|;
    assert ms == ms[..n] + run.1;
    TextsConcat(ms[..n], run.1);
  }

  /** A run skips over no assistant message. */
  lemma {:induction false} UserRunAssistants(ms: seq<Message>)
    ensures AssistantCount(ms) == AssistantCount(UserRun(ms).1)
    ensures AssistantBlocks(ms) == AssistantBlocks(UserRun(ms).1)
    decreases |ms|
  {
    if ms != [] && !IsAssistant(ms[0]) {
      UserRunAssistants(ms[1..]);
      assert AssistantBlocks(ms) == [] + AssistantBlocks(ms[1..]);
      assert UserRun(ms).1 == UserRun(ms[1..]).1;
    }
  }

  lemma RunEndsCons(m: Message, k: seq<Message>)
    ensures RunEnds([m] + k) == (if IsUser(m) && (k == [] || !IsUser(k[0])) then 1 else 0) + RunEnds(k)
  {
    assert ([m] + k)[1..] == k;
  }

  /** A run is non-empty exactly when the first kept message is a user
      message. */
  lemma {:induction false} UserRunNonEmpty(ms: seq<Message>)
    ensures (UserRun(ms).0 != []) == (Kept(ms) != [] && IsUser(Kept(ms)[0]))
    decreases |ms|
  {
    if ms != [] && !IsAssistant(ms[0]) {
      UserRunNonEmpty(ms[1..]);
      if IsUser(ms[0]) {
        assert Kept(ms) == [ms[0]] + Kept(ms[1..]);
      } else {
        assert Kept(ms) == [] + Kept(ms[1..]);
        assert UserRun(ms) == UserRun(ms[1..]);
      }
    } else if ms != [] {
      assert Kept(ms) == [ms[0]] + Kept(ms[1..]);
    }
  }

  /** A non-empty run accounts for exactly one run end. */
  lemma {:induction false} UserRunEnds(ms: seq<Message>)
    ensures RunEnds(Kept(ms)) == (if UserRun(ms).0 == [] then 0 else 1) + RunEnds(Kept(UserRun(ms).1))
    decreases |ms|
  {
    if ms != [] && !IsAssistant(ms[0]) {
      var m, tail := ms[0], ms[1..];
      var run' := UserRun(tail);
      UserRunEnds(tail);
      UserRunNonEmpty(tail);
      var k := Kept(tail);
      if IsUser(m) {
        assert UserRun(ms) == ([Text(m.content)] + run'.0, run'.1);
        assert Kept(ms) == [m] + k;
        RunEndsCons(m, k);
      } else {
        assert UserRun(ms) == run';
        assert Kept(ms) == [] + k == k;
      }
    }
  }

  /** One block per maximal user run and one per assistant message. */
  lemma {:induction false} BlocksCount(ms: seq<Message>)
    ensures |Blocks(ms)| == UserRuns(ms) + AssistantCount(ms)
    decreases |ms|
  {
    if ms != [] {
      var m, tail := ms[0], ms[1..];
      if IsUser(m) {
        UserRunEnds(ms);
        UserRunAssistants(ms);
        BlocksCount(UserRun(ms).1);
        assert Blocks(ms) == [Content(UserRole, UserRun(ms).0)] + Blocks(UserRun(ms).1);
      } else {
        BlocksCount(tail);
        if IsAssistant(m) {
          assert Kept(ms) == [m] + Kept(tail);
          assert ([m] + Kept(tail))[1..] == Kept(tail);
        } else {
          assert Kept(ms) == Kept(tail);
        }
      }
    }
  }

  lemma {:induction false} AllPartsConcat(xs: seq<Content>, ys: seq<Content>)
    ensures AllParts(xs + ys) == AllParts(xs) + AllParts(ys)
    decreases |xs|
  {
    if xs == [] {
      assert xs + ys == ys;
    } else {
      assert (xs + ys)[0] == xs[0];
      assert (xs + ys)[1..] == xs[1..] + ys;
      AllPartsConcat(xs[1..], ys);
      assert AllParts(xs + ys) == xs[0].parts + AllParts(xs[1..] + ys);
    }
  }

  /** Every kept message contributes exactly its own text, in order, and
      nothing else appears. */
  lemma {:induction false} BlocksParts(ms: seq<Message>)
    ensures AllParts(Blocks(ms)) == Texts(ms)
    decreases |ms|
  {
    if ms != [] {
      var m, tail := ms[0], ms[1..];
      if IsUser(m) {
        var run := UserRun(ms);
        assert Blocks(ms) == [Content(UserRole, run.0)] + Blocks(run.1);
        UserRunTexts(ms);
        BlocksParts(run.1);
        AllPartsConcat([Content(UserRole, run.0)], Blocks(run.1));
        assert AllParts([Content(UserRole, run.0)]) == run.0 + AllParts([]);
      } else {
        BlocksParts(tail);
        if IsAssistant(m) {
          var b := TextBlock(ModelRole, m.content);
          AllPartsConcat([b], Blocks(tail));
          assert AllParts([b]) == [Text(m.content)] + AllParts([]);
        }
      }
    }
  }

  lemma {:induction false} ModelBlocksConcat(xs: seq<Content>, ys: seq<Content>)
    ensures ModelBlocks(xs + ys) == ModelBlocks(xs) + ModelBlocks(ys)
    decreases |xs|
  {
    if xs == [] {
      assert xs + ys == ys;
    } else {
      assert (xs + ys)[0] == xs[0];
      assert (xs + ys)[1..] == xs[1..] + ys;
      ModelBlocksConcat(xs[1..], ys);
      assert ModelBlocks(xs + ys) == (if xs[0].role == ModelRole then [xs[0]] else []) + ModelBlocks(xs[1..] + ys);
    }
  }

  /** The "model" blocks are exactly one per assistant message, in order. */
  lemma {:induction false} BlocksModel(ms: seq<Message>)
    ensures ModelBlocks(Blocks(ms)) == AssistantBlocks(ms)
    decreases |ms|
  {
    if ms != [] {
      var m, tail := ms[0], ms[1..];
      if IsUser(m) {
        var run := UserRun(ms);
        assert Blocks(ms) == [Content(UserRole, run.0)] + Blocks(run.1);
        UserRunAssistants(ms);
        BlocksModel(run.1);
        ModelBlocksConcat([Content(UserRole, run.0)], Blocks(run.1));
        assert ModelBlocks([Content(UserRole, run.0)]) == [] + ModelBlocks([]);
      } else {
        BlocksModel(tail);
        if IsAssistant(m) {
          var b := TextBlock(ModelRole, m.content);
          ModelBlocksConcat([b], Blocks(tail));
          assert ModelBlocks([b]) == [b] + ModelBlocks([]);
        }
      }
    }
  }

  /** The blocks have the shape the target API expects. */
  lemma {:induction false} BlocksWellFormed(ms: seq<Message>)
    ensures WellFormed(Blocks(ms))
    decreases |ms|
  {
    if ms != [] {
      var m, tail := ms[0], ms[1..];
      if IsUser(m) {
        var run := UserRun(ms);
        BlocksWellFormed(run.1);
        BlocksStartWithModel(run.1);
        PrependWellFormed(Content(UserRole, run.0), Blocks(run.1));
      } else {
        BlocksWellFormed(tail);
        if IsAssistant(m) {
          PrependWellFormed(TextBlock(ModelRole, m.content), Blocks(tail));
        }
      }
    }
  }

  lemma PrependWellFormed(b: Content, bs: seq<Content>)
    requires WellFormed(bs)
    requires b.role == UserRole || b.role == ModelRole
    requires b.parts != [] && (b.role == ModelRole ==> |b.parts| == 1)
    requires b.role == UserRole && bs != [] ==> bs[0].role != UserRole
    ensures WellFormed([b] + bs)
  {
    var r := [b] + bs;
    assert forall i :: 0 < i < |r| ==> r[i] == bs[i - 1];
  }

  // ---------------------------------------------------------------------
  // The handler's promises, stated on Grouped
  // ---------------------------------------------------------------------

  /** A stretch of messages without assistant messages, followed by an
      assistant message or by nothing, gives exactly one "user" block with
      one text part per user message of the stretch, in order (or nothing
      when the stretch holds no user message). */
  lemma UserStretchMerged(us: seq<Message>, rest: seq<Message>)
    requires forall i :: 0 <= i < |us| ==> !IsAssistant(us[i])
    requires rest == [] || IsAssistant(rest[0])
    ensures Grouped(us + rest) ==
      (if Texts(us) == [] then [] else [Content(UserRole, Texts(us))]) + Grouped(rest)
  {
    UserRunOfStretch(us, rest);
    BlocksSkipRun(us + rest);
    GroupedIsBlocks(us + rest);
    GroupedIsBlocks(rest);
    assert [] + Blocks(rest) == Blocks(rest);
  }

  lemma {:induction false} UserRunOfStretch(us: seq<Message>, rest: seq<Message>)
    requires forall i :: 0 <= i < |us| ==> !IsAssistant(us[i])
    requires rest == [] || IsAssistant(rest[0])
    ensures UserRun(us + rest) == (Texts(us), rest)
    decreases |us|
  {
    if us == [] {
      assert [] + rest == rest;
    } else {
      var ms := us + rest;
      assert ms[0] == us[0];
      assert ms[1..] == us[1..] + rest;
      UserRunOfStretch(us[1..], rest);
      var run' := UserRun(ms[1..]);
      assert run' == (Texts(us[1..]), rest);
      if IsUser(us[0]) {
        assert UserRun(ms) == ([Text(us[0].content)] + run'.0, run'.1);
        assert Texts(us) == [Text(us[0].content)] + Texts(us[1..]);
      } else {
        assert UserRun(ms) == run';
        assert Texts(us) == [] + Texts(us[1..]) == Texts(us[1..]);
      }
    }
  }

  /** Every assistant message opens its own "model" block with a single
      text part; it is never merged with what comes before or after. */
  lemma AssistantOwnBlock(a: Message, rest: seq<Message>)
    requires IsAssistant(a)
    ensures Grouped([a] + rest) == [TextBlock(ModelRole, a.content)] + Grouped(rest)
  {
    GroupedIsBlocks([a] + rest);
    GroupedIsBlocks(rest);
    assert ([a] + rest)[1..] == rest;
  }

  lemma {:induction false} FoldConcat(acc: seq<Content>, xs: seq<Message>, ys: seq<Message>)
    ensures Fold(acc, xs + ys, []) == Fold(Fold(acc, xs, []), ys, [])
    decreases |xs|
  {
    if xs == [] {
      assert [] + ys == ys;
    } else {
      StepWithoutParts(acc, xs[0], |xs + ys| == 1);
      StepWithoutParts(acc, xs[0], |xs| == 1);
      assert (xs + ys)[1..] == xs[1..] + ys;
      FoldConcat(Step(acc, xs[0], false, []), xs[1..], ys);
    }
  }

  /** A message whose role is neither "user" nor "assistant" changes no
      block, wherever it stands. */
  lemma OtherRoleDropped(ms: seq<Message>, i: nat, o: Message)
    requires i <= |ms| && !IsKept(o)
    ensures Grouped(ms[..i] + [o] + ms[i..]) == Grouped(ms)
  {
    var pre, post := ms[..i], ms[i..];
    var before := Fold([], pre, []);
    FoldConcat([], pre + [o], post);
    FoldConcat([], pre, [o]);
    assert [o][1..] == [];
    assert Fold(before, [o], []) == before;
    FoldConcat([], pre, post);
    assert pre + post == ms;
  }

  // ---------------------------------------------------------------------
  // The handler's promises, stated on the composed request
  // ---------------------------------------------------------------------

  lemma AllPartsAppendToLast(g: seq<Content>, parts: seq<Part>)
    requires g != []
    ensures AllParts(AppendToLast(g, parts)) == AllParts(g) + parts
  {
    var n := |g| - 1;
    var last := g[n];
    assert g == g[..n] + [last];
    AllPartsConcat(g[..n], [last]);
    AllPartsConcat(g[..n], [last.(parts := last.parts + parts)]);
    assert AllParts([last]) == last.parts + AllParts([]);
    assert AllParts([last.(parts := last.parts + parts)]) == (last.parts + parts) + AllParts([]);
  }

  lemma {:induction false} TextsAreText(ms: seq<Message>)
    ensures forall p :: p in Texts(ms) ==> p.Text?
    decreases |ms|
  {
    if ms != [] {
      TextsAreText(ms[1..]);
    }
  }

  /** The attachment parts are pushed onto the last block exactly when the
      final message is a user message; otherwise the request is the
      instruction block followed by the message blocks alone. */
  lemma AttachmentPlacement(ms: seq<Message>, parts: seq<Part>)
    ensures
      var c, g := Compose(ms, parts), Grouped(ms);
      if EndsWithUserMessage(ms) then
        && g != [] && g[|g| - 1].role == UserRole
        && c == [InstructionBlock] + g[..|g| - 1] + [Content(UserRole, g[|g| - 1].parts + parts)]
      else
        c == [InstructionBlock] + g
  {
    FoldWithParts([], ms, parts);
    if EndsWithUserMessage(ms) {
      FoldEndsWithUser([], ms);
    }
  }

  /** The request carries the instruction text, then the content of every
      user and assistant message in order, then the attachment parts when
      the final message is a user message, and nothing else. */
  lemma ComposeParts(ms: seq<Message>, parts: seq<Part>)
    ensures AllParts(Compose(ms, parts)) ==
      [Text(SystemInstruction)] + (Texts(ms)
      + (if EndsWithUserMessage(ms) then parts else []))
  {
    var tail := Fold([], ms, parts);
    FoldParts(ms, parts);
    AllPartsCons(InstructionBlock, tail);
  }

  lemma AllPartsCons(b: Content, bs: seq<Content>)
    ensures AllParts([b] + bs) == b.parts + AllParts(bs)
  {
    assert ([b] + bs)[1..] == bs;
  }

  lemma FoldParts(ms: seq<Message>, parts: seq<Part>)
    ensures AllParts(Fold([], ms, parts)) ==
      Texts(ms) + (if EndsWithUserMessage(ms) then parts else [])
  {
    var g := Grouped(ms);
    GroupedIsBlocks(ms);
    BlocksParts(ms);
    FoldWithParts([], ms, parts);
    if EndsWithUserMessage(ms) {
      FoldEndsWithUser([], ms);
      AllPartsAppendToLast(g, parts);
    } else {
      assert Texts(ms) + [] == Texts(ms);
    }
  }

  /** Without a final user message no inline data reaches the model. */
  lemma NoInlineDataWithoutFinalUser(ms: seq<Message>, parts: seq<Part>)
    requires !EndsWithUserMessage(ms)
    ensures forall p :: p in AllParts(Compose(ms, parts)) ==> p.Text?
  {
    ComposeParts(ms, parts);
    TextsAreText(ms);
  }

  /** The first block is always the instruction block, and it is never
      merged with a leading user message, which opens a "user" block of its
      own right after it. */
  lemma InstructionNotMerged(ms: seq<Message>, parts: seq<Part>)
    requires ms != [] && IsUser(ms[0])
    ensures
      var c := Compose(ms, parts);
      && |c| >= 2 && c[0] == InstructionBlock
      && c[1].role == UserRole && c[1].parts != [] && c[1].parts[0] == Text(ms[0].content)
  {
    var g := Grouped(ms);
    GroupedIsBlocks(ms);
    var run := UserRun(ms);
    assert run.0 == [Text(ms[0].content)] + UserRun(ms[1..]).0;
    assert g[0] == Content(UserRole, run.0);
    AttachmentPlacement(ms, parts);
  }

  /** One block for the instruction, one per maximal user run and one per
      assistant message; the attachments add no block. */
  lemma ComposeCount(ms: seq<Message>, parts: seq<Part>)
    ensures |Compose(ms, parts)| == 1 + UserRuns(ms) + AssistantCount(ms)
  {
    GroupedIsBlocks(ms);
    BlocksCount(ms);
    AttachmentPlacement(ms, parts);
  }

  /** The message blocks of the request keep the shape the target API
      expects, attachments included. */
  lemma ComposeWellFormed(ms: seq<Message>, parts: seq<Part>)
    ensures WellFormed(Compose(ms, parts)[1..])
  {
    var g := Grouped(ms);
    GroupedIsBlocks(ms);
    BlocksWellFormed(ms);
    AttachmentPlacement(ms, parts);
    var c := Compose(ms, parts);
    if EndsWithUserMessage(ms) {
      var r := c[1..];
      assert r == g[..|g| - 1] + [Content(UserRole, g[|g| - 1].parts + parts)];
      assert forall i :: 0 <= i < |g| - 1 ==> r[i] == g[i];
    } else {
      assert c[1..] == g;
    }
  }

  lemma ModelBlocksAppendToLast(g: seq<Content>, parts: seq<Part>)
    requires EndsWithUser(g)
    ensures ModelBlocks(AppendToLast(g, parts)) == ModelBlocks(g)
  {
    var n := |g| - 1;
    var last := g[n].(parts := g[n].parts + parts);
    assert g == g[..n] + [g[n]];
    ModelBlocksConcat(g[..n], [g[n]]);
    ModelBlocksConcat(g[..n], [last]);
    assert ModelBlocks([g[n]]) == [] + ModelBlocks([]) == [];
    assert ModelBlocks([last]) == [] + ModelBlocks([]) == [];
  }

  /** The "model" blocks of the request are one per assistant message, in
      order, each holding that message's content as its single text part. */
  lemma ComposeModelBlocks(ms: seq<Message>, parts: seq<Part>)
    ensures ModelBlocks(Compose(ms, parts)) == AssistantBlocks(ms)
  {
    var g, tail := Grouped(ms), Fold([], ms, parts);
    GroupedIsBlocks(ms);
    BlocksModel(ms);
    FoldWithParts([], ms, parts);
    if EndsWithUserMessage(ms) {
      FoldEndsWithUser([], ms);
      ModelBlocksAppendToLast(g, parts);
    }
    assert ModelBlocks(tail) == AssistantBlocks(ms);
    ModelBlocksConcat([InstructionBlock], tail);
    assert ModelBlocks([InstructionBlock]) == [] + ModelBlocks([]) == [];
  }

  /** The request depends on the messages only through their blocks and
      whether the final message is a user message. */
  lemma SameBlocksSameFold(xs: seq<Message>, ys: seq<Message>, parts: seq<Part>)
    requires Grouped(xs) == Grouped(ys)
    requires EndsWithUserMessage(xs) == EndsWithUserMessage(ys)
    ensures Fold([], xs, parts) == Fold([], ys, parts)
  {
    FoldWithParts([], xs, parts);
    FoldWithParts([], ys, parts);
  }

  /** A message of another role is dropped wherever it stands; standing last,
      it also keeps the attachments out of the request, since they are
      pushed only while handling a final user message. */
  lemma OtherRoleDroppedFromRequest(ms: seq<Message>, i: nat, o: Message, parts: seq<Part>)
    requires i <= |ms| && !IsKept(o)
    ensures Compose(ms[..i] + [o] + ms[i..], parts) ==
      if i < |ms| then Compose(ms, parts) else Compose(ms, [])
  {
    var ms' := ms[..i] + [o] + ms[i..];
    OtherRoleDropped(ms, i, o);
    if i < |ms| {
      assert ms'[|ms'| - 1] == ms[|ms| - 1];
      SameBlocksSameFold(ms', ms, parts);
    } else {
      assert ms'[|ms'| - 1] == o;
      FoldWithParts([], ms', parts);
    }
  }
}
