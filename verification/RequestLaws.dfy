/**
  What is in a request, in plain terms: the system material, the topic split, how strongly the history is
  compacted, what is chosen of it, the reminder, and what compression may touch.
 */
module RequestLaws {
  import opened Text
  import opened Conversation
  import opened CallGroups
  import opened ContextBuilder
  import opened SentHistory

  // --- The parts of a request ---

  /** A system message with this content stands at position i. */
  predicate HasSystem(request: seq<Message>, i: int, content: string) {
    0 <= i < |request| && request[i].role == System && request[i].content == content
  }

  function One(holds: bool): nat {
    if holds then 1 else 0
  }

  /** System prompt, memory, memory index and notes come first, in this order, each once and as they are. */
  ghost predicate StartsWithMaterial(request: seq<Message>, d: Material, n: nat) {
    var p, m, x := One(d.systemPrompt != ""), One(d.memory != ""), One(d.memoryIndex != "");
    && n == p + m + x + |d.systemNotes|
    && (d.systemPrompt != "" ==> HasSystem(request, 0, d.systemPrompt))
    && (d.memory != "" ==> HasSystem(request, p, d.memory))
    && (d.memoryIndex != "" ==> HasSystem(request, p + m, d.memoryIndex))
    && forall k :: 0 <= k < |d.systemNotes| ==> HasSystem(request, p + m + x + k, d.systemNotes[k])
  }

  /** Then a summary of each block of another topic, in order. */
  ghost predicate GoesOnWithSummaries(request: seq<Message>, n: nat, blocks: seq<TopicBlock>, w: Rewriters) {
    forall k :: 0 <= k < |blocks| ==> HasSystem(request, n + k, w.summarize(blocks[k]))
  }

  lemma ContentsAre(d: Material)
    ensures var contents := SystemContents(d);
            var p, m, x := One(d.systemPrompt != ""), One(d.memory != ""), One(d.memoryIndex != "");
            && |contents| == p + m + x + |d.systemNotes|
            && (d.systemPrompt != "" ==> contents[0] == d.systemPrompt)
            && (d.memory != "" ==> contents[p] == d.memory)
            && (d.memoryIndex != "" ==> contents[p + m] == d.memoryIndex)
            && contents[p + m + x..] == d.systemNotes
  {
  }

  lemma MessageOfContent(contents: seq<string>, rest: seq<Message>, i: nat)
    requires i < |contents|
    ensures HasSystem(SystemMessages(contents) + rest, i, contents[i])
  {
  }

  lemma MaterialIsFirst(d: Material, rest: seq<Message>)
    ensures StartsWithMaterial(SystemMessages(SystemContents(d)) + rest, d, |SystemContents(d)|)
  {
    var contents := SystemContents(d);
    var p, m, x := One(d.systemPrompt != ""), One(d.memory != ""), One(d.memoryIndex != "");
    ContentsAre(d);
    forall i | 0 <= i < |contents| ensures HasSystem(SystemMessages(contents) + rest, i, contents[i]) {
      MessageOfContent(contents, rest, i);
    }
    forall k | 0 <= k < |d.systemNotes|
      ensures HasSystem(SystemMessages(contents) + rest, p + m + x + k, d.systemNotes[k])
    {
      assert contents[p + m + x..][k] == contents[p + m + x + k];
    }
  }

  lemma SummariesAreNext(front: seq<Message>, blocks: seq<TopicBlock>, w: Rewriters, history: seq<Message>)
    ensures GoesOnWithSummaries(front + SystemMessages(Summaries(blocks, w)) + history, |front|, blocks, w)
  {
    var summaries := Summaries(blocks, w);
    var all := front + SystemMessages(summaries) + history;
    forall k | 0 <= k < |blocks| ensures HasSystem(all, |front| + k, w.summarize(blocks[k])) {
      assert all[|front| + k] == SystemMessages(summaries)[k];
    }
  }

  /** Compression may rewrite a long user or assistant message that is not the last user message, and nothing else. */
  lemma CompressionTouchesOnly(messages: seq<Message>, ratio: real, w: Rewriters, i: nat)
    requires i < |messages|
    ensures var c := Compressed(messages, ratio, w);
            && |c| == |messages| && c[i] == messages[i].(content := c[i].content)
            && (messages[i].role == User || messages[i].role == Assistant || c[i] == messages[i])
            && (|messages[i].content| < 200 ==> c[i] == messages[i])
            && (messages[i].role == User && NoUser(messages[i + 1..]) ==> c[i] == messages[i])
  {
    if NoUser(messages[i + 1..]) {
      NoUserAfter(messages, i);
    }
  }

  lemma NoUserAfter(messages: seq<Message>, i: nat)
    requires i < |messages| && NoUser(messages[i + 1..])
    ensures forall j :: i < j < |messages| ==> messages[j].role != User
  {
    forall j | i < j < |messages| ensures messages[j].role != User {
      assert messages[j] == messages[i + 1..][j - i - 1];
    }
  }

  lemma CompressionKeepsSystem(messages: seq<Message>, ratio: real, w: Rewriters)
    ensures forall i, content ::
              HasSystem(messages, i, content) ==> HasSystem(Compressed(messages, ratio, w), i, content)
  {
  }

  lemma CompressionKeepsParts(messages: seq<Message>, ratio: real, w: Rewriters, d: Material, n: nat,
                              blocks: seq<TopicBlock>)
    requires StartsWithMaterial(messages, d, n) && GoesOnWithSummaries(messages, n, blocks, w)
    ensures StartsWithMaterial(Compressed(messages, ratio, w), d, n)
            && GoesOnWithSummaries(Compressed(messages, ratio, w), n, blocks, w)
  {
    CompressionKeepsSystem(messages, ratio, w);
  }

  lemma FrontStarts(d: Material, blocks: seq<TopicBlock>, w: Rewriters, history: seq<Message>) returns (n: nat)
    ensures var all := Front(d, Summaries(blocks, w)) + history;
            && n + |blocks| == |Front(d, Summaries(blocks, w))| && |all| == n + |blocks| + |history|
            && StartsWithMaterial(all, d, n) && GoesOnWithSummaries(all, n, blocks, w)
  {
    var material, summaries := SystemMessages(SystemContents(d)), SystemMessages(Summaries(blocks, w));
    n := |material|;
    Associate(material, summaries, history);
    MaterialIsFirst(d, summaries + history);
    SummariesAreNext(material, blocks, w, history);
  }

  lemma AfterFront(c: Config, front: seq<Message>, history: seq<Message>, w: Rewriters)
    ensures var request := Assembled(c, front, history, w);
            && |request| == |front| + |history| && SameShapes(history, request[|front|..])
            && (!c.promptCompression ==> request[|front|..] == history)
  {
    var all := front + history;
    assert all[|front|..] == history;
    if c.promptCompression {
      var ratio := if c.compressionTargetRatio <= 0.0 then 0.6 else c.compressionTargetRatio;
      CompressedHasShape(all, ratio, w);
      ShapesOfSlice(all, Compressed(all, ratio, w), |front|, |all|);
    }
  }

  /**
    Every request starts with the whole system material and the summaries of the other topics, and goes on
    with the history; compression may change contents in the history only.
   */
  lemma RequestContents(c: Config, d: Material, messages: seq<Message>, w: Rewriters) returns (n: nat)
    ensures var request, blocks := Request(c, d, messages, w), OffTopicBlocks(messages);
            var remaining := Remaining(c, d, Summaries(blocks, w));
            var history := History(c, CurrentMessages(messages), remaining, w);
            && |request| == n + |blocks| + |history|
            && StartsWithMaterial(request, d, n) && GoesOnWithSummaries(request, n, blocks, w)
            && SameShapes(history, request[n + |blocks|..])
            && (!c.promptCompression ==> request[n + |blocks|..] == history)
  {
    var blocks := OffTopicBlocks(messages);
    var history := History(c, CurrentMessages(messages), Remaining(c, d, Summaries(blocks, w)), w);
    var front := Front(d, Summaries(blocks, w));
    n := FrontStarts(d, blocks, w, history);
    AfterFront(c, front, history, w);
    if c.promptCompression {
      CompressionKeepsParts(front + history, if c.compressionTargetRatio <= 0.0 then 0.6 else c.compressionTargetRatio,
                            w, d, n, blocks);
    }
  }

  // --- Topics ---

  /** The current topic is the tag of the latest user message that has one. */
  lemma {:induction false} CurrentTopicIs(messages: seq<Message>, i: nat)
    requires i < |messages| && messages[i].role == User && messages[i].topicTag != ""
    requires forall k :: i < k < |messages| ==> messages[k].role != User || messages[k].topicTag == ""
    ensures CurrentTopic(messages) == messages[i].topicTag
  {
    if i < |messages| - 1 {
      CurrentTopicIs(messages[..|messages| - 1], i);
    }
  }

  lemma {:induction false} NoTopic(messages: seq<Message>)
    requires forall k :: 0 <= k < |messages| ==> messages[k].role != User || messages[k].topicTag == ""
    ensures CurrentTopic(messages) == ""
  {
    if messages != [] {
      NoTopic(messages[..|messages| - 1]);
    }
  }

  /** A chunk is current exactly if the first tag in it, if any, is the topic. */
  lemma {:induction false} TaggedIsCurrentIff(chunk: seq<Message>, topic: string, i: nat)
    requires i < |chunk| && TrimSpace(chunk[i].topicTag) != ""
    requires forall k :: 0 <= k < i ==> TrimSpace(chunk[k].topicTag) == ""
    ensures IsCurrent(chunk, topic) <==> chunk[i].topicTag == topic
  {
    if i > 0 {
      TaggedIsCurrentIff(chunk[1..], topic, i - 1);
    }
  }

  lemma {:induction false} UntaggedIsCurrent(chunk: seq<Message>, topic: string)
    requires forall k :: 0 <= k < |chunk| ==> TrimSpace(chunk[k].topicTag) == ""
    ensures IsCurrent(chunk, topic)
  {
    if chunk != [] {
      UntaggedIsCurrent(chunk[1..], topic);
    }
  }

  /** A block remembers the first user message with any content. */
  lemma {:induction false} FirstUserContentIs(messages: seq<Message>, i: nat)
    requires i < |messages| && messages[i].role == User && messages[i].content != ""
    requires forall k :: 0 <= k < i ==> messages[k].role != User || messages[k].content == ""
    ensures FirstUserContent(messages) == messages[i].content
  {
    if i > 0 {
      FirstUserContentIs(messages[1..], i - 1);
    }
  }

  /** Every message of the conversation is in the current topic or in a block that is summarized. */
  lemma EveryMessageIsPlaced(messages: seq<Message>)
    ensures multiset(CurrentMessages(messages)) + multiset(BlockMessages(OffTopicBlocks(messages)))
            == multiset(messages)
  {
    PartitionConserves(messages, CurrentTopic(messages));
  }

  // --- How strongly the history is compacted ---

  /** The stage by how far the history's tokens exceed what is left: up to 1, 1.5, 2.5 and 4 times, and beyond. */
  lemma StageIs(current: seq<Message>, remaining: int, charsPerToken: int)
    ensures var cost, room, stage := Cost(current, charsPerToken), Max(remaining, 1),
              StageFor(current, remaining, charsPerToken);
            && (stage == Verbatim <==> cost <= room)
            && (stage == SelectiveTrim <==> room < cost && 2 * cost <= 3 * room)
            && (stage == Stage.SemanticCompress <==> 3 * room < 2 * cost <= 5 * room)
            && (stage == TopicExtract <==> 5 * room < 2 * cost && cost <= 4 * room)
            && (stage == Skeleton <==> 4 * room < cost)
  {
    RatioAgainst(Cost(current, charsPerToken), Max(remaining, 1));
  }

  lemma RatioAgainst(cost: nat, room: int)
    requires room >= 1
    ensures var ratio := cost as real / room as real;
            && (ratio <= 1.0 <==> cost <= room) && (ratio <= 1.5 <==> 2 * cost <= 3 * room)
            && (ratio <= 2.5 <==> 2 * cost <= 5 * room) && (ratio <= 4.0 <==> cost <= 4 * room)
  {
    var a, b := cost as real, room as real;
    RatioAtMost(a, b, 1.0);
    RatioAtMost(a, b, 1.5);
    RatioAtMost(a, b, 2.5);
    RatioAtMost(a, b, 4.0);
  }

  lemma RatioAtMost(a: real, b: real, t: real)
    requires b > 0.0
    ensures a / b <= t <==> a <= t * b
  {
    var r := a / b;
    assert r * b == a;
    if r <= t {
      Scaled(r, t, b);
    } else {
      Scaled(t, r, b);
      assert (r - t) * b > 0.0;
    }
  }

  lemma Scaled(x: real, y: real, b: real)
    requires x <= y && b > 0.0
    ensures x * b <= y * b
  {
    assert (y - x) * b >= 0.0;
  }

  /** What a message says at each stage: nothing for filler, less for a long one, and at last only its role. */
  lemma CompactSays(m: Message, stage: Stage, w: Rewriters)
    ensures var said := Compact(m, stage, w);
            && (m.role == System ==> said == m.content)
            && (m.role != System ==>
                  match stage
                  case Verbatim => said == m.content
                  case SelectiveTrim => said == m.content || (said == "" && |m.content| < 40)
                  case SemanticCompress => said == if |m.content| < 100 then m.content else w.semantic(m.content)
                  case TopicExtract => said == w.firstSentence(m.content)
                  case Skeleton =>
                    && (m.role == User ==> said == "[user message]") && (m.role == Tool ==> said == "[tool message]")
                    && (m.role == Assistant ==> said == "[assistant message]"))
  {
  }

  /** Filler is trimmed in any case and with any space around it. */
  lemma FillerIsTrimmed(m: Message, w: Rewriters)
    requires m.role != System && |m.content| < 40
    requires ToLower(TrimSpace(m.content)) in {"hello", "hi", "hey", "thanks", "thank you", "ok", "okay", "got it",
                                               "sure", "yes", "no", "ack", "np"}
    ensures Compact(m, SelectiveTrim, w) == ""
  {
    var lower := ToLower(TrimSpace(m.content));
    assert FILLERS[0] == "hello" && FILLERS[1] == "hi" && FILLERS[2] == "hey" && FILLERS[3] == "thanks"
           && FILLERS[4] == "thank you" && FILLERS[5] == "ok" && FILLERS[6] == "okay" && FILLERS[7] == "got it"
           && FILLERS[8] == "sure" && FILLERS[9] == "yes" && FILLERS[10] == "no" && FILLERS[11] == "ack"
           && FILLERS[12] == "np";
  }

  /** A text is estimated at its length over the characters per token, four by default, rounded up. */
  lemma TokensAre(text: string, charsPerToken: int)
    ensures var per, tokens := if charsPerToken > 0 then charsPerToken else 4, EstimateTokens(text, charsPerToken);
            tokens * per >= |text| && (tokens - 1) * per < |text|
  {
  }

  // --- What is chosen ---

  /** The choice is greedy, newest first: a part is left out only if it is empty or does not fit with the newer ones. */
  lemma SelectionIsGreedy(p: Plan, i: nat)
    requires i < |p.parts|
    ensures var newer := Cost(Flatten(Taken(p, i + 1)), p.charsPerToken);
            Taken(p, i) == (if p.parts[i] != []
                               && (i == p.latest || newer + Cost(p.parts[i], p.charsPerToken) <= p.remaining)
                            then [p.parts[i]] else []) + Taken(p, i + 1)
  {
    UsedIsCost(p, i + 1);
  }

  /** The reminder is added exactly in a long conversation and if it fits. */
  lemma ReminderIff(c: Config, current: seq<Message>, remaining: int, w: Rewriters)
    ensures var p := HistoryPlan(c, current, remaining, w);
            var history := Flatten(Taken(p, 0));
            var cost := Cost(history, c.charsPerToken) + EstimateTokens(REMINDER.content, c.charsPerToken);
            var added := c.antiFadeAfter > 0 && CountNonSystem(history) > c.antiFadeAfter && cost <= remaining;
            && (!added ==> History(c, current, remaining, w) == history)
            && (added ==> exists k :: 0 <= k <= |history| && (k < |history| ==> history[k].role == User)
                                      && NoUser(history[if k < |history| then k + 1 else k..])
                                      && History(c, current, remaining, w) == history[..k] + [REMINDER] + history[k..])
  {
    var p := HistoryPlan(c, current, remaining, w);
    UsedIsCost(p, 0);
    var history := Flatten(Taken(p, 0));
    var k := LastUserIndex(history);
    assert history[|history|..] == [];
  }

  // --- The budget ---

  /** The budget is the tier's, or the maximum without one; a large prompt raises it, up to the top tier at most. */
  lemma BudgetIs(c: Config, systemPrompt: string)
    ensures var base := if c.tier.Some? then c.tier.value.forTier else c.maxTokens;
            var budget := Budget(c, systemPrompt);
            && base <= budget && (c.tier.None? || systemPrompt == "" ==> budget == base)
            && (c.tier.Some? ==> budget <= Max(base, c.tier.value.l3))
  {
  }

  lemma {:induction false} TokensAreCost(contents: seq<string>, charsPerToken: int)
    ensures Cost(SystemMessages(contents), charsPerToken) == TokensOf(contents, charsPerToken)
  {
    if contents != [] {
      TokensAreCost(contents[1..], charsPerToken);
      assert SystemMessages(contents)[1..] == SystemMessages(contents[1..]);
    }
  }

  lemma FrontCosts(d: Material, summaries: seq<string>, charsPerToken: int)
    ensures Cost(Front(d, summaries), charsPerToken) ==
            TokensOf(SystemContents(d), charsPerToken) + TokensOf(summaries, charsPerToken)
  {
    CostConcat(SystemMessages(SystemContents(d)), SystemMessages(summaries), charsPerToken);
    TokensAreCost(SystemContents(d), charsPerToken);
    TokensAreCost(summaries, charsPerToken);
  }

  /** What system material, summaries and tool definitions cost. */
  function FixedCost(c: Config, d: Material, messages: seq<Message>, w: Rewriters): nat {
    TokensOf(SystemContents(d), c.charsPerToken) + TokensOf(Summaries(OffTopicBlocks(messages), w), c.charsPerToken)
    + TokensOf(d.toolDefs, c.charsPerToken)
  }

  function HistoryPart(c: Config, d: Material, messages: seq<Message>, w: Rewriters): seq<Message> {
    History(c, CurrentMessages(messages), Remaining(c, d, Summaries(OffTopicBlocks(messages), w)), w)
  }

  /** What the chunk of the latest user message costs. */
  function LatestCost(c: Config, d: Material, messages: seq<Message>, w: Rewriters): nat {
    ForcedCost(HistoryPlan(c, CurrentMessages(messages), Remaining(c, d, Summaries(OffTopicBlocks(messages), w)), w))
  }

  lemma RequestCosts(c: Config, d: Material, messages: seq<Message>, w: Rewriters)
    requires !c.promptCompression
    ensures Cost(Request(c, d, messages, w), c.charsPerToken) + TokensOf(d.toolDefs, c.charsPerToken) ==
            FixedCost(c, d, messages, w) + Cost(HistoryPart(c, d, messages, w), c.charsPerToken)
  {
    var summaries := Summaries(OffTopicBlocks(messages), w);
    CostConcat(Front(d, summaries), HistoryPart(c, d, messages, w), c.charsPerToken);
    FrontCosts(d, summaries, c.charsPerToken);
  }

  lemma HistoryPartFits(c: Config, d: Material, messages: seq<Message>, w: Rewriters)
    ensures Cost(HistoryPart(c, d, messages, w), c.charsPerToken) <=
            Max(0, Budget(c, d.systemPrompt) - FixedCost(c, d, messages, w)) + LatestCost(c, d, messages, w)
  {
    HistoryFitsBudget(c, CurrentMessages(messages), Remaining(c, d, Summaries(OffTopicBlocks(messages), w)), w);
  }

  /**
    Without compression, what the request and the tool definitions cost is within the budget, the latest
    user's chunk aside, or no more than the system material, the summaries and the tools alone.
   */
  lemma RequestFitsBudget(c: Config, d: Material, messages: seq<Message>, w: Rewriters)
    requires !c.promptCompression
    ensures Cost(Request(c, d, messages, w), c.charsPerToken) + TokensOf(d.toolDefs, c.charsPerToken)
            <= Max(Budget(c, d.systemPrompt), FixedCost(c, d, messages, w)) + LatestCost(c, d, messages, w)
  {
    RequestCosts(c, d, messages, w);
    HistoryPartFits(c, d, messages, w);
  }

  /** Memory goes in as it is if it takes at most a quarter of the budget, and compacted to that otherwise. */
  lemma MemoryIsFitted(c: Config, d: Material, w: Rewriters)
    requires Budget(c, d.systemPrompt) >= 0
    ensures var cap := Budget(c, d.systemPrompt) / 4;
            FittedMemory(c, d, w) ==
            if EstimateTokens(d.memory, c.charsPerToken) <= cap then d.memory
            else w.compactText(d.memory, cap)
  {
    QuarterIs(Budget(c, d.systemPrompt));
    NothingCostsNothing(c.charsPerToken);
  }

  lemma NothingCostsNothing(charsPerToken: int)
    ensures EstimateTokens("", charsPerToken) == 0
  {
  }

  lemma QuarterIs(budget: int)
    requires budget >= 0
    ensures Truncate(budget as real / 4.0) == budget / 4
  {
  }

  // --- What of a message is sent ---

  /** A message is sent with everything but its topic tag, or not at all: that only if nothing of it is left. */
  lemma MessageIsSent(m: Message, stage: Stage, latest: bool, w: Rewriters)
    ensures var said := if latest && m.role == User then m.content else Compact(m, stage, w);
            Render([m], stage, latest, w) ==
            if TrimSpace(said) == "" && m.toolCalls == [] && m.toolCallId == "" then []
            else [Message(m.role, said, m.toolCalls, m.toolCallId, m.name, m.metadata, "")]
  {
    assert [m][1..] == [];
  }
}
