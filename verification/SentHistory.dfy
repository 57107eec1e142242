/**
  What the model is sent: the tokens of the history, and that a tool result never goes without its call.
 */
module SentHistory {
  import opened Text
  import opened Conversation
  import opened CallGroups
  import opened ContextBuilder

  // --- The budget ---

  lemma {:induction false} CostConcat(a: seq<Message>, b: seq<Message>, charsPerToken: int)
    ensures Cost(a + b, charsPerToken) == Cost(a, charsPerToken) + Cost(b, charsPerToken)
  {
    if a == [] {
      assert a + b == b;
    } else {
      CostConcat(a[1..], b, charsPerToken);
      assert (a + b)[1..] == a[1..] + b;
    }
  }

  /** The running total is the cost of the messages taken. */
  lemma {:induction false} UsedIsCost(p: Plan, i: nat)
    requires i <= |p.parts|
    ensures Cost(Flatten(Taken(p, i)), p.charsPerToken) == Used(p, i)
    decreases |p.parts| - i
  {
    if i < |p.parts| {
      UsedIsCost(p, i + 1);
      if Takes(p, i) {
        FlattenCons(p.parts[i], Taken(p, i + 1));
        CostConcat(p.parts[i], Flatten(Taken(p, i + 1)), p.charsPerToken);
      } else {
        assert Taken(p, i) == Taken(p, i + 1);
      }
    }
  }

  lemma CostOfReminded(history: seq<Message>, charsPerToken: int)
    ensures Cost(Reminded(history), charsPerToken) ==
            Cost(history, charsPerToken) + EstimateTokens(REMINDER.content, charsPerToken)
  {
    var k := LastUserIndex(history);
    CostConcat(history[..k] + [REMINDER], history[k..], charsPerToken);
    CostSnoc(history[..k], REMINDER, charsPerToken);
    CostConcat(history[..k], history[k..], charsPerToken);
    assert history == history[..k] + history[k..];
  }

  /** The cost of the part that is sent whatever the budget: the chunk of the latest user message, as rendered. */
  function ForcedCost(p: Plan): nat {
    if 0 <= p.latest < |p.parts| then Cost(p.parts[p.latest], p.charsPerToken) else 0
  }

  /**
    For every history and every budget, overspent ones included, the history that is sent, its reminder
    included, costs no more than what the budget leaves, the latest user's chunk aside.
   */
  lemma HistoryFitsBudget(c: Config, current: seq<Message>, remaining: int, w: Rewriters)
    ensures Cost(History(c, current, remaining, w), c.charsPerToken)
            <= Max(0, remaining) + ForcedCost(HistoryPlan(c, current, remaining, w))
  {
    var p := HistoryPlan(c, current, remaining, w);
    var history := Flatten(Taken(p, 0));
    UsedIsCost(p, 0);
    BudgetHolds(p, 0);
    CostOfReminded(history, c.charsPerToken);
  }

  // --- Groups ---

  /** Every call has an id. */
  ghost predicate CallsHaveIds(ms: seq<Message>) {
    forall i :: 0 <= i < |ms| ==> HasIds(ms[i])
  }

  predicate HasIds(m: Message) {
    forall k :: 0 <= k < |m.toolCalls| ==> m.toolCalls[k].id != ""
  }

  ghost predicate AllHaveIds(parts: seq<seq<Message>>) {
    forall i :: 0 <= i < |parts| ==> CallsHaveIds(parts[i])
  }

  lemma IdsCons(first: seq<Message>, rest: seq<seq<Message>>)
    requires CallsHaveIds(first) && AllHaveIds(rest)
    ensures AllHaveIds([first] + rest)
  {
  }

  lemma {:induction false} ChunksHaveIds(ms: seq<Message>)
    requires CallsHaveIds(ms)
    ensures AllHaveIds(Chunks(ms))
    decreases |ms|
  {
    if ms != [] {
      var n := ChunkLength(ms);
      ChunksHaveIds(ms[n..]);
      IdsCons(ms[..n], Chunks(ms[n..]));
    }
  }

  lemma {:induction false} SideHasIds(chunks: seq<seq<Message>>, topic: string, current: bool)
    requires AllHaveIds(chunks)
    ensures CallsHaveIds(Flatten(Side(chunks, topic, current)))
  {
    if chunks != [] {
      SideHasIds(chunks[1..], topic, current);
      FlattenCons(chunks[0], Side(chunks[1..], topic, current));
    }
  }

  /** The topic split keeps results with their calls. */
  lemma CurrentIsAttached(messages: seq<Message>)
    requires Attached(messages) && CallsHaveIds(messages)
    ensures Attached(CurrentMessages(messages)) && CallsHaveIds(CurrentMessages(messages))
  {
    var chunks, topic := Chunks(messages), CurrentTopic(messages);
    ChunksAreAttached(messages);
    SideIsAttached(chunks, topic, true);
    FlattenIsAttached(Side(chunks, topic, true));
    ChunksHaveIds(messages);
    SideHasIds(chunks, topic, true);
  }

  /** And leaves whole groups. */
  lemma CurrentIsGrouped(messages: seq<Message>)
    requires WellGrouped(messages)
    ensures WellGrouped(CurrentMessages(messages))
  {
    var chunks, topic := Chunks(messages), CurrentTopic(messages);
    ChunksAreGrouped(messages);
    SideIsGrouped(chunks, topic, true);
    FlattenIsGrouped(Side(chunks, topic, true));
  }

  lemma {:induction false} AnswersAreNamed(messages: seq<Message>, calls: seq<ToolCall>)
    requires forall k :: 0 <= k < |calls| ==> calls[k].id != ""
    ensures forall i :: 0 <= i < AnswerCount(messages, calls) ==> messages[i].toolCallId != ""
  {
    if messages != [] && Answers(messages[0], calls) {
      AnswersAreNamed(messages[1..], calls);
    }
  }

  lemma GroupNamesItsCalls(chunk: seq<Message>)
    requires IsChunk(chunk) && CallsHaveIds(chunk) && OpensGroup(chunk[0])
    ensures NamesItsCalls(chunk)
  {
    assert HasIds(chunk[0]);
    AnswersAreNamed(chunk[1..], chunk[0].toolCalls);
    forall i | 1 <= i < |chunk| ensures chunk[i].toolCallId != "" {
      assert chunk[i] == chunk[1..][i - 1];
    }
  }

  lemma LoneIsWhole(m: Message)
    requires m.role != Tool && !OpensGroup(m)
    ensures WellGrouped([m]) && Attached([m])
  {
    LoneIsGrouped(m);
    GroupedIsAttached([m]);
  }

  /** Rendering drops a lone message or sends it, and sends a group as far as it goes. */
  lemma RenderIsAttached(chunk: seq<Message>, stage: Stage, latest: bool, w: Rewriters)
    requires IsChunk(chunk) && Attached(chunk) && CallsHaveIds(chunk)
    ensures var sent := Render(chunk, stage, latest, w);
            Attached(sent) && (WellGrouped(sent) <==> WellGrouped(chunk))
            && (OpensGroup(chunk[0]) ==> sent != [])
  {
    var sent := Render(chunk, stage, latest, w);
    if OpensGroup(chunk[0]) {
      GroupNamesItsCalls(chunk);
      GroupIsSentWhole(chunk, stage, latest, w);
      ShapeKeepsAttached(chunk, sent);
      ShapeGroupedIff(chunk, sent);
    } else {
      RenderOfLone(chunk[0], stage, latest, w);
      assert chunk == [chunk[0]];
      LoneIsWhole(chunk[0]);
      LoneIsWhole(Sent(chunk[0], ContentOf(chunk[0], stage, latest, w)));
    }
  }

  /** Every chunk that is taken is whole. */
  ghost predicate TakesWhole(p: Plan, chunks: seq<seq<Message>>, i: nat)
    requires |p.parts| == |chunks|
  {
    forall j :: i <= j < |chunks| && Takes(p, j) ==> WellGrouped(chunks[j])
  }

  ghost predicate SentAs(part: seq<Message>, chunk: seq<Message>) {
    Attached(part) && (WellGrouped(part) <==> WellGrouped(chunk))
  }

  lemma PlanIsAttached(current: seq<Message>, stage: Stage, remaining: int, charsPerToken: int, w: Rewriters)
    requires Attached(current) && CallsHaveIds(current)
    ensures var chunks := Chunks(current);
            var p := PlanFor(chunks, stage, remaining, charsPerToken, w);
            forall i :: 0 <= i < |chunks| ==> SentAs(p.parts[i], chunks[i])
  {
    var chunks := Chunks(current);
    var p := PlanFor(chunks, stage, remaining, charsPerToken, w);
    ChunksAreChunks(current);
    ChunksAreAttached(current);
    ChunksHaveIds(current);
    forall i | 0 <= i < |chunks| ensures SentAs(p.parts[i], chunks[i]) {
      RenderIsAttached(chunks[i], stage, i == p.latest, w);
    }
  }

  lemma {:induction false} TakenIsAttached(p: Plan, chunks: seq<seq<Message>>, i: nat)
    requires i <= |p.parts| == |chunks| && forall j :: 0 <= j < |chunks| ==> SentAs(p.parts[j], chunks[j])
    ensures AllAttached(Taken(p, i)) && (AllGrouped(Taken(p, i)) <==> TakesWhole(p, chunks, i))
    decreases |p.parts| - i
  {
    if i < |p.parts| {
      TakenIsAttached(p, chunks, i + 1);
      assert SentAs(p.parts[i], chunks[i]);
      assert TakesWhole(p, chunks, i) <==> TakesWhole(p, chunks, i + 1) && (Takes(p, i) ==> WellGrouped(chunks[i]));
      if Takes(p, i) {
        AttachedCons(p.parts[i], Taken(p, i + 1));
        GroupedConsIff(p.parts[i], Taken(p, i + 1));
      } else {
        assert Taken(p, i) == Taken(p, i + 1);
      }
    }
  }

  lemma AttachedSlice(parts: seq<seq<Message>>, j: nat)
    requires AllAttached(parts) && j <= |parts|
    ensures AllAttached(parts[..j]) && AllAttached(parts[j..])
    ensures AllGrouped(parts) <==> AllGrouped(parts[..j]) && AllGrouped(parts[j..])
  {
    assert parts == parts[..j] + parts[j..];
    FlattenGroupedIff(parts);
  }

  /** The reminder stands between parts and changes neither. */
  lemma RemindedIsAttached(parts: seq<seq<Message>>, j: nat)
    requires AllAttached(parts) && RemindedBetween(parts, j)
    ensures var r := Reminded(Flatten(parts)); Attached(r) && (WellGrouped(r) <==> WellGrouped(Flatten(parts)))
  {
    var before, after := Flatten(parts[..j]), Flatten(parts[j..]);
    AttachedSlice(parts, j);
    FlattenIsAttached(parts[..j]);
    FlattenIsAttached(parts[j..]);
    FlattenGroupedIff(parts);
    FlattenGroupedIff(parts[..j]);
    FlattenGroupedIff(parts[j..]);
    LoneIsWhole(REMINDER);
    AttachedConcat(before, [REMINDER]);
    AttachedConcat(before + [REMINDER], after);
    GroupedConcatIff(before, [REMINDER]);
    GroupedConcatIff(before + [REMINDER], after);
  }

  ghost predicate Faithful(history: seq<Message>, whole: bool) {
    Attached(history) && (WellGrouped(history) <==> whole)
  }

  lemma TakenIsFaithful(p: Plan, chunks: seq<seq<Message>>)
    requires |p.parts| == |chunks| && forall j :: 0 <= j < |chunks| ==> SentAs(p.parts[j], chunks[j])
    requires exists j: nat :: RemindedBetween(Taken(p, 0), j)
    ensures Faithful(Flatten(Taken(p, 0)), TakesWhole(p, chunks, 0))
    ensures Faithful(Reminded(Flatten(Taken(p, 0))), TakesWhole(p, chunks, 0))
  {
    var taken := Taken(p, 0);
    TakenIsAttached(p, chunks, 0);
    FlattenIsAttached(taken);
    FlattenGroupedIff(taken);
    var j: nat :| RemindedBetween(taken, j);
    RemindedIsAttached(taken, j);
  }

  /**
    If every result of a conversation stands with its call, as a run leaves it however it ends, then so it
    does in the history that is sent: no result goes without its call. And every call goes with all its
    results exactly if every chunk that is taken has them.
   */
  lemma HistoryIsAttached(c: Config, current: seq<Message>, remaining: int, w: Rewriters)
    requires Attached(current) && CallsHaveIds(current)
    ensures var history, p := History(c, current, remaining, w), HistoryPlan(c, current, remaining, w);
            Attached(history) && (WellGrouped(history) <==> TakesWhole(p, Chunks(current), 0))
  {
    var stage := StageFor(current, remaining, c.charsPerToken);
    var p := HistoryPlan(c, current, remaining, w);
    PlanIsAttached(current, stage, remaining, c.charsPerToken, w);
    ReminderSplitsNoChunk(current, stage, remaining, c.charsPerToken, w);
    TakenIsFaithful(p, Chunks(current));
  }

  /**
    In particular, if every tool-calling message of a conversation is followed by its results, no call is
    sent without them.
   */
  lemma HistoryIsWellGrouped(c: Config, current: seq<Message>, remaining: int, w: Rewriters)
    requires WellGrouped(current) && CallsHaveIds(current)
    ensures WellGrouped(History(c, current, remaining, w))
  {
    GroupedIsAttached(current);
    HistoryIsAttached(c, current, remaining, w);
    ChunksAreGrouped(current);
  }

  lemma {:induction false} SystemIsGrouped(contents: seq<string>)
    ensures WellGrouped(SystemMessages(contents))
  {
    if contents != [] {
      SystemIsGrouped(contents[1..]);
      assert SystemMessages(contents) == [SystemMessage(contents[0])] + SystemMessages(contents[1..]);
      LoneIsGrouped(SystemMessage(contents[0]));
      WellGroupedConcat([SystemMessage(contents[0])], SystemMessages(contents[1..]));
    }
  }

  lemma CompressedHasShape(messages: seq<Message>, ratio: real, w: Rewriters)
    ensures SameShapes(messages, Compressed(messages, ratio, w))
  {
  }

  lemma FrontIsGrouped(d: Material, summaries: seq<string>)
    ensures WellGrouped(Front(d, summaries)) && Attached(Front(d, summaries))
  {
    SystemIsGrouped(SystemContents(d));
    SystemIsGrouped(summaries);
    WellGroupedConcat(SystemMessages(SystemContents(d)), SystemMessages(summaries));
    GroupedIsAttached(Front(d, summaries));
  }

  lemma SentWithFront(c: Config, d: Material, summaries: seq<string>, history: seq<Message>, w: Rewriters)
    requires Attached(history)
    ensures Faithful(Assembled(c, Front(d, summaries), history, w), WellGrouped(history))
  {
    var front := Front(d, summaries);
    var request := Assembled(c, front, history, w);
    FrontIsGrouped(d, summaries);
    AttachedConcat(front, history);
    GroupedConcatIff(front, history);
    CompressedHasShape(front + history, if c.compressionTargetRatio <= 0.0 then 0.6 else c.compressionTargetRatio, w);
    ShapeKeepsAttached(front + history, request);
    ShapeGroupedIff(front + history, request);
  }

  /** The same of the whole request: topic split, system material, summaries and compression included. */
  lemma RequestIsAttached(c: Config, d: Material, messages: seq<Message>, w: Rewriters)
    requires Attached(messages) && CallsHaveIds(messages)
    ensures var current := CurrentMessages(messages);
            var remaining := Remaining(c, d, Summaries(OffTopicBlocks(messages), w));
            && Attached(Request(c, d, messages, w))
            && (WellGrouped(Request(c, d, messages, w)) <==>
                TakesWhole(HistoryPlan(c, current, remaining, w), Chunks(current), 0))
  {
    var current, summaries := CurrentMessages(messages), Summaries(OffTopicBlocks(messages), w);
    CurrentIsAttached(messages);
    HistoryIsAttached(c, current, Remaining(c, d, summaries), w);
    SentWithFront(c, d, summaries, History(c, current, Remaining(c, d, summaries), w), w);
  }

  /** And of whole conversations. */
  lemma RequestIsWellGrouped(c: Config, d: Material, messages: seq<Message>, w: Rewriters)
    requires WellGrouped(messages) && CallsHaveIds(messages)
    ensures WellGrouped(Request(c, d, messages, w))
  {
    GroupedIsAttached(messages);
    RequestIsAttached(c, d, messages, w);
    CurrentIsGrouped(messages);
    ChunksAreGrouped(CurrentMessages(messages));
  }

  // --- Calls that were cut short ---

  lemma VerbatimCost(chunk: seq<Message>, latest: bool, charsPerToken: int, w: Rewriters)
    ensures Cost(Render(chunk, Verbatim, latest, w), charsPerToken) <= Cost(chunk, charsPerToken)
  {
    if chunk != [] {
      VerbatimCost(chunk[1..], latest, charsPerToken, w);
      CostConcat(RenderOne(chunk[0], Verbatim, latest, w), Render(chunk[1..], Verbatim, latest, w), charsPerToken);
    }
  }

  lemma {:induction false} SuffixFits(p: Plan, chunks: seq<seq<Message>>, i: nat)
    requires i <= |p.parts| == |chunks|
    requires forall j :: 0 <= j < |chunks| ==> Cost(p.parts[j], p.charsPerToken) <= Cost(chunks[j], p.charsPerToken)
    ensures Used(p, i) <= Cost(Flatten(chunks[i..]), p.charsPerToken)
    decreases |chunks| - i
  {
    if i < |chunks| {
      SuffixFits(p, chunks, i + 1);
      assert chunks[i..] == [chunks[i]] + chunks[i + 1..];
      FlattenCons(chunks[i], chunks[i + 1..]);
      CostConcat(chunks[i], Flatten(chunks[i + 1..]), p.charsPerToken);
    }
  }

  lemma CostOfSuffix(chunks: seq<seq<Message>>, i: nat, charsPerToken: int)
    requires i <= |chunks|
    ensures Cost(Flatten(chunks[i..]), charsPerToken) <= Cost(Flatten(chunks), charsPerToken)
  {
    assert chunks == chunks[..i] + chunks[i..];
    FlattenConcat(chunks[..i], chunks[i..]);
    CostConcat(Flatten(chunks[..i]), Flatten(chunks[i..]), charsPerToken);
  }

  /** If all of it fits, every part that is not empty is taken. */
  lemma FittingIsTaken(p: Plan, chunks: seq<seq<Message>>, i: nat)
    requires i < |p.parts| == |chunks| && p.parts[i] != []
    requires forall j :: 0 <= j < |chunks| ==> Cost(p.parts[j], p.charsPerToken) <= Cost(chunks[j], p.charsPerToken)
    requires Cost(Flatten(chunks), p.charsPerToken) <= p.remaining
    ensures Takes(p, i)
  {
    SuffixFits(p, chunks, i + 1);
    CostOfSuffix(chunks, i, p.charsPerToken);
    assert chunks[i..] == [chunks[i]] + chunks[i + 1..];
    FlattenCons(chunks[i], chunks[i + 1..]);
    CostConcat(chunks[i], Flatten(chunks[i + 1..]), p.charsPerToken);
  }

  lemma AtMostOne(a: real, b: real)
    requires a <= b && b > 0.0
    ensures a / b <= 1.0
  {
  }

  lemma FittingIsVerbatim(current: seq<Message>, remaining: int, charsPerToken: int)
    requires Cost(current, charsPerToken) <= remaining
    ensures StageFor(current, remaining, charsPerToken) == Verbatim
  {
    AtMostOne(Cost(current, charsPerToken) as real, Max(remaining, 1) as real);
  }

  /** A chunk that lacks a result is sent, if all of the history fits. */
  lemma CutChunkIsTaken(c: Config, current: seq<Message>, remaining: int, w: Rewriters, i: nat)
    requires Attached(current) && CallsHaveIds(current) && Cost(current, c.charsPerToken) <= remaining
    requires i < |Chunks(current)| && !WellGrouped(Chunks(current)[i])
    ensures Takes(HistoryPlan(c, current, remaining, w), i)
  {
    var p, chunks := HistoryPlan(c, current, remaining, w), Chunks(current);
    FittingIsVerbatim(current, remaining, c.charsPerToken);
    forall j | 0 <= j < |chunks| ensures Cost(p.parts[j], p.charsPerToken) <= Cost(chunks[j], p.charsPerToken) {
      VerbatimCost(chunks[j], j == p.latest, c.charsPerToken, w);
    }
    ChunksAreChunks(current);
    ChunksAreAttached(current);
    ChunksHaveIds(current);
    RenderIsAttached(chunks[i], Verbatim, i == p.latest, w);
    FlattenOfChunks(current);
    FittingIsTaken(p, chunks, i);
  }

  /** If all of the history fits, every call is sent with its results exactly if none was cut short. */
  lemma FittingHistoryIff(c: Config, current: seq<Message>, remaining: int, w: Rewriters)
    requires Attached(current) && CallsHaveIds(current) && Cost(current, c.charsPerToken) <= remaining
    ensures WellGrouped(History(c, current, remaining, w)) <==> WellGrouped(current)
  {
    var chunks := Chunks(current);
    HistoryIsAttached(c, current, remaining, w);
    ChunksAreAttached(current);
    FlattenOfChunks(current);
    FlattenGroupedIff(chunks);
    forall i | 0 <= i < |chunks| && !WellGrouped(chunks[i]) ensures Takes(HistoryPlan(c, current, remaining, w), i) {
      CutChunkIsTaken(c, current, remaining, w, i);
    }
  }

  lemma FittingRequestIff(c: Config, d: Material, messages: seq<Message>, w: Rewriters)
    requires Attached(messages) && CallsHaveIds(messages)
    requires Cost(CurrentMessages(messages), c.charsPerToken) <= Remaining(c, d, Summaries(OffTopicBlocks(messages), w))
    ensures WellGrouped(Request(c, d, messages, w)) <==> WellGrouped(CurrentMessages(messages))
  {
    var current, remaining := CurrentMessages(messages), Remaining(c, d, Summaries(OffTopicBlocks(messages), w));
    CurrentIsAttached(messages);
    RequestIsAttached(c, d, messages, w);
    HistoryIsAttached(c, current, remaining, w);
    FittingHistoryIff(c, current, remaining, w);
  }

  /**
    So a call that a run left without all its results goes out like that with the next user message, in
    every conversation without topics whose history fits.
   */
  lemma CutCallIsSent(c: Config, d: Material, before: seq<Message>, left: seq<Message>, u: Message, w: Rewriters)
    requires Attached(before) && CutShort(left) && !WellGrouped(left) && u.role == User
    requires var messages := before + left + [u];
             && CallsHaveIds(messages) && CurrentTopic(messages) == ""
             && Cost(messages, c.charsPerToken) <= Remaining(c, d, Summaries(OffTopicBlocks(messages), w))
    ensures var request := Request(c, d, before + left + [u], w); Attached(request) && !WellGrouped(request)
  {
    var messages := before + left + [u];
    CutShortIsAttached(left);
    LoneIsWhole(u);
    AttachedConcat(before, left);
    AttachedConcat(before + left, [u]);
    GroupedConcatIff(before, left);
    GroupedConcatIff(before + left, [u]);
    FittingRequestIff(c, d, messages, w);
    RequestIsAttached(c, d, messages, w);
  }
}
