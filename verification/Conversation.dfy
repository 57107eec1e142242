/**
  Conversation messages, their grouping into atomic chunks (a tool-calling assistant message with
  the results that answer it), and the split into current-topic messages and off-topic blocks.
 */
module Conversation {
  import opened Text

  datatype Role = System | User | Assistant | Tool | Other(name: string)

  datatype ToolCall = ToolCall(id: string, name: string, arguments: string)

  datatype Message = Message(role: Role, content: string, toolCalls: seq<ToolCall>,
                             toolCallId: string, name: string, metadata: string, topicTag: string)

  function SystemMessage(content: string): Message {
    Message(System, content, [], "", "", "", "")
  }

  function Flatten<T>(parts: seq<seq<T>>): seq<T> {
    if parts == [] then [] else parts[0] + Flatten(parts[1..])
  }

  lemma {:induction false} FlattenConcat<T>(a: seq<seq<T>>, b: seq<seq<T>>)
    ensures Flatten(a + b) == Flatten(a) + Flatten(b)
  {
    if a == [] {
      assert a + b == b;
    } else {
      FlattenConcat(a[1..], b);
      assert (a + b)[1..] == a[1..] + b;
      Associate(a[0], Flatten(a[1..]), Flatten(b));
    }
  }

  lemma FlattenCons<T>(first: seq<T>, rest: seq<seq<T>>)
    ensures Flatten([first] + rest) == first + Flatten(rest)
  {
    assert ([first] + rest)[1..] == rest;
  }

  lemma FlattenOne<T>(part: seq<T>)
    ensures Flatten([part]) == part
  {
    assert [part][1..] == [];
  }

  // --- Chunks ---

  predicate OpensGroup(m: Message) {
    m.role == Assistant && m.toolCalls != []
  }

  predicate Answers(m: Message, calls: seq<ToolCall>) {
    m.role == Tool && exists i :: 0 <= i < |calls| && calls[i].id == m.toolCallId
  }

  /** How many messages at the front answer one of the calls. */
  function AnswerCount(messages: seq<Message>, calls: seq<ToolCall>): (n: nat)
    ensures n <= |messages|
  {
    if messages == [] || !Answers(messages[0], calls) then 0 else 1 + AnswerCount(messages[1..], calls)
  }

  function ChunkLength(messages: seq<Message>): (n: nat)
    requires messages != []
    ensures 1 <= n <= |messages|
  {
    if OpensGroup(messages[0]) then 1 + AnswerCount(messages[1..], messages[0].toolCalls) else 1
  }

  function Chunks(messages: seq<Message>): seq<seq<Message>> {
    if messages == [] then []
    else [messages[..ChunkLength(messages)]] + Chunks(messages[ChunkLength(messages)..])
  }

  /** A lone message, or a tool-calling message followed by answers to its calls. */
  predicate IsChunk(c: seq<Message>) {
    c != [] && (if OpensGroup(c[0]) then AnswerCount(c[1..], c[0].toolCalls) == |c| - 1 else |c| == 1)
  }

  method ChunkConversationMessages(messages: seq<Message>) returns (chunks: seq<seq<Message>>)
    ensures chunks == Chunks(messages)
  {
    chunks := [];
    var i := 0;
    while i < |messages|
      invariant i <= |messages| && Chunks(messages) == chunks + Chunks(messages[i..])
    {
      var j := i + 1;
      if OpensGroup(messages[i]) {
        j := SkipAnswers(messages, j, messages[i].toolCalls);
      }
      ChunksStep(messages, i, j);
      Associate(chunks, [messages[i..j]], Chunks(messages[j..]));
      chunks := chunks + [messages[i..j]];
      i := j;
    }
  }

  /** Advances over the results that answer one of the calls. */
  method SkipAnswers(messages: seq<Message>, from: nat, calls: seq<ToolCall>) returns (j: nat)
    requires from <= |messages|
    ensures j == from + AnswerCount(messages[from..], calls)
  {
    j := from;
    while j < |messages| && Answers(messages[j], calls)
      invariant from <= j <= |messages|
      invariant AnswerCount(messages[from..], calls) == j - from + AnswerCount(messages[j..], calls)
    {
      assert messages[j..][1..] == messages[j + 1..];
      j := j + 1;
    }
  }

  lemma ChunksStep(messages: seq<Message>, i: nat, j: nat)
    requires i < |messages|
    requires j == i + 1 + if OpensGroup(messages[i]) then AnswerCount(messages[i + 1..], messages[i].toolCalls) else 0
    ensures j <= |messages| && Chunks(messages[i..]) == [messages[i..j]] + Chunks(messages[j..])
  {
    var rest := messages[i..];
    assert rest[1..] == messages[i + 1..];
    assert rest[..j - i] == messages[i..j] && rest[j - i..] == messages[j..];
  }

  lemma {:induction false} AnswerCountPrefix(messages: seq<Message>, n: nat, calls: seq<ToolCall>)
    requires n <= AnswerCount(messages, calls)
    ensures AnswerCount(messages[..n], calls) == n
  {
    if n > 0 {
      AnswerCountPrefix(messages[1..], n - 1, calls);
      assert messages[..n][1..] == messages[1..][..n - 1];
    }
  }

  lemma {:induction false} AnswerCountConcat(a: seq<Message>, b: seq<Message>, calls: seq<ToolCall>)
    requires AnswerCount(a, calls) == |a|
    ensures AnswerCount(a + b, calls) == |a| + AnswerCount(b, calls)
  {
    if a == [] {
      assert a + b == b;
    } else {
      AnswerCountConcat(a[1..], b, calls);
      assert (a + b)[1..] == a[1..] + b;
    }
  }

  lemma FirstIsChunk(messages: seq<Message>)
    requires messages != []
    ensures IsChunk(messages[..ChunkLength(messages)])
  {
    var n := ChunkLength(messages);
    if OpensGroup(messages[0]) {
      AnswerCountPrefix(messages[1..], n - 1, messages[0].toolCalls);
      assert messages[..n][1..] == messages[1..][..n - 1];
    }
  }

  /** Chunking loses nothing. */
  lemma {:induction false} FlattenOfChunks(messages: seq<Message>)
    ensures Flatten(Chunks(messages)) == messages
    decreases |messages|
  {
    if messages != [] {
      var n := ChunkLength(messages);
      FlattenOfChunks(messages[n..]);
      FlattenCons(messages[..n], Chunks(messages[n..]));
      assert messages == messages[..n] + messages[n..];
    }
  }

  lemma {:induction false} ChunksAreChunks(messages: seq<Message>)
    ensures forall i :: 0 <= i < |Chunks(messages)| ==> IsChunk(Chunks(messages)[i])
    decreases |messages|
  {
    if messages != [] {
      var n := ChunkLength(messages);
      FirstIsChunk(messages);
      ChunksAreChunks(messages[n..]);
    }
  }

  /**
    A tool-calling message and the results that answer its calls, wherever they stand in a
    conversation, are in one chunk: the chunk that starts at the message contains them all.
   */
  lemma GroupStaysTogether(before: seq<Message>, group: seq<Message>, after: seq<Message>)
    requires IsChunk(group) && OpensGroup(group[0])
    ensures exists i :: 0 <= i < |Chunks(before + group + after)| && group <= Chunks(before + group + after)[i]
                        && Flatten(Chunks(before + group + after)[..i]) == before
  {
    var i := ChunkOfGroup(before, group, after);
  }

  lemma {:induction false} ChunkOfGroup(before: seq<Message>, group: seq<Message>, after: seq<Message>) returns (i: nat)
    requires IsChunk(group) && OpensGroup(group[0])
    ensures var chunks := Chunks(before + group + after);
            i < |chunks| && group <= chunks[i] && Flatten(chunks[..i]) == before
    decreases |before|
  {
    var all := before + group + after;
    if before == [] {
      assert all == group + after;
      GroupIsFirst(group, after);
      i := 0;
    } else {
      var n := ChunkLength(all);
      ChunkStopsAtGroup(before, group, after);
      var k := ChunkOfGroup(before[n..], group, after);
      DropFront(before, group, after, n);
      FirstPart(before, n, Chunks(all[n..]), k);
      i := k + 1;
    }
  }

  lemma DropFront<T>(a: seq<T>, b: seq<T>, c: seq<T>, n: nat)
    requires n <= |a|
    ensures (a + b + c)[n..] == a[n..] + b + c && (a + b + c)[..n] == a[..n]
  {
  }

  lemma GroupIsFirst(group: seq<Message>, after: seq<Message>)
    requires IsChunk(group) && OpensGroup(group[0])
    ensures group <= Chunks(group + after)[0]
  {
    assert (group + after)[1..] == group[1..] + after;
    AnswerCountConcat(group[1..], after, group[0].toolCalls);
  }

  lemma FirstPart(before: seq<Message>, n: nat, rest: seq<seq<Message>>, i: nat)
    requires n <= |before| && i < |rest| && Flatten(rest[..i]) == before[n..]
    ensures Flatten(([before[..n]] + rest)[..i + 1]) == before && ([before[..n]] + rest)[i + 1] == rest[i]
  {
    var parts := ([before[..n]] + rest)[..i + 1];
    assert parts[1..] == rest[..i] && parts[0] == before[..n];
    assert before[..n] + before[n..] == before;
  }

  lemma ChunkStopsAtGroup(before: seq<Message>, group: seq<Message>, after: seq<Message>)
    requires before != [] && group != [] && group[0].role != Tool
    ensures ChunkLength(before + group + after) <= |before|
  {
    var all := before + group + after;
    assert all[0] == before[0];
    if OpensGroup(all[0]) {
      assert all[1..] == before[1..] + group + after;
      AnswersStopAt(before[1..], group, after, all[0].toolCalls);
    }
  }

  lemma {:induction false} AnswersStopAt(before: seq<Message>, group: seq<Message>, after: seq<Message>,
                                         calls: seq<ToolCall>)
    requires group != [] && group[0].role != Tool
    ensures AnswerCount(before + group + after, calls) <= |before|
  {
    var all := before + group + after;
    if before != [] && Answers(all[0], calls) {
      assert all[1..] == before[1..] + group + after;
      AnswersStopAt(before[1..], group, after, calls);
    }
  }

  // --- Re-chunking a selection of chunks ---

  /** Every part of `coarse` is a run of consecutive parts of `fine`. */
  ghost predicate Coarsens<T(!new)>(coarse: seq<seq<T>>, fine: seq<seq<T>>)
    decreases |coarse|
  {
    if coarse == [] then fine == []
    else exists k :: 1 <= k <= |fine| && coarse[0] == Flatten(fine[..k]) && Coarsens(coarse[1..], fine[k..])
  }

  /** A run of answers swallows whole chunks only. */
  lemma {:induction false} AnswersSwallowChunks(chunks: seq<seq<Message>>, calls: seq<ToolCall>) returns (k: nat)
    requires forall i :: 0 <= i < |chunks| ==> IsChunk(chunks[i])
    ensures k <= |chunks| && AnswerCount(Flatten(chunks), calls) == |Flatten(chunks[..k])|
  {
    k := 0;
    if chunks != [] {
      var all := Flatten(chunks);
      assert all[0] == chunks[0][0];
      if Answers(all[0], calls) {
        assert all[1..] == Flatten(chunks[1..]);
        var rest := AnswersSwallowChunks(chunks[1..], calls);
        k := rest + 1;
        assert chunks[..k] == [chunks[0]] + chunks[1..][..rest];
        assert ([chunks[0]] + chunks[1..][..rest])[1..] == chunks[1..][..rest];
      }
    }
  }

  lemma FirstChunkSwallows(chunks: seq<seq<Message>>) returns (k: nat)
    requires chunks != [] && forall i :: 0 <= i < |chunks| ==> IsChunk(chunks[i])
    ensures 1 <= k <= |chunks| && Flatten(chunks) != [] && ChunkLength(Flatten(chunks)) == |Flatten(chunks[..k])|
  {
    var first, rest := chunks[0], chunks[1..];
    var all := Flatten(chunks);
    assert all[0] == first[0] && all[1..] == first[1..] + Flatten(rest);
    k := 1;
    if OpensGroup(first[0]) {
      var more := AnswersSwallowChunks(rest, first[0].toolCalls);
      AnswerCountConcat(first[1..], Flatten(rest), first[0].toolCalls);
      k := more + 1;
      assert chunks[..k] == [first] + rest[..more] && ([first] + rest[..more])[1..] == rest[..more];
    } else {
      assert chunks[..1] == [first];
      FlattenOne(first);
    }
  }

  /** Chunking a selection of chunks again may join some of them, but splits none. */
  lemma {:induction false} RechunkCoarsens(chunks: seq<seq<Message>>)
    requires forall i :: 0 <= i < |chunks| ==> IsChunk(chunks[i])
    ensures Coarsens(Chunks(Flatten(chunks)), chunks)
    decreases |chunks|
  {
    if chunks != [] {
      var all := Flatten(chunks);
      var k := FirstChunkSwallows(chunks);
      assert chunks == chunks[..k] + chunks[k..];
      FlattenConcat(chunks[..k], chunks[k..]);
      var n := ChunkLength(all);
      assert all[..n] == Flatten(chunks[..k]) && all[n..] == Flatten(chunks[k..]);
      RechunkCoarsens(chunks[k..]);
      assert Chunks(all)[0] == Flatten(chunks[..k]) && Chunks(all)[1..] == Chunks(all[n..]);
    }
  }

  // --- Topics ---

  /** The first tag in the chunk that is not blank. */
  function ChunkTopicTag(chunk: seq<Message>): string {
    if chunk == [] then ""
    else if TrimSpace(chunk[0].topicTag) != "" then chunk[0].topicTag
    else ChunkTopicTag(chunk[1..])
  }

  predicate IsCurrent(chunk: seq<Message>, topic: string) {
    ChunkTopicTag(chunk) == "" || ChunkTopicTag(chunk) == topic
  }

  datatype TopicBlock = TopicBlock(tag: string, messages: seq<Message>, firstUserContent: string)

  /** The chunks on one side of the split, in order. */
  function Side(chunks: seq<seq<Message>>, topic: string, current: bool): seq<seq<Message>> {
    if chunks == [] then []
    else if IsCurrent(chunks[0], topic) == current then [chunks[0]] + Side(chunks[1..], topic, current)
    else Side(chunks[1..], topic, current)
  }

  function FirstUserContent(messages: seq<Message>): string {
    if messages == [] then ""
    else if messages[0].role == User && messages[0].content != "" then messages[0].content
    else FirstUserContent(messages[1..])
  }

  /** How many chunks at the front carry the given off-topic tag. */
  function RunOf(chunks: seq<seq<Message>>, topic: string, tag: string): (n: nat)
    ensures n <= |chunks|
  {
    if chunks == [] || IsCurrent(chunks[0], topic) || ChunkTopicTag(chunks[0]) != tag then 0
    else 1 + RunOf(chunks[1..], topic, tag)
  }

  function BlockOf(chunks: seq<seq<Message>>, tag: string): TopicBlock {
    TopicBlock(tag, Flatten(chunks), FirstUserContent(Flatten(chunks)))
  }

  /** The off-topic blocks: the maximal runs of consecutive off-topic chunks with one tag. */
  function Blocks(chunks: seq<seq<Message>>, topic: string): seq<TopicBlock>
    decreases |chunks|
  {
    if chunks == [] then []
    else if IsCurrent(chunks[0], topic) then Blocks(chunks[1..], topic)
    else
      var tag := ChunkTopicTag(chunks[0]);
      var n := RunOf(chunks, topic, tag);
      [BlockOf(chunks[..n], tag)] + Blocks(chunks[n..], topic)
  }

  lemma {:induction false} FirstUserContentConcat(a: seq<Message>, b: seq<Message>)
    ensures FirstUserContent(a + b) == if FirstUserContent(a) != "" then FirstUserContent(a) else FirstUserContent(b)
  {
    if a == [] {
      assert a + b == b;
    } else {
      FirstUserContentConcat(a[1..], b);
      assert (a + b)[1..] == a[1..] + b;
    }
  }

  method NoteUserContent(chunk: seq<Message>, known: string) returns (first: string)
    ensures first == if known != "" then known else FirstUserContent(chunk)
  {
    first := known;
    for k := 0 to |chunk|
      invariant (if known != "" then known else FirstUserContent(chunk)) ==
                (if first != "" then first else FirstUserContent(chunk[k..]))
    {
      assert chunk[k..][1..] == chunk[k + 1..];
      if chunk[k].role == User && first == "" {
        first := chunk[k].content;
      }
    }
  }

  /** All chunks are off-topic and carry the tag. */
  ghost predicate AllTagged(chunks: seq<seq<Message>>, topic: string, tag: string) {
    forall k :: 0 <= k < |chunks| ==> !IsCurrent(chunks[k], topic) && ChunkTopicTag(chunks[k]) == tag
  }

  /** A run of one tag that the next chunk, if any, does not continue is a block. */
  lemma {:induction false} RunIsBlock(run: seq<seq<Message>>, rest: seq<seq<Message>>, topic: string, tag: string)
    requires AllTagged(run, topic, tag)
    requires rest != [] ==> IsCurrent(rest[0], topic) || ChunkTopicTag(rest[0]) != tag
    ensures RunOf(run + rest, topic, tag) == |run|
  {
    if run == [] {
      assert run + rest == rest;
    } else {
      RunIsBlock(run[1..], rest, topic, tag);
      assert (run + rest)[1..] == run[1..] + rest;
    }
  }

  lemma BlocksStep(run: seq<seq<Message>>, rest: seq<seq<Message>>, topic: string, tag: string)
    requires run != [] && AllTagged(run, topic, tag)
    requires rest != [] ==> IsCurrent(rest[0], topic) || ChunkTopicTag(rest[0]) != tag
    ensures Blocks(run + rest, topic) == [BlockOf(run, tag)] + Blocks(rest, topic)
  {
    RunIsBlock(run, rest, topic, tag);
    assert (run + rest)[..|run|] == run && (run + rest)[|run|..] == rest;
  }

  lemma BlockGrows(run: seq<seq<Message>>, chunk: seq<Message>, tag: string)
    ensures BlockOf(run + [chunk], tag) ==
            TopicBlock(tag, Flatten(run) + chunk,
                       if FirstUserContent(Flatten(run)) != "" then FirstUserContent(Flatten(run))
                         else FirstUserContent(chunk))
  {
    FlattenConcat(run, [chunk]);
    FlattenOne(chunk);
    FirstUserContentConcat(Flatten(run), chunk);
  }

  /** After `i` chunks: what is collected and what is to come make up the current side. */
  ghost predicate Collected(all: seq<Message>, chunks: seq<seq<Message>>, topic: string, i: nat, current: seq<Message>)
    requires i <= |chunks|
  {
    all == current + Flatten(Side(chunks[i..], topic, true))
  }

  lemma CollectNext(all: seq<Message>, chunks: seq<seq<Message>>, topic: string, i: nat, current: seq<Message>)
    requires i < |chunks| && Collected(all, chunks, topic, i, current)
    ensures Collected(all, chunks, topic, i + 1, if IsCurrent(chunks[i], topic) then current + chunks[i] else current)
  {
    var rest := Side(chunks[i + 1..], topic, true);
    assert chunks[i..][1..] == chunks[i + 1..];
    if IsCurrent(chunks[i], topic) {
      assert ([chunks[i]] + rest)[1..] == rest;
      Associate(current, chunks[i], Flatten(rest));
    }
  }

  /** After `i` chunks: the finished blocks, and the open one, which began at chunk `start`. */
  ghost predicate Blocked(whole: seq<TopicBlock>, chunks: seq<seq<Message>>, topic: string, start: nat, i: nat,
                          blocks: seq<TopicBlock>, open: bool, block: TopicBlock)
    requires start <= i <= |chunks|
  {
    && whole == blocks + Blocks(chunks[start..], topic) && (start < i <==> open)
    && (open ==> AllTagged(chunks[start..i], topic, block.tag) && block == BlockOf(chunks[start..i], block.tag))
  }

  lemma CloseBlock(whole: seq<TopicBlock>, chunks: seq<seq<Message>>, topic: string, start: nat, i: nat,
                   blocks: seq<TopicBlock>, block: TopicBlock)
    requires start <= i <= |chunks| && Blocked(whole, chunks, topic, start, i, blocks, true, block)
    requires i < |chunks| ==> IsCurrent(chunks[i], topic) || ChunkTopicTag(chunks[i]) != block.tag
    ensures Blocked(whole, chunks, topic, i, i, blocks + [block], false, block)
  {
    assert chunks[start..] == chunks[start..i] + chunks[i..];
    BlocksStep(chunks[start..i], chunks[i..], topic, block.tag);
    Associate(blocks, [block], Blocks(chunks[i..], topic));
  }

  lemma SkipChunk(whole: seq<TopicBlock>, chunks: seq<seq<Message>>, topic: string, i: nat, blocks: seq<TopicBlock>,
                  block: TopicBlock)
    requires i < |chunks| && IsCurrent(chunks[i], topic) && Blocked(whole, chunks, topic, i, i, blocks, false, block)
    ensures Blocked(whole, chunks, topic, i + 1, i + 1, blocks, false, block)
  {
    assert chunks[i..][1..] == chunks[i + 1..];
  }

  lemma GrowBlock(whole: seq<TopicBlock>, chunks: seq<seq<Message>>, topic: string, start: nat, i: nat,
                  blocks: seq<TopicBlock>, open: bool, block: TopicBlock, grown: TopicBlock)
    requires start <= i < |chunks| && !IsCurrent(chunks[i], topic)
             && Blocked(whole, chunks, topic, start, i, blocks, open, block)
    requires open ==> ChunkTopicTag(chunks[i]) == block.tag
    requires var first := if open then block.firstUserContent else "";
             grown == TopicBlock(ChunkTopicTag(chunks[i]), (if open then block.messages else []) + chunks[i],
                                 if first != "" then first else FirstUserContent(chunks[i]))
    ensures Blocked(whole, chunks, topic, start, i + 1, blocks, true, grown)
  {
    assert chunks[start..i + 1] == chunks[start..i] + [chunks[i]];
    BlockGrows(chunks[start..i], chunks[i], ChunkTopicTag(chunks[i]));
  }

  /** Finishes the open block when the next chunk does not belong to it. */
  method CloseIfOther(ghost whole: seq<TopicBlock>, chunks: seq<seq<Message>>, topic: string, ghost start: nat, i: nat,
                      blocks: seq<TopicBlock>, open: bool, block: TopicBlock)
    returns (closed: seq<TopicBlock>, still: bool, ghost from: nat)
    requires start <= i < |chunks| && Blocked(whole, chunks, topic, start, i, blocks, open, block)
    ensures from <= i && Blocked(whole, chunks, topic, from, i, closed, still, block)
    ensures still ==> !IsCurrent(chunks[i], topic) && ChunkTopicTag(chunks[i]) == block.tag
  {
    if open && (IsCurrent(chunks[i], topic) || block.tag != ChunkTopicTag(chunks[i])) {
      CloseBlock(whole, chunks, topic, start, i, blocks, block);
      return blocks + [block], false, i;
    }
    return blocks, open, start;
  }

  /** Adds an off-topic chunk to the open block, or opens one with it. */
  method Grow(ghost whole: seq<TopicBlock>, chunks: seq<seq<Message>>, topic: string, ghost start: nat, i: nat,
              ghost blocks: seq<TopicBlock>, open: bool, block: TopicBlock) returns (grown: TopicBlock)
    requires start <= i < |chunks| && !IsCurrent(chunks[i], topic)
             && Blocked(whole, chunks, topic, start, i, blocks, open, block)
    requires open ==> ChunkTopicTag(chunks[i]) == block.tag
    ensures Blocked(whole, chunks, topic, start, i + 1, blocks, true, grown)
  {
    var base := if open then block else TopicBlock(ChunkTopicTag(chunks[i]), [], "");
    var first := NoteUserContent(chunks[i], base.firstUserContent);
    grown := TopicBlock(ChunkTopicTag(chunks[i]), base.messages + chunks[i], first);
    GrowBlock(whole, chunks, topic, start, i, blocks, open, block, grown);
  }

  /** Puts the next chunk on its side. */
  method PlaceChunk(ghost all: seq<Message>, ghost whole: seq<TopicBlock>, chunks: seq<seq<Message>>, topic: string,
                    ghost start: nat, i: nat,
                    current: seq<Message>, blocks: seq<TopicBlock>, open: bool, block: TopicBlock)
    returns (newCurrent: seq<Message>, newBlocks: seq<TopicBlock>, newOpen: bool, newBlock: TopicBlock, ghost from: nat)
    requires start <= i < |chunks| && Collected(all, chunks, topic, i, current)
    requires Blocked(whole, chunks, topic, start, i, blocks, open, block)
    ensures from <= i + 1 && Collected(all, chunks, topic, i + 1, newCurrent)
    ensures Blocked(whole, chunks, topic, from, i + 1, newBlocks, newOpen, newBlock)
  {
    CollectNext(all, chunks, topic, i, current);
    newBlocks, newOpen, from := CloseIfOther(whole, chunks, topic, start, i, blocks, open, block);
    if IsCurrent(chunks[i], topic) {
      SkipChunk(whole, chunks, topic, i, newBlocks, block);
      newCurrent, newBlock, from := current + chunks[i], block, i + 1;
    } else {
      newBlock := Grow(whole, chunks, topic, from, i, newBlocks, newOpen, block);
      newCurrent, newOpen := current, true;
    }
  }

  /** Splits chunks into the current side and the off-topic blocks. */
  method PartitionChunks(chunks: seq<seq<Message>>, topic: string)
    returns (current: seq<Message>, blocks: seq<TopicBlock>)
    ensures current == Flatten(Side(chunks, topic, true)) && blocks == Blocks(chunks, topic)
  {
    current, blocks := [], [];
    var block, open := TopicBlock("", [], ""), false;
    ghost var start: nat := 0;
    ghost var all, whole := Flatten(Side(chunks, topic, true)), Blocks(chunks, topic);
    NonePlaced(all, whole, chunks, topic, block);
    for i := 0 to |chunks|
      invariant start <= i && Collected(all, chunks, topic, i, current)
                && Blocked(whole, chunks, topic, start, i, blocks, open, block)
    {
      current, blocks, open, block, start := PlaceChunk(all, whole, chunks, topic, start, i, current, blocks, open,
                                                        block);
    }
    if open {
      CloseBlock(whole, chunks, topic, start, |chunks|, blocks, block);
      blocks := blocks + [block];
    }
    AllPlaced(all, whole, chunks, topic, current, blocks, block);
  }

  lemma AllPlaced(all: seq<Message>, whole: seq<TopicBlock>, chunks: seq<seq<Message>>, topic: string,
                  current: seq<Message>, blocks: seq<TopicBlock>, block: TopicBlock)
    requires Collected(all, chunks, topic, |chunks|, current)
    requires Blocked(whole, chunks, topic, |chunks|, |chunks|, blocks, false, block)
    ensures all == current && whole == blocks
  {
    assert chunks[|chunks|..] == [];
  }

  lemma NonePlaced(all: seq<Message>, whole: seq<TopicBlock>, chunks: seq<seq<Message>>, topic: string,
                   block: TopicBlock)
    requires all == Flatten(Side(chunks, topic, true)) && whole == Blocks(chunks, topic)
    ensures Collected(all, chunks, topic, 0, []) && Blocked(whole, chunks, topic, 0, 0, [], false, block)
  {
    assert chunks[0..] == chunks;
  }

  /** Splits the conversation; an empty topic keeps everything. */
  method PartitionByTopic(messages: seq<Message>, topic: string)
    returns (current: seq<Message>, blocks: seq<TopicBlock>)
    ensures topic == "" ==> current == messages && blocks == []
    ensures topic != "" ==>
              current == Flatten(Side(Chunks(messages), topic, true)) && blocks == Blocks(Chunks(messages), topic)
  {
    if topic == "" {
      return messages, [];
    }
    var chunks := ChunkConversationMessages(messages);
    current, blocks := PartitionChunks(chunks, topic);
  }

  // --- What the split keeps ---

  ghost predicate IsSubsequence<T(!new)>(a: seq<T>, b: seq<T>)
    decreases |b|
  {
    a == [] || (b != [] && ((a[0] == b[0] && IsSubsequence(a[1..], b[1..])) || IsSubsequence(a, b[1..])))
  }

  lemma {:induction false} SubsequenceGrows<T(!new)>(front: seq<T>, a: seq<T>, b: seq<T>)
    requires IsSubsequence(a, b)
    ensures IsSubsequence(a, front + b) && IsSubsequence(front + a, front + b)
  {
    if front == [] {
      assert front + a == a && front + b == b;
    } else {
      SubsequenceGrows(front[1..], a, b);
      assert (front + a)[1..] == front[1..] + a && (front + b)[1..] == front[1..] + b;
    }
  }

  lemma {:induction false} SideIsSubsequence(chunks: seq<seq<Message>>, topic: string, current: bool)
    ensures IsSubsequence(Flatten(Side(chunks, topic, current)), Flatten(chunks))
  {
    if chunks != [] {
      SideIsSubsequence(chunks[1..], topic, current);
      var rest := Side(chunks[1..], topic, current);
      SubsequenceGrows(chunks[0], Flatten(rest), Flatten(chunks[1..]));
      assert ([chunks[0]] + rest)[1..] == rest;
    }
  }

  lemma {:induction false} SidesArePermutation(chunks: seq<seq<Message>>, topic: string)
    ensures multiset(Flatten(Side(chunks, topic, true))) + multiset(Flatten(Side(chunks, topic, false))) ==
            multiset(Flatten(chunks))
  {
    if chunks != [] {
      SidesArePermutation(chunks[1..], topic);
      var side := IsCurrent(chunks[0], topic);
      var rest := Side(chunks[1..], topic, side);
      assert ([chunks[0]] + rest)[1..] == rest;
      assert multiset(chunks[0] + Flatten(rest)) == multiset(chunks[0]) + multiset(Flatten(rest));
      assert multiset(chunks[0] + Flatten(chunks[1..])) == multiset(chunks[0]) + multiset(Flatten(chunks[1..]));
    }
  }

  function BlockMessages(blocks: seq<TopicBlock>): seq<Message> {
    if blocks == [] then [] else blocks[0].messages + BlockMessages(blocks[1..])
  }

  lemma {:induction false} RunIsTagged(chunks: seq<seq<Message>>, topic: string, tag: string)
    ensures AllTagged(chunks[..RunOf(chunks, topic, tag)], topic, tag)
  {
    if chunks != [] && !IsCurrent(chunks[0], topic) && ChunkTopicTag(chunks[0]) == tag {
      RunIsTagged(chunks[1..], topic, tag);
      var n := RunOf(chunks[1..], topic, tag);
      assert chunks[..n + 1] == [chunks[0]] + chunks[1..][..n];
    }
  }

  lemma OffSideCons(first: seq<Message>, rest: seq<seq<Message>>, topic: string)
    requires !IsCurrent(first, topic)
    ensures Side([first] + rest, topic, false) == [first] + Side(rest, topic, false)
  {
    assert ([first] + rest)[1..] == rest;
  }

  lemma {:induction false} SideOfTagged(run: seq<seq<Message>>, rest: seq<seq<Message>>, topic: string, tag: string)
    requires AllTagged(run, topic, tag)
    ensures Side(run + rest, topic, false) == run + Side(rest, topic, false)
  {
    if run == [] {
      assert run + rest == rest;
    } else {
      SideOfTagged(run[1..], rest, topic, tag);
      OffSideCons(run[0], run[1..] + rest, topic);
      FirstAndRest(run, rest);
      FirstAndRest(run, Side(rest, topic, false));
    }
  }

  /** The blocks hold the off-topic messages, in order. */
  lemma {:induction false} BlocksHoldOffTopic(chunks: seq<seq<Message>>, topic: string)
    ensures BlockMessages(Blocks(chunks, topic)) == Flatten(Side(chunks, topic, false))
    decreases |chunks|
  {
    if chunks != [] {
      if IsCurrent(chunks[0], topic) {
        BlocksHoldOffTopic(chunks[1..], topic);
      } else {
        var tag := ChunkTopicTag(chunks[0]);
        var n := RunOf(chunks, topic, tag);
        RunIsTagged(chunks, topic, tag);
        assert chunks == chunks[..n] + chunks[n..];
        SideOfTagged(chunks[..n], chunks[n..], topic, tag);
        FlattenConcat(chunks[..n], Side(chunks[n..], topic, false));
        BlocksHoldOffTopic(chunks[n..], topic);
        assert Blocks(chunks, topic)[1..] == Blocks(chunks[n..], topic);
      }
    }
  }

  /** A block is a non-empty run of consecutive chunks that all carry its tag, which is not the topic. */
  ghost predicate BlockOk(block: TopicBlock, chunks: seq<seq<Message>>, topic: string) {
    exists i, j :: 0 <= i < j <= |chunks| && IsRun(block, chunks[i..j], topic)
  }

  ghost predicate IsRun(block: TopicBlock, run: seq<seq<Message>>, topic: string) {
    block.tag != "" && block.tag != topic && AllTagged(run, topic, block.tag) && block == BlockOf(run, block.tag)
  }

  lemma FirstBlockOk(chunks: seq<seq<Message>>, topic: string)
    requires chunks != [] && !IsCurrent(chunks[0], topic)
    ensures var n := RunOf(chunks, topic, ChunkTopicTag(chunks[0]));
            n > 0 && IsRun(Blocks(chunks, topic)[0], chunks[..n], topic)
  {
    RunIsTagged(chunks, topic, ChunkTopicTag(chunks[0]));
  }

  /** Where the chunks of the first block or the first current chunk end. */
  function Beyond(chunks: seq<seq<Message>>, topic: string, from: nat): nat
    requires from < |chunks|
  {
    if IsCurrent(chunks[from], topic) then from + 1
    else from + RunOf(chunks[from..], topic, ChunkTopicTag(chunks[from]))
  }

  lemma BlocksUnfold(chunks: seq<seq<Message>>, topic: string)
    requires chunks != []
    ensures var n := Beyond(chunks, topic, 0); var blocks := Blocks(chunks, topic);
            0 < n <= |chunks| &&
            if IsCurrent(chunks[0], topic) then blocks == Blocks(chunks[n..], topic)
            else blocks != [] && blocks[1..] == Blocks(chunks[n..], topic) && IsRun(blocks[0], chunks[..n], topic)
  {
    assert chunks[0..] == chunks;
    if !IsCurrent(chunks[0], topic) {
      FirstBlockOk(chunks, topic);
    }
  }

  lemma BlocksBeyond(chunks: seq<seq<Message>>, topic: string, from: nat)
    requires from < |chunks|
    ensures var next, blocks := Beyond(chunks, topic, from), Blocks(chunks[from..], topic);
            from < next <= |chunks| &&
            if IsCurrent(chunks[from], topic) then blocks == Blocks(chunks[next..], topic)
            else
              blocks != [] && blocks[1..] == Blocks(chunks[next..], topic)
              && IsRun(blocks[0], chunks[from..next], topic)
  {
    var rest := chunks[from..];
    BlocksUnfold(rest, topic);
    assert rest[0..] == rest;
    SliceOfSlice(chunks, from, Beyond(rest, topic, 0));
  }

  lemma {:induction false} BlockIsRun(chunks: seq<seq<Message>>, topic: string, from: nat, k: nat)
    returns (i: nat, j: nat)
    requires from <= |chunks| && k < |Blocks(chunks[from..], topic)|
    ensures i < j <= |chunks| && IsRun(Blocks(chunks[from..], topic)[k], chunks[i..j], topic)
    decreases |chunks| - from
  {
    var next := Beyond(chunks, topic, from);
    BlocksBeyond(chunks, topic, from);
    if IsCurrent(chunks[from], topic) {
      i, j := BlockIsRun(chunks, topic, next, k);
    } else if k == 0 {
      i, j := from, next;
    } else {
      i, j := BlockIsRun(chunks, topic, next, k - 1);
    }
  }

  /**
    The split conserves the conversation: the two sides together are a permutation of it, each in
    its order, and the off-topic side consists of blocks.
   */
  lemma PartitionConserves(messages: seq<Message>, topic: string)
    ensures var chunks := Chunks(messages);
            var current, off := Flatten(Side(chunks, topic, true)), BlockMessages(Blocks(chunks, topic));
            && multiset(current) + multiset(off) == multiset(messages)
            && IsSubsequence(current, messages) && IsSubsequence(off, messages)
            && forall k :: 0 <= k < |Blocks(chunks, topic)| ==> BlockOk(Blocks(chunks, topic)[k], chunks, topic)
  {
    var chunks := Chunks(messages);
    FlattenOfChunks(messages);
    SidesArePermutation(chunks, topic);
    SideIsSubsequence(chunks, topic, true);
    SideIsSubsequence(chunks, topic, false);
    BlocksHoldOffTopic(chunks, topic);
    forall k | 0 <= k < |Blocks(chunks, topic)| ensures BlockOk(Blocks(chunks, topic)[k], chunks, topic) {
      assert chunks[0..] == chunks;
      var i, j := BlockIsRun(chunks, topic, 0, k);
    }
  }

  lemma {:induction false} SideOfChunks(chunks: seq<seq<Message>>, topic: string, current: bool)
    requires forall i :: 0 <= i < |chunks| ==> IsChunk(chunks[i])
    ensures forall i :: 0 <= i < |Side(chunks, topic, current)| ==> IsChunk(Side(chunks, topic, current)[i])
  {
    if chunks != [] {
      SideOfChunks(chunks[1..], topic, current);
    }
  }

  /** Chunking the current side again splits no chunk of the conversation. */
  lemma CurrentSideRechunks(messages: seq<Message>, topic: string)
    ensures Coarsens(Chunks(Flatten(Side(Chunks(messages), topic, true))), Side(Chunks(messages), topic, true))
  {
    ChunksAreChunks(messages);
    SideOfChunks(Chunks(messages), topic, true);
    RechunkCoarsens(Side(Chunks(messages), topic, true));
  }
}
