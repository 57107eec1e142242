/**
  Conversations in which every tool-calling message is followed at once by its results, as the loop leaves
  them; chunking such a conversation takes it apart into exactly these groups.
 */
module CallGroups {
  import opened Text
  import opened Conversation

  predicate AnswersCall(m: Message, call: ToolCall) {
    m.role == Tool && m.toolCallId == call.id && m.name == call.name
  }

  predicate AnswersInOrder(results: seq<Message>, calls: seq<ToolCall>) {
    |results| == |calls| && forall k :: 0 <= k < |calls| ==> AnswersCall(results[k], calls[k])
  }

  /**
    Every tool-calling message is followed at once by one result per call, in order, and no result
    stands elsewhere.
   */
  predicate WellGrouped(ms: seq<Message>)
    decreases |ms|
  {
    ms == [] || (ms[0].role != Tool && (
      if OpensGroup(ms[0]) then
        var n := |ms[0].toolCalls|;
        n < |ms| && AnswersInOrder(ms[1..n + 1], ms[0].toolCalls) && WellGrouped(ms[n + 1..])
      else WellGrouped(ms[1..])))
  }

  lemma {:induction false} WellGroupedConcat(a: seq<Message>, b: seq<Message>)
    requires WellGrouped(a) && WellGrouped(b)
    ensures WellGrouped(a + b)
    decreases |a|
  {
    if a == [] {
      assert a + b == b;
    } else if OpensGroup(a[0]) {
      var n := |a[0].toolCalls|;
      WellGroupedConcat(a[n + 1..], b);
      ConcatSlices(a, b, n + 1);
    } else {
      WellGroupedConcat(a[1..], b);
      assert (a + b)[1..] == a[1..] + b;
    }
  }

  lemma ConcatSlices<T>(a: seq<T>, b: seq<T>, n: nat)
    requires 1 <= n <= |a|
    ensures (a + b)[0] == a[0] && (a + b)[1..n] == a[1..n] && (a + b)[n..] == a[n..] + b
  {
  }

  lemma AppendPlain(ms: seq<Message>, m: Message)
    requires WellGrouped(ms) && m.role != Tool && !OpensGroup(m)
    ensures WellGrouped(ms + [m])
  {
    assert [m][1..] == [];
    WellGroupedConcat(ms, [m]);
  }

  lemma {:induction false} AllAnswer(results: seq<Message>, answered: seq<ToolCall>, calls: seq<ToolCall>)
    requires AnswersInOrder(results, answered) && forall k :: 0 <= k < |answered| ==> answered[k] in calls
    ensures AnswerCount(results, calls) == |results|
  {
    if results != [] {
      AllAnswer(results[1..], answered[1..], calls);
      assert answered[0] in calls;
    }
  }

  /** A result of one of the calls, by its id. */
  predicate NamesOneOf(m: Message, calls: seq<ToolCall>) {
    m.role == Tool && exists k :: 0 <= k < |calls| && calls[k].id == m.toolCallId
  }

  /**
    The first chunk of a conversation: a message with tool calls takes along the results right after it
    that name its calls, and no more; any other message is alone.
   */
  lemma FirstChunkIs(ms: seq<Message>)
    requires ms != []
    ensures var n := ChunkLength(ms);
            && (ms[0].role != Assistant || ms[0].toolCalls == [] ==> n == 1)
            && (forall i :: 1 <= i < n ==> NamesOneOf(ms[i], ms[0].toolCalls))
            && (ms[0].role == Assistant && ms[0].toolCalls != [] && n < |ms| ==> !NamesOneOf(ms[n], ms[0].toolCalls))
            && Chunks(ms) == [ms[..n]] + Chunks(ms[n..])
  {
    CountedAnswers(ms[1..], ms[0].toolCalls);
    var n := ChunkLength(ms);
    forall i | 1 <= i < n ensures NamesOneOf(ms[i], ms[0].toolCalls) {
      assert ms[i] == ms[1..][i - 1];
    }
    assert n < |ms| ==> ms[n] == ms[1..][n - 1];
  }

  lemma {:induction false} CountedAnswers(ms: seq<Message>, calls: seq<ToolCall>)
    ensures var n := AnswerCount(ms, calls);
            (forall i :: 0 <= i < n ==> NamesOneOf(ms[i], calls)) && (n < |ms| ==> !NamesOneOf(ms[n], calls))
  {
    if ms != [] && Answers(ms[0], calls) {
      CountedAnswers(ms[1..], calls);
    }
  }

  // --- Chunks of a well-grouped conversation ---

  ghost predicate AllGrouped(parts: seq<seq<Message>>) {
    forall i :: 0 <= i < |parts| ==> WellGrouped(parts[i])
  }

  lemma LoneIsGrouped(m: Message)
    requires m.role != Tool && !OpensGroup(m)
    ensures WellGrouped([m])
  {
    assert [m][1..] == [];
  }

  lemma GroupIsGrouped(m: Message, results: seq<Message>)
    requires OpensGroup(m) && AnswersInOrder(results, m.toolCalls)
    ensures WellGrouped([m] + results)
  {
    var group := [m] + results;
    assert group[1..|results| + 1] == results && group[|results| + 1..] == [];
  }

  /** A message that is not a result ends the answers. */
  lemma AnswersEnd(results: seq<Message>, rest: seq<Message>, calls: seq<ToolCall>)
    requires AnswersInOrder(results, calls) && (rest != [] ==> rest[0].role != Tool)
    ensures AnswerCount(results + rest, calls) == |results|
  {
    AllAnswer(results, calls, calls);
    AnswerCountConcat(results, rest, calls);
  }

  /** The first chunk of a well-grouped conversation is its first group, or its first message. */
  lemma FirstChunkIsGroup(ms: seq<Message>)
    requires ms != [] && WellGrouped(ms)
    ensures var n := ChunkLength(ms); WellGrouped(ms[..n]) && WellGrouped(ms[n..])
  {
    if OpensGroup(ms[0]) {
      var n := |ms[0].toolCalls|;
      var results, rest := ms[1..n + 1], ms[n + 1..];
      assert ms[1..] == results + rest && ms[..n + 1] == [ms[0]] + results;
      AnswersEnd(results, rest, ms[0].toolCalls);
      GroupIsGrouped(ms[0], results);
    } else {
      assert ms[..1] == [ms[0]];
      LoneIsGrouped(ms[0]);
    }
  }

  lemma {:induction false} ChunksAreGrouped(ms: seq<Message>)
    requires WellGrouped(ms)
    ensures AllGrouped(Chunks(ms))
    decreases |ms|
  {
    if ms != [] {
      FirstChunkIsGroup(ms);
      var n := ChunkLength(ms);
      ChunksAreGrouped(ms[n..]);
      GroupedCons(ms[..n], Chunks(ms[n..]));
    }
  }

  lemma GroupedCons(first: seq<Message>, rest: seq<seq<Message>>)
    requires WellGrouped(first) && AllGrouped(rest)
    ensures AllGrouped([first] + rest)
  {
  }

  lemma {:induction false} FlattenIsGrouped(parts: seq<seq<Message>>)
    requires AllGrouped(parts)
    ensures WellGrouped(Flatten(parts))
  {
    if parts != [] {
      FlattenIsGrouped(parts[1..]);
      WellGroupedConcat(parts[0], Flatten(parts[1..]));
    }
  }

  lemma {:induction false} SideIsGrouped(chunks: seq<seq<Message>>, topic: string, current: bool)
    requires AllGrouped(chunks)
    ensures AllGrouped(Side(chunks, topic, current))
  {
    if chunks != [] {
      SideIsGrouped(chunks[1..], topic, current);
      GroupedCons(chunks[0], Side(chunks[1..], topic, current));
    }
  }

  // --- Results attached to their calls ---

  predicate StartsGroup(ms: seq<Message>) {
    ms == [] || ms[0].role != Tool
  }

  /**
    Every result stands right after a call it answers, with nothing but such results between. A call may
    lack results: acting on it may have been cut short.
   */
  predicate Attached(ms: seq<Message>)
    decreases |ms|
  {
    ms == [] || (ms[0].role != Tool && Attached(ms[ChunkLength(ms)..]))
  }

  lemma {:induction false} AnswersStop(a: seq<Message>, b: seq<Message>, calls: seq<ToolCall>)
    requires StartsGroup(b)
    ensures AnswerCount(a + b, calls) == AnswerCount(a, calls)
  {
    if a == [] {
      assert a + b == b;
    } else if Answers(a[0], calls) {
      AnswersStop(a[1..], b, calls);
      assert (a + b)[1..] == a[1..] + b;
    }
  }

  lemma FirstChunkOfConcat(a: seq<Message>, b: seq<Message>)
    requires a != [] && StartsGroup(b)
    ensures var n := ChunkLength(a); ChunkLength(a + b) == n && (a + b)[..n] == a[..n] && (a + b)[n..] == a[n..] + b
  {
    assert (a + b)[1..] == a[1..] + b;
    AnswersStop(a[1..], b, a[0].toolCalls);
  }

  lemma {:induction false} AttachedConcatIff(a: seq<Message>, b: seq<Message>)
    requires StartsGroup(b)
    ensures Attached(a + b) <==> Attached(a) && Attached(b)
    decreases |a|
  {
    if a == [] {
      assert a + b == b;
    } else {
      FirstChunkOfConcat(a, b);
      AttachedConcatIff(a[ChunkLength(a)..], b);
    }
  }

  /** Results stay with their calls when such conversations are put together. */
  lemma AttachedConcat(a: seq<Message>, b: seq<Message>)
    requires Attached(a) && Attached(b)
    ensures Attached(a + b)
  {
    AttachedConcatIff(a, b);
  }

  lemma FirstOfConcat(a: seq<Message>, b: seq<Message>)
    requires a != [] && StartsGroup(b) && WellGrouped(a + b)
    ensures WellGrouped(a[..ChunkLength(a)]) && WellGrouped(a[ChunkLength(a)..] + b)
  {
    FirstChunkOfConcat(a, b);
    FirstChunkIsGroup(a + b);
  }

  lemma GroupedHalves(ms: seq<Message>, n: nat)
    requires n <= |ms| && WellGrouped(ms[..n]) && WellGrouped(ms[n..])
    ensures WellGrouped(ms)
  {
    WellGroupedConcat(ms[..n], ms[n..]);
    assert ms == ms[..n] + ms[n..];
  }

  lemma {:induction false} GroupedConcatIff(a: seq<Message>, b: seq<Message>)
    requires StartsGroup(b)
    ensures WellGrouped(a + b) <==> WellGrouped(a) && WellGrouped(b)
    decreases |a|
  {
    if a == [] {
      assert a + b == b;
    } else if WellGrouped(a + b) {
      var n := ChunkLength(a);
      FirstOfConcat(a, b);
      GroupedConcatIff(a[n..], b);
      GroupedHalves(a, n);
    } else if WellGrouped(a) && WellGrouped(b) {
      WellGroupedConcat(a, b);
    }
  }

  lemma {:induction false} GroupedIsAttached(ms: seq<Message>)
    requires WellGrouped(ms)
    ensures Attached(ms)
    decreases |ms|
  {
    if ms != [] {
      FirstChunkIsGroup(ms);
      GroupedIsAttached(ms[ChunkLength(ms)..]);
    }
  }

  ghost predicate AllAttached(parts: seq<seq<Message>>) {
    forall i :: 0 <= i < |parts| ==> Attached(parts[i])
  }

  lemma AttachedCons(first: seq<Message>, rest: seq<seq<Message>>)
    requires Attached(first) && AllAttached(rest)
    ensures AllAttached([first] + rest)
  {
  }

  lemma {:induction false} ChunksAreAttached(ms: seq<Message>)
    requires Attached(ms)
    ensures AllAttached(Chunks(ms))
    decreases |ms|
  {
    if ms != [] {
      var n := ChunkLength(ms);
      ChunksAreAttached(ms[n..]);
      assert ms == ms[..n] + ms[n..];
      AttachedConcatIff(ms[..n], ms[n..]);
      AttachedCons(ms[..n], Chunks(ms[n..]));
    }
  }

  lemma {:induction false} FlattenIsAttached(parts: seq<seq<Message>>)
    requires AllAttached(parts)
    ensures Attached(Flatten(parts))
  {
    if parts != [] {
      FlattenIsAttached(parts[1..]);
      AttachedConcat(parts[0], Flatten(parts[1..]));
    }
  }

  lemma GroupedConsIff(first: seq<Message>, rest: seq<seq<Message>>)
    ensures AllGrouped([first] + rest) <==> WellGrouped(first) && AllGrouped(rest)
  {
    var all := [first] + rest;
    if AllGrouped(all) {
      assert WellGrouped(all[0]);
      forall i | 0 <= i < |rest| ensures WellGrouped(rest[i]) {
        assert all[i + 1] == rest[i];
      }
    }
  }

  /** Attached parts put together are well grouped exactly if each of them is. */
  lemma {:induction false} FlattenGroupedIff(parts: seq<seq<Message>>)
    requires AllAttached(parts)
    ensures WellGrouped(Flatten(parts)) <==> AllGrouped(parts)
  {
    if parts != [] {
      FlattenGroupedIff(parts[1..]);
      FlattenIsAttached(parts[1..]);
      GroupedConcatIff(parts[0], Flatten(parts[1..]));
      GroupedConsIff(parts[0], parts[1..]);
      assert parts == [parts[0]] + parts[1..];
    }
  }

  lemma {:induction false} SideIsAttached(chunks: seq<seq<Message>>, topic: string, current: bool)
    requires AllAttached(chunks)
    ensures AllAttached(Side(chunks, topic, current))
  {
    if chunks != [] {
      SideIsAttached(chunks[1..], topic, current);
      AttachedCons(chunks[0], Side(chunks[1..], topic, current));
    }
  }

  // --- Groups cut short ---

  predicate IsPlain(m: Message) {
    m.role != Tool && !OpensGroup(m)
  }

  /** Results of the first calls, in order, perhaps followed by one message without calls. */
  ghost predicate CutAnswers(ms: seq<Message>, calls: seq<ToolCall>) {
    exists k :: 0 <= k <= |calls| && CutAt(ms, calls, k)
  }

  predicate CutAt(ms: seq<Message>, calls: seq<ToolCall>, k: nat)
    requires k <= |calls|
  {
    k <= |ms| <= k + 1 && AnswersInOrder(ms[..k], calls[..k]) && (|ms| == k + 1 ==> IsPlain(ms[k]))
  }

  /** Well grouped, except that the last group may lack its last results. */
  ghost predicate CutShort(ms: seq<Message>) {
    exists n :: 0 <= n <= |ms| && WellGrouped(ms[..n]) && (n == |ms| || IsCutGroup(ms[n..]))
  }

  ghost predicate IsCutGroup(ms: seq<Message>) {
    ms != [] && OpensGroup(ms[0]) && CutAnswers(ms[1..], ms[0].toolCalls)
  }

  lemma CutGroupIsAttached(ms: seq<Message>)
    requires IsCutGroup(ms)
    ensures Attached(ms)
  {
    var calls := ms[0].toolCalls;
    var k :| 0 <= k <= |calls| && CutAt(ms[1..], calls, k);
    var results, rest := ms[1..][..k], ms[1..][k..];
    assert ms[1..] == results + rest;
    AllAnswer(results, calls[..k], calls);
    AnswerCountConcat(results, rest, calls);
    assert ms[k + 1..] == rest;
    if rest != [] {
      assert rest == [rest[0]] && [rest[0]][1..] == [];
    }
  }

  /** However it was cut short, no result is without its call. */
  lemma CutShortIsAttached(ms: seq<Message>)
    requires CutShort(ms)
    ensures Attached(ms)
  {
    var n :| 0 <= n <= |ms| && WellGrouped(ms[..n]) && (n == |ms| || IsCutGroup(ms[n..]));
    GroupedIsAttached(ms[..n]);
    if n < |ms| {
      CutGroupIsAttached(ms[n..]);
    }
    AttachedHalves(ms, n);
  }

  lemma AttachedHalves(ms: seq<Message>, n: nat)
    requires n <= |ms| && Attached(ms[..n]) && Attached(ms[n..])
    ensures Attached(ms)
  {
    AttachedConcat(ms[..n], ms[n..]);
    assert ms == ms[..n] + ms[n..];
  }

  // --- Messages rewritten one by one ---

  /** The same message as far as grouping goes. */
  predicate SameShape(a: Message, b: Message) {
    a.role == b.role && a.toolCalls == b.toolCalls && a.toolCallId == b.toolCallId && a.name == b.name
  }

  ghost predicate SameShapes(a: seq<Message>, b: seq<Message>) {
    |a| == |b| && forall i :: 0 <= i < |a| ==> SameShape(a[i], b[i])
  }

  lemma ShapesOfSlice(a: seq<Message>, b: seq<Message>, i: nat, j: nat)
    requires SameShapes(a, b) && i <= j <= |a|
    ensures SameShapes(a[i..j], b[i..j]) && SameShapes(a[i..], b[i..])
  {
    forall k | 0 <= k < |a| - i ensures SameShape(a[i..][k], b[i..][k]) {
      assert SameShape(a[i + k], b[i + k]);
    }
    forall k | 0 <= k < j - i ensures SameShape(a[i..j][k], b[i..j][k]) {
      assert SameShape(a[i + k], b[i + k]);
    }
  }

  lemma ShapeKeepsAnswers(a: seq<Message>, b: seq<Message>, calls: seq<ToolCall>)
    requires AnswersInOrder(a, calls) && SameShapes(a, b)
    ensures AnswersInOrder(b, calls)
  {
    forall k | 0 <= k < |calls| ensures AnswersCall(b[k], calls[k]) {
      assert SameShape(a[k], b[k]);
    }
  }

  lemma {:induction false} ShapeKeepsGroups(a: seq<Message>, b: seq<Message>)
    requires WellGrouped(a) && SameShapes(a, b)
    ensures WellGrouped(b)
    decreases |a|
  {
    if a != [] {
      assert SameShape(a[0], b[0]);
      var n := if OpensGroup(a[0]) then |a[0].toolCalls| + 1 else 1;
      ShapesOfSlice(a, b, n, |a|);
      ShapeKeepsGroups(a[n..], b[n..]);
      if OpensGroup(a[0]) {
        ShapesOfSlice(a, b, 1, n);
        ShapeKeepsAnswers(a[1..n], b[1..n], a[0].toolCalls);
      }
    }
  }

  lemma {:induction false} ShapeKeepsCount(a: seq<Message>, b: seq<Message>, calls: seq<ToolCall>)
    requires SameShapes(a, b)
    ensures AnswerCount(a, calls) == AnswerCount(b, calls)
  {
    if a != [] {
      assert SameShape(a[0], b[0]);
      ShapesOfSlice(a, b, 1, |a|);
      ShapeKeepsCount(a[1..], b[1..], calls);
    }
  }

  lemma ShapeKeepsChunkLength(a: seq<Message>, b: seq<Message>)
    requires SameShapes(a, b) && a != []
    ensures ChunkLength(a) == ChunkLength(b)
  {
    assert SameShape(a[0], b[0]);
    ShapesOfSlice(a, b, 1, |a|);
    ShapeKeepsCount(a[1..], b[1..], a[0].toolCalls);
  }

  lemma {:induction false} ShapeKeepsAttached(a: seq<Message>, b: seq<Message>)
    requires Attached(a) && SameShapes(a, b)
    ensures Attached(b)
    decreases |a|
  {
    if a != [] {
      assert SameShape(a[0], b[0]);
      ShapeKeepsChunkLength(a, b);
      var n := ChunkLength(a);
      ShapesOfSlice(a, b, n, |a|);
      ShapeKeepsAttached(a[n..], b[n..]);
    }
  }

  lemma ShapesAreMutual(a: seq<Message>, b: seq<Message>)
    requires SameShapes(a, b)
    ensures SameShapes(b, a)
  {
    forall i | 0 <= i < |a| ensures SameShape(b[i], a[i]) {
      assert SameShape(a[i], b[i]);
    }
  }

  lemma ShapeGroupedIff(a: seq<Message>, b: seq<Message>)
    requires SameShapes(a, b)
    ensures WellGrouped(a) <==> WellGrouped(b)
  {
    ShapesAreMutual(a, b);
    if WellGrouped(a) {
      ShapeKeepsGroups(a, b);
    } else if WellGrouped(b) {
      ShapeKeepsGroups(b, a);
    }
  }
}
