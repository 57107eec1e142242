/**
  The context builder: system material first, then off-topic summaries, then as much of the
  current-topic history as the token budget allows, whole chunks at a time, newest first, and the
  latest user message whatever the budget.
 */
module ContextBuilder {
  import opened Text
  import opened Conversation

  datatype Stage = Verbatim | SelectiveTrim | SemanticCompress | TopicExtract | Skeleton

  function StageFromExcess(ratio: real): Stage {
    if ratio <= 1.0 then Verbatim
    else if ratio <= 1.5 then SelectiveTrim
    else if ratio <= 2.5 then SemanticCompress
    else if ratio <= 4.0 then TopicExtract
    else Skeleton
  }

  /** Text rewriters the builder calls; nothing is assumed of what they return. */
  datatype Rewriters = Rewriters(compactText: (string, int) -> string,
                                 semantic: string -> string,
                                 firstSentence: string -> string,
                                 summarize: TopicBlock -> string,
                                 smartCompress: (string, real) -> string)

  const FILLERS: seq<string> := ["hello", "hi", "hey", "thanks", "thank you", "ok", "okay", "got it", "sure", "yes",
                                 "no", "ack", "np"]

  predicate IsSocialFiller(content: string) {
    |content| < 40 && ToLower(TrimSpace(content)) in FILLERS
  }

  function RoleName(role: Role): string {
    match role
    case System => "system"
    case User => "user"
    case Assistant => "assistant"
    case Tool => "tool"
    case Other(name) => name
  }

  function Compact(m: Message, stage: Stage, w: Rewriters): string {
    match stage
    case Verbatim => m.content
    case SelectiveTrim => if IsSocialFiller(m.content) && m.role != System then "" else m.content
    case SemanticCompress => if m.role == System || |m.content| < 100 then m.content else w.semantic(m.content)
    case TopicExtract => if m.role == System then m.content else w.firstSentence(m.content)
    case Skeleton => if m.role == System then m.content else "[" + RoleName(m.role) + " message]"
  }

  function EstimateTokens(text: string, charsPerToken: int): (n: nat) {
    var cpt := if charsPerToken <= 0 then 4 else charsPerToken;
    (|text| + cpt - 1) / cpt
  }

  // --- Users ---

  function LastUser(messages: seq<Message>): (m: Option<Message>)
    ensures m.Some? ==> m.value.role == User
  {
    if messages == [] then None
    else if messages[|messages| - 1].role == User then Some(messages[|messages| - 1])
    else LastUser(messages[..|messages| - 1])
  }

  lemma {:induction false} LastUserConcat(a: seq<Message>, b: seq<Message>)
    ensures LastUser(a + b) == if LastUser(b).Some? then LastUser(b) else LastUser(a)
  {
    if b == [] {
      assert a + b == a;
    } else {
      assert (a + b)[..|a + b| - 1] == a + b[..|b| - 1];
      LastUserConcat(a, b[..|b| - 1]);
    }
  }

  predicate NoUser(messages: seq<Message>) {
    forall i :: 0 <= i < |messages| ==> messages[i].role != User
  }

  lemma {:induction false} LastUserNone(messages: seq<Message>)
    ensures LastUser(messages).None? <==> NoUser(messages)
  {
    if messages != [] {
      LastUserNone(messages[..|messages| - 1]);
    }
  }

  // --- The topic split keeps the latest user message ---

  /** The tag of the latest user message that has one. */
  function CurrentTopic(messages: seq<Message>): string {
    if messages == [] then ""
    else
      var last := messages[|messages| - 1];
      if last.role == User && last.topicTag != "" then last.topicTag else CurrentTopic(messages[..|messages| - 1])
  }

  method FindTopic(messages: seq<Message>) returns (topic: string)
    ensures topic == CurrentTopic(messages)
  {
    topic := "";
    var i := |messages|;
    assert messages[..i] == messages;
    while i > 0
      invariant 0 <= i <= |messages| && topic == "" && CurrentTopic(messages) == CurrentTopic(messages[..i])
    {
      assert messages[..i][..i - 1] == messages[..i - 1];
      if messages[i - 1].role == User && messages[i - 1].topicTag != "" {
        return messages[i - 1].topicTag;
      }
      i := i - 1;
    }
  }

  lemma {:induction false} LatestUserIsCurrent(messages: seq<Message>)
    requires LastUser(messages).Some?
    ensures IsCurrent([LastUser(messages).value], CurrentTopic(messages))
  {
    var last := messages[|messages| - 1];
    if last.role == User {
      assert [last][1..] == [];
      TrimSpaceEmptyIffBlank(last.topicTag);
    } else {
      LatestUserIsCurrent(messages[..|messages| - 1]);
    }
  }

  /** A user message is always a chunk of its own. */
  lemma UserIsLone(chunk: seq<Message>, i: nat)
    requires IsChunk(chunk) && i < |chunk| && chunk[i].role == User
    ensures chunk == [chunk[i]]
  {
    if OpensGroup(chunk[0]) {
      AnswersAreTools(chunk[1..], chunk[0].toolCalls);
    }
  }

  lemma {:induction false} AnswersAreTools(messages: seq<Message>, calls: seq<ToolCall>)
    requires AnswerCount(messages, calls) == |messages|
    ensures forall i :: 0 <= i < |messages| ==> messages[i].role == Tool
  {
    if messages != [] {
      AnswersAreTools(messages[1..], calls);
    }
  }

  lemma LastUserOfChunk(chunk: seq<Message>)
    requires IsChunk(chunk) && LastUser(chunk).Some?
    ensures chunk == [LastUser(chunk).value]
  {
    LastUserNone(chunk);
    var i :| 0 <= i < |chunk| && chunk[i].role == User;
    UserIsLone(chunk, i);
  }

  lemma {:induction false} SideKeepsLatest(chunks: seq<seq<Message>>, topic: string)
    requires forall i :: 0 <= i < |chunks| ==> IsChunk(chunks[i])
    requires LastUser(Flatten(chunks)).Some? ==> IsCurrent([LastUser(Flatten(chunks)).value], topic)
    ensures LastUser(Flatten(Side(chunks, topic, true))) == LastUser(Flatten(chunks))
  {
    if chunks != [] {
      var first, rest := chunks[0], chunks[1..];
      var side := Side(rest, topic, true);
      LastUserConcat(first, Flatten(rest));
      SideKeepsLatest(rest, topic);
      LastUserConcat(first, Flatten(side));
      assert ([first] + side)[1..] == side;
      if LastUser(Flatten(rest)).None? && LastUser(first).Some? {
        LastUserOfChunk(first);
      }
    }
  }

  // --- Choosing chunks ---

  predicate IsDropped(content: string, m: Message) {
    TrimSpace(content) == "" && m.toolCalls == [] && m.toolCallId == ""
  }

  /** The content a message is sent with; user messages of the latest-user chunk are never rewritten. */
  function ContentOf(m: Message, stage: Stage, latest: bool, w: Rewriters): string {
    if latest && m.role == User then m.content else Compact(m, stage, w)
  }

  function Sent(m: Message, content: string): Message {
    Message(m.role, content, m.toolCalls, m.toolCallId, m.name, m.metadata, "")
  }

  /** A message as sent, unless it is dropped. */
  function RenderOne(m: Message, stage: Stage, latest: bool, w: Rewriters): seq<Message> {
    var content := ContentOf(m, stage, latest, w);
    if IsDropped(content, m) then [] else [Sent(m, content)]
  }

  function Render(chunk: seq<Message>, stage: Stage, latest: bool, w: Rewriters): seq<Message> {
    if chunk == [] then [] else RenderOne(chunk[0], stage, latest, w) + Render(chunk[1..], stage, latest, w)
  }

  function Cost(messages: seq<Message>, charsPerToken: int): nat {
    if messages == [] then 0
    else EstimateTokens(messages[0].content, charsPerToken) + Cost(messages[1..], charsPerToken)
  }

  lemma {:induction false} RenderSnoc(chunk: seq<Message>, m: Message, stage: Stage, latest: bool, w: Rewriters)
    ensures Render(chunk + [m], stage, latest, w) == Render(chunk, stage, latest, w) + RenderOne(m, stage, latest, w)
  {
    if chunk == [] {
      assert chunk + [m] == [m] && [m][1..] == [];
    } else {
      RenderSnoc(chunk[1..], m, stage, latest, w);
      assert (chunk + [m])[1..] == chunk[1..] + [m];
      Associate(RenderOne(chunk[0], stage, latest, w), Render(chunk[1..], stage, latest, w),
                RenderOne(m, stage, latest, w));
    }
  }

  lemma RenderNext(chunk: seq<Message>, i: nat, stage: Stage, latest: bool, w: Rewriters)
    requires i < |chunk|
    ensures Render(chunk[..i + 1], stage, latest, w) ==
            Render(chunk[..i], stage, latest, w) + RenderOne(chunk[i], stage, latest, w)
  {
    assert chunk[..i + 1] == chunk[..i] + [chunk[i]];
    RenderSnoc(chunk[..i], chunk[i], stage, latest, w);
  }

  lemma {:induction false} CostSnoc(messages: seq<Message>, m: Message, charsPerToken: int)
    ensures Cost(messages + [m], charsPerToken) == Cost(messages, charsPerToken)
            + EstimateTokens(m.content, charsPerToken)
  {
    if messages == [] {
      assert messages + [m] == [m] && [m][1..] == [];
    } else {
      CostSnoc(messages[1..], m, charsPerToken);
      assert (messages + [m])[1..] == messages[1..] + [m];
    }
  }

  method RenderChunk(chunk: seq<Message>, stage: Stage, latest: bool, charsPerToken: int, w: Rewriters)
    returns (messages: seq<Message>, tokens: nat)
    ensures messages == Render(chunk, stage, latest, w) && tokens == Cost(messages, charsPerToken)
  {
    messages, tokens := [], 0;
    for i := 0 to |chunk|
      invariant messages == Render(chunk[..i], stage, latest, w) && tokens == Cost(messages, charsPerToken)
    {
      var m := chunk[i];
      RenderNext(chunk, i, stage, latest, w);
      var content := Compact(m, stage, w);
      if latest && m.role == User {
        content := m.content;
      }
      if IsDropped(content, m) {
        continue;
      }
      CostSnoc(messages, Sent(m, content), charsPerToken);
      messages := messages + [Sent(m, content)];
      tokens := tokens + EstimateTokens(content, charsPerToken);
    }
    assert chunk[..|chunk|] == chunk;
  }

  /** One request's choice: the rendered chunks, which one holds the latest user message, and the budget. */
  datatype Plan = Plan(parts: seq<seq<Message>>, latest: int, remaining: int, charsPerToken: int)

  /** Newest first, a part is taken when it is the latest-user part or still fits. */
  predicate Takes(p: Plan, i: nat)
    requires i < |p.parts|
    decreases |p.parts| - i, 0
  {
    p.parts[i] != [] && (i == p.latest || Used(p, i + 1) + Cost(p.parts[i], p.charsPerToken) <= p.remaining)
  }

  /** Tokens spent on the parts from `i` on. */
  function Used(p: Plan, i: nat): nat
    requires i <= |p.parts|
    decreases |p.parts| - i, 1
  {
    if i == |p.parts| then 0
    else Used(p, i + 1) + if Takes(p, i) then Cost(p.parts[i], p.charsPerToken) else 0
  }

  /** The parts taken from `i` on, in chronological order. */
  function Taken(p: Plan, i: nat): seq<seq<Message>>
    requires i <= |p.parts|
    decreases |p.parts| - i
  {
    if i == |p.parts| then [] else (if Takes(p, i) then [p.parts[i]] else []) + Taken(p, i + 1)
  }

  /** Everything but the latest-user part fits in what the budget leaves, if it leaves anything. */
  lemma {:induction false} BudgetHolds(p: Plan, i: nat)
    requires i <= |p.parts|
    ensures Used(p, i) <= Max(0, p.remaining) +
              (if i <= p.latest < |p.parts| then Cost(p.parts[p.latest], p.charsPerToken) else 0)
    decreases |p.parts| - i
  {
    if i < |p.parts| {
      BudgetHolds(p, i + 1);
    }
  }

  function LatestIndex(chunks: seq<seq<Message>>, n: nat): (i: int)
    requires n <= |chunks|
    ensures -1 <= i < n
  {
    if n == 0 then -1 else if !NoUser(chunks[n - 1]) then n - 1 else LatestIndex(chunks, n - 1)
  }

  function PlanFor(chunks: seq<seq<Message>>, stage: Stage, remaining: int, charsPerToken: int, w: Rewriters): (p: Plan)
    ensures |p.parts| == |chunks| && p.latest == LatestIndex(chunks, |chunks|)
    ensures forall i :: 0 <= i < |chunks| ==> p.parts[i] == Render(chunks[i], stage, i == p.latest, w)
  {
    var latest := LatestIndex(chunks, |chunks|);
    Plan(seq(|chunks|, i requires 0 <= i < |chunks| => Render(chunks[i], stage, i == latest, w)), latest, remaining,
         charsPerToken)
  }

  method FindLatestIndex(chunks: seq<seq<Message>>) returns (latest: int)
    ensures latest == LatestIndex(chunks, |chunks|)
  {
    var i := |chunks|;
    while i > 0
      invariant 0 <= i <= |chunks| && LatestIndex(chunks, |chunks|) == LatestIndex(chunks, i)
    {
      if !NoUser(chunks[i - 1]) {
        return i - 1;
      }
      i := i - 1;
    }
    return -1;
  }

  function Reversed<T>(s: seq<T>): seq<T> {
    if s == [] then [] else Reversed(s[1..]) + [s[0]]
  }

  lemma {:induction false} ReversedSnoc<T>(s: seq<T>, x: T)
    ensures Reversed(s + [x]) == [x] + Reversed(s)
  {
    if s == [] {
      assert s + [x] == [x] && [x][1..] == [];
    } else {
      ReversedSnoc(s[1..], x);
      assert (s + [x])[1..] == s[1..] + [x];
    }
  }

  lemma {:induction false} ReversedAt<T>(s: seq<T>)
    ensures |Reversed(s)| == |s| && forall k :: 0 <= k < |s| ==> Reversed(s)[k] == s[|s| - 1 - k]
  {
    if s != [] {
      ReversedAt(s[1..]);
    }
  }

  /** Reverses by swapping ends, in place. */
  method ReverseInPlace<T>(a: array<T>)
    modifies a
    ensures a[..] == Reversed(old(a[..]))
  {
    var i, j := 0, a.Length - 1;
    while i < j
      invariant 0 <= i <= j + 1 <= a.Length && i + j == a.Length - 1
      invariant forall k :: 0 <= k < i ==> a[k] == old(a[a.Length - 1 - k]) && a[a.Length - 1 - k] == old(a[k])
      invariant forall k :: i <= k <= j ==> a[k] == old(a[k])
    {
      a[i], a[j] := a[j], a[i];
      i, j := i + 1, j - 1;
    }
    ReversedAt(old(a[..]));
  }

  /** Loads chunks newest first within the budget, then puts them back in chronological order. */
  method SelectChunks(chunks: seq<seq<Message>>, stage: Stage, remaining: int, charsPerToken: int, w: Rewriters)
    returns (selected: seq<seq<Message>>, used: nat)
    ensures var p := PlanFor(chunks, stage, remaining, charsPerToken, w); selected == Taken(p, 0) && used == Used(p, 0)
  {
    ghost var p := PlanFor(chunks, stage, remaining, charsPerToken, w);
    var latest := FindLatestIndex(chunks);
    var newestFirst: seq<seq<Message>> := [];
    used := 0;
    var i := |chunks|;
    while i > 0
      invariant 0 <= i <= |chunks| && Reversed(newestFirst) == Taken(p, i) && used == Used(p, i)
    {
      i := i - 1;
      var messages, tokens := RenderChunk(chunks[i], stage, i == latest, charsPerToken, w);
      assert messages == p.parts[i];
      if messages == [] {
        assert Taken(p, i) == Taken(p, i + 1);
        continue;
      }
      if i != latest && used + tokens > remaining {
        assert Taken(p, i) == Taken(p, i + 1);
        continue;
      }
      ReversedSnoc(newestFirst, messages);
      newestFirst := newestFirst + [messages];
      used := used + tokens;
    }
    var buffer := new seq<Message>[|newestFirst|](k requires 0 <= k < |newestFirst| => newestFirst[k]);
    assert buffer[..] == newestFirst;
    ReverseInPlace(buffer);
    selected := buffer[..];
  }

  // --- The latest user message survives ---

  predicate IsKept(m: Message) {
    TrimSpace(m.content) != "" || m.toolCalls != [] || m.toolCallId != ""
  }

  lemma {:induction false} RenderKeepsNoUser(chunk: seq<Message>, stage: Stage, latest: bool, w: Rewriters)
    requires NoUser(chunk)
    ensures NoUser(Render(chunk, stage, latest, w))
  {
    if chunk != [] {
      RenderKeepsNoUser(chunk[1..], stage, latest, w);
    }
  }

  lemma RenderOfLatest(m: Message, stage: Stage, w: Rewriters)
    requires m.role == User
    ensures Render([m], stage, true, w) == if IsKept(m) then [Sent(m, m.content)] else []
  {
    assert [m][1..] == [];
  }

  lemma {:induction false} LatestIndexSpec(chunks: seq<seq<Message>>, n: nat)
    requires n <= |chunks|
    ensures forall i :: LatestIndex(chunks, n) < i < n ==> NoUser(chunks[i])
    ensures LatestIndex(chunks, n) >= 0 ==> !NoUser(chunks[LatestIndex(chunks, n)])
  {
    if n > 0 && NoUser(chunks[n - 1]) {
      LatestIndexSpec(chunks, n - 1);
    }
  }

  /** With the latest-user chunk at `latest`, the flattened chunks' last user message is its message. */
  lemma {:induction false} LastUserOfChunks(chunks: seq<seq<Message>>, latest: nat, i: nat)
    requires latest < |chunks| && i <= |chunks| && forall k :: latest < k < |chunks| ==> NoUser(chunks[k])
    requires LastUser(chunks[latest]).Some?
    ensures LastUser(Flatten(chunks[i..])) == if i <= latest then LastUser(chunks[latest]) else None
    decreases |chunks| - i
  {
    if i < |chunks| {
      assert chunks[i..][1..] == chunks[i + 1..];
      LastUserOfChunks(chunks, latest, i + 1);
      LastUserConcat(chunks[i], Flatten(chunks[i + 1..]));
      LastUserNone(chunks[i]);
    }
  }

  /** A kept latest-user part is always taken, and no user message follows it. */
  lemma {:induction false} TakenKeepsLatest(p: Plan, m: Message, i: nat)
    requires i <= |p.parts| && 0 <= p.latest < |p.parts| && p.parts[p.latest] == [m] && m.role == User
    requires forall k :: p.latest < k < |p.parts| ==> NoUser(p.parts[k])
    ensures LastUser(Flatten(Taken(p, i))) == if i <= p.latest then Some(m) else None
    decreases |p.parts| - i
  {
    if i < |p.parts| {
      TakenKeepsLatest(p, m, i + 1);
      var rest := Taken(p, i + 1);
      if Takes(p, i) {
        assert ([p.parts[i]] + rest)[1..] == rest && Taken(p, i) == [p.parts[i]] + rest;
        LastUserConcat(p.parts[i], Flatten(rest));
        LastUserNone(p.parts[i]);
        assert i == p.latest ==> LastUser([m]) == Some(m);
      } else {
        assert Taken(p, i) == rest;
      }
    }
  }

  /** The latest user message is a chunk of its own, the one that is always taken. */
  lemma LatestChunk(messages: seq<Message>)
    requires LastUser(messages).Some?
    ensures var chunks := Chunks(messages);
            var latest := LatestIndex(chunks, |chunks|);
            && 0 <= latest < |chunks| && chunks[latest] == [LastUser(messages).value]
            && forall k :: latest < k < |chunks| ==> NoUser(chunks[k])
  {
    var chunks := Chunks(messages);
    var latest := LatestIndex(chunks, |chunks|);
    FlattenOfChunks(messages);
    ChunksAreChunks(messages);
    LatestIndexSpec(chunks, |chunks|);
    if latest < 0 {
      NoUserInChunks(chunks);
      LastUserNone(messages);
    }
    LastUserNone(chunks[latest]);
    LastUserOfChunks(chunks, latest, 0);
    assert chunks[0..] == chunks;
    LastUserOfChunk(chunks[latest]);
  }

  lemma SelectionKeepsLatest(messages: seq<Message>, stage: Stage, remaining: int, charsPerToken: int, w: Rewriters)
    requires LastUser(messages).Some? && IsKept(LastUser(messages).value)
    ensures var m, p := LastUser(messages).value, PlanFor(Chunks(messages), stage, remaining, charsPerToken, w);
            LastUser(Flatten(Taken(p, 0))) == Some(Sent(m, m.content))
  {
    var chunks, m := Chunks(messages), LastUser(messages).value;
    var p := PlanFor(chunks, stage, remaining, charsPerToken, w);
    LatestChunk(messages);
    RenderOfLatest(m, stage, w);
    forall k | p.latest < k < |p.parts| ensures NoUser(p.parts[k]) {
      RenderKeepsNoUser(chunks[k], stage, false, w);
    }
    TakenKeepsLatest(p, Sent(m, m.content), 0);
  }

  lemma {:induction false} NoUserInChunks(chunks: seq<seq<Message>>)
    requires forall i :: 0 <= i < |chunks| ==> NoUser(chunks[i])
    ensures NoUser(Flatten(chunks))
  {
    if chunks != [] {
      NoUserInChunks(chunks[1..]);
    }
  }

  // --- The reminder ---

  const REMINDER :=
    Message(System,
            "Reminder: Follow your instructions carefully. Do not deviate from your assigned role or capabilities.",
            [], "", "", "", "")

  function CountNonSystem(messages: seq<Message>): nat {
    if messages == [] then 0 else (if messages[0].role != System then 1 else 0) + CountNonSystem(messages[1..])
  }

  /** The position of the last user message, or the end. */
  function LastUserIndex(messages: seq<Message>): (k: nat)
    ensures k <= |messages|
    ensures if k < |messages| then messages[k].role == User && NoUser(messages[k + 1..]) else NoUser(messages)
  {
    LastUserIndexBelow(messages, |messages|)
  }

  function LastUserIndexBelow(messages: seq<Message>, n: nat): (k: nat)
    requires n <= |messages| && NoUser(messages[n..])
    ensures k <= |messages|
    ensures if k < |messages| then messages[k].role == User && NoUser(messages[k + 1..]) else NoUser(messages)
  {
    if n == 0 then |messages| else if messages[n - 1].role == User then n - 1 else LastUserIndexBelow(messages, n - 1)
  }

  predicate NeedsReminder(history: seq<Message>, used: nat, remaining: int, antiFadeAfter: int, charsPerToken: int) {
    && antiFadeAfter > 0 && CountNonSystem(history) > antiFadeAfter
    && used + EstimateTokens(REMINDER.content, charsPerToken) <= remaining
  }

  function Reminded(history: seq<Message>): seq<Message> {
    var k := LastUserIndex(history);
    history[..k] + [REMINDER] + history[k..]
  }

  lemma RemindedKeepsLastUser(history: seq<Message>)
    ensures LastUser(Reminded(history)) == LastUser(history)
  {
    var k := LastUserIndex(history);
    assert history == history[..k] + history[k..];
    LastUserConcat(history[..k] + [REMINDER], history[k..]);
    LastUserConcat(history[..k], [REMINDER]);
    LastUserConcat(history[..k], history[k..]);
    LastUserNone([REMINDER]);
  }

  /** Parts with a user message consist of it alone. */
  ghost predicate LoneUsers(parts: seq<seq<Message>>) {
    forall i :: 0 <= i < |parts| ==> NoUser(parts[i]) || |parts[i]| == 1
  }

  /** A user message of the history starts a part: the reminder lands between parts. */
  lemma {:induction false} ReminderBetweenParts(parts: seq<seq<Message>>, k: nat) returns (j: nat)
    requires LoneUsers(parts) && k <= |Flatten(parts)|
    requires k < |Flatten(parts)| ==> Flatten(parts)[k].role == User
    ensures j <= |parts| && Flatten(parts)[..k] == Flatten(parts[..j]) && Flatten(parts)[k..] == Flatten(parts[j..])
  {
    if parts == [] || k == 0 {
      assert parts[..0] == [] && parts[0..] == parts && Flatten(parts)[..k] == []
        && Flatten(parts)[k..] == Flatten(parts);
      j := 0;
    } else {
      var first, rest := parts[0], parts[1..];
      BeyondFirst(first, Flatten(rest), k);
      j := ReminderBetweenParts(rest, k - |first|);
      CutAfter(first, rest, j);
      j := j + 1;
      assert parts == [first] + rest;
    }
  }

  /** A position with a user message after it lies beyond a part that has none, or that is it alone. */
  lemma BeyondFirst(first: seq<Message>, rest: seq<Message>, k: nat)
    requires 0 < k <= |first + rest| && (NoUser(first) || |first| == 1)
    requires k < |first + rest| ==> (first + rest)[k].role == User
    ensures |first| <= k && (first + rest)[..k] == first + rest[..k - |first|]
            && (first + rest)[k..] == rest[k - |first|..]
  {
  }

  lemma CutAfter(first: seq<Message>, rest: seq<seq<Message>>, j: nat)
    requires j <= |rest|
    ensures Flatten(([first] + rest)[..j + 1]) == first + Flatten(rest[..j]) && ([first] + rest)[j + 1..] == rest[j..]
  {
    assert ([first] + rest)[..j + 1] == [first] + rest[..j];
    FlattenCons(first, rest[..j]);
  }

  // --- Whole chunks ---

  /** A message as sent: the content may be rewritten and the topic tag is dropped, nothing else. */
  predicate SentFrom(sent: Message, m: Message) {
    sent == Sent(m, sent.content)
  }

  /** Every result in the chunk names the call it answers. */
  predicate NamesItsCalls(chunk: seq<Message>) {
    forall i :: 1 <= i < |chunk| ==> chunk[i].toolCallId != ""
  }

  lemma {:induction false} RenderKeepsAll(chunk: seq<Message>, stage: Stage, latest: bool, w: Rewriters)
    requires forall i :: 0 <= i < |chunk| ==> chunk[i].toolCalls != [] || chunk[i].toolCallId != ""
    ensures |Render(chunk, stage, latest, w)| == |chunk|
    ensures forall i :: 0 <= i < |chunk| ==> SentFrom(Render(chunk, stage, latest, w)[i], chunk[i])
  {
    if chunk != [] {
      RenderKeepsAll(chunk[1..], stage, latest, w);
    }
  }

  /** A tool-calling message and its results are sent whole: a result is never sent without its call. */
  lemma GroupIsSentWhole(chunk: seq<Message>, stage: Stage, latest: bool, w: Rewriters)
    requires IsChunk(chunk) && OpensGroup(chunk[0]) && NamesItsCalls(chunk)
    ensures var sent := Render(chunk, stage, latest, w);
            |sent| == |chunk| && forall i :: 0 <= i < |chunk| ==> SentFrom(sent[i], chunk[i])
  {
    RenderKeepsAll(chunk, stage, latest, w);
  }

  /** The history is a chronological subsequence of the rendered chunks. */
  lemma {:induction false} TakenIsSubsequence(p: Plan, i: nat)
    requires i <= |p.parts|
    ensures IsSubsequence(Taken(p, i), p.parts[i..])
    decreases |p.parts| - i
  {
    if i < |p.parts| {
      TakenIsSubsequence(p, i + 1);
      assert p.parts[i..][1..] == p.parts[i + 1..];
      assert Takes(p, i) ==> Taken(p, i)[1..] == Taken(p, i + 1);
      assert !Takes(p, i) ==> Taken(p, i) == Taken(p, i + 1);
    }
  }

  lemma {:induction false} TakenLoneUsers(p: Plan, i: nat)
    requires i <= |p.parts| && LoneUsers(p.parts)
    ensures LoneUsers(Taken(p, i))
    decreases |p.parts| - i
  {
    if i < |p.parts| {
      TakenLoneUsers(p, i + 1);
    }
  }

  lemma RenderOfLone(m: Message, stage: Stage, latest: bool, w: Rewriters)
    ensures |Render([m], stage, latest, w)| <= 1
  {
    assert [m][1..] == [];
  }

  lemma PlanHasLoneUsers(chunks: seq<seq<Message>>, stage: Stage, remaining: int, charsPerToken: int, w: Rewriters)
    requires forall i :: 0 <= i < |chunks| ==> IsChunk(chunks[i])
    ensures LoneUsers(PlanFor(chunks, stage, remaining, charsPerToken, w).parts)
  {
    var p := PlanFor(chunks, stage, remaining, charsPerToken, w);
    forall i | 0 <= i < |p.parts| ensures NoUser(p.parts[i]) || |p.parts[i]| == 1 {
      if NoUser(chunks[i]) {
        RenderKeepsNoUser(chunks[i], stage, i == p.latest, w);
      } else {
        LastUserNone(chunks[i]);
        LastUserOfChunk(chunks[i]);
        RenderOfLone(chunks[i][0], stage, i == p.latest, w);
      }
    }
  }

  ghost predicate RemindedBetween(parts: seq<seq<Message>>, j: nat) {
    j <= |parts| && Reminded(Flatten(parts)) == Flatten(parts[..j]) + [REMINDER] + Flatten(parts[j..])
  }

  /** The reminder lands between two sent chunks, never inside one. */
  lemma ReminderSplitsNoChunk(messages: seq<Message>, stage: Stage, remaining: int, charsPerToken: int, w: Rewriters)
    ensures exists j: nat :: RemindedBetween(Taken(PlanFor(Chunks(messages), stage, remaining, charsPerToken, w), 0), j)
  {
    var p := PlanFor(Chunks(messages), stage, remaining, charsPerToken, w);
    ChunksAreChunks(messages);
    PlanHasLoneUsers(Chunks(messages), stage, remaining, charsPerToken, w);
    TakenLoneUsers(p, 0);
    var taken := Taken(p, 0);
    var j := ReminderBetweenParts(taken, LastUserIndex(Flatten(taken)));
    assert RemindedBetween(taken, j);
  }

  // --- Prompt compression ---

  const MIN_COMPRESSIBLE := 200

  predicate IsCompressible(m: Message) {
    (m.role == Assistant || m.role == User) && |m.content| >= MIN_COMPRESSIBLE
  }

  function CompressedAt(messages: seq<Message>, i: nat, ratio: real, w: Rewriters): Message
    requires i < |messages|
  {
    if i == LastUserIndex(messages) || !IsCompressible(messages[i]) then messages[i]
    else messages[i].(content := w.smartCompress(messages[i].content, ratio))
  }

  function Compressed(messages: seq<Message>, ratio: real, w: Rewriters): (c: seq<Message>)
    ensures |c| == |messages| && forall i :: 0 <= i < |c| ==> c[i] == CompressedAt(messages, i, ratio, w)
  {
    seq(|messages|, i requires 0 <= i < |messages| => CompressedAt(messages, i, ratio, w))
  }

  method CompressContextMessages(messages: array<Message>, ratio: real, w: Rewriters)
    modifies messages
    ensures messages[..] == Compressed(old(messages[..]), ratio, w)
  {
    var lastUser := LastUserIndex(messages[..]);
    for i := 0 to messages.Length
      invariant forall k :: 0 <= k < i ==> messages[k] == CompressedAt(old(messages[..]), k, ratio, w)
      invariant forall k :: i <= k < messages.Length ==> messages[k] == old(messages[k])
    {
      if i == lastUser || !IsCompressible(messages[i]) {
        continue;
      }
      messages[i] := messages[i].(content := w.smartCompress(messages[i].content, ratio));
    }
  }

  lemma LastUserAt(messages: seq<Message>, k: nat)
    requires k < |messages| && messages[k].role == User && NoUser(messages[k + 1..])
    ensures LastUser(messages) == Some(messages[k])
  {
    assert messages == messages[..k] + [messages[k]] + messages[k + 1..];
    LastUserConcat(messages[..k] + [messages[k]], messages[k + 1..]);
    LastUserConcat(messages[..k], [messages[k]]);
    LastUserNone(messages[k + 1..]);
  }

  /** Compression drops, moves and reorders nothing, and leaves the last user message as it was. */
  lemma CompressedKeepsLastUser(messages: seq<Message>, ratio: real, w: Rewriters)
    ensures LastUser(Compressed(messages, ratio, w)) == LastUser(messages)
  {
    var c, k := Compressed(messages, ratio, w), LastUserIndex(messages);
    assert forall i :: 0 <= i < |c| ==> c[i].role == messages[i].role;
    if k < |messages| {
      LastUserAt(messages, k);
      LastUserAt(c, k);
    } else {
      LastUserNone(messages);
      LastUserNone(c);
    }
  }

  // --- Building a request ---

  datatype TierBudget = TierBudget(forTier: int, l3: int)

  datatype Config = Config(maxTokens: int, tier: Option<TierBudget>, soulMaxContextPct: real, charsPerToken: int,
                           antiFadeAfter: int, promptCompression: bool, compressionTargetRatio: real)

  datatype Material = Material(systemPrompt: string, memory: string, memoryIndex: string,
                               systemNotes: seq<string>, toolDefs: seq<string>)

  /** Conversion of a real to an integer truncates toward zero. */
  function Truncate(r: real): int {
    if r >= 0.0 then r.Floor else -((-r).Floor)
  }

  /** The token budget, raised towards the top tier when the system prompt would starve the rest. */
  function Budget(c: Config, systemPrompt: string): int {
    var budget := if c.tier.Some? then c.tier.value.forTier else c.maxTokens;
    var prompt := EstimateTokens(systemPrompt, c.charsPerToken);
    if systemPrompt != "" && c.soulMaxContextPct > 0.0 && c.tier.Some?
       && prompt > Truncate(budget as real * c.soulMaxContextPct) then
      var needed := Truncate(prompt as real / c.soulMaxContextPct);
      var capped := if needed > c.tier.value.l3 then c.tier.value.l3 else needed;
      Max(capped, budget)
    else budget
  }

  /** The memory block, compacted when it exceeds a quarter of the budget. */
  function FittedMemory(c: Config, d: Material, w: Rewriters): string {
    var cap := Truncate(Budget(c, d.systemPrompt) as real / 4.0);
    if d.memory != "" && EstimateTokens(d.memory, c.charsPerToken) > cap then w.compactText(d.memory, cap) else d.memory
  }

  function SystemMessages(contents: seq<string>): (messages: seq<Message>)
    ensures NoUser(messages)
  {
    seq(|contents|, i requires 0 <= i < |contents| => SystemMessage(contents[i]))
  }

  /** The system contents in order: prompt, memory and memory index when not empty, then the notes. */
  function SystemContents(d: Material): seq<string> {
    (if d.systemPrompt != "" then [d.systemPrompt] else []) + (if d.memory != "" then [d.memory] else [])
    + (if d.memoryIndex != "" then [d.memoryIndex] else []) + d.systemNotes
  }

  function TokensOf(texts: seq<string>, charsPerToken: int): nat {
    if texts == [] then 0 else EstimateTokens(texts[0], charsPerToken) + TokensOf(texts[1..], charsPerToken)
  }

  function Summaries(blocks: seq<TopicBlock>, w: Rewriters): seq<string> {
    seq(|blocks|, i requires 0 <= i < |blocks| => w.summarize(blocks[i]))
  }

  function CurrentMessages(messages: seq<Message>): seq<Message> {
    var topic := CurrentTopic(messages);
    if topic == "" then messages else Flatten(Side(Chunks(messages), topic, true))
  }

  function OffTopicBlocks(messages: seq<Message>): seq<TopicBlock> {
    var topic := CurrentTopic(messages);
    if topic == "" then [] else Blocks(Chunks(messages), topic)
  }

  /** What the budget leaves for history; it may be negative. */
  function Remaining(c: Config, d: Material, summaries: seq<string>): int {
    Budget(c, d.systemPrompt) - TokensOf(SystemContents(d), c.charsPerToken) - TokensOf(d.toolDefs, c.charsPerToken)
    - TokensOf(summaries, c.charsPerToken)
  }

  function StageFor(current: seq<Message>, remaining: int, charsPerToken: int): Stage {
    StageFromExcess(Cost(current, charsPerToken) as real / Max(remaining, 1) as real)
  }

  function HistoryPlan(c: Config, current: seq<Message>, remaining: int, w: Rewriters): Plan {
    PlanFor(Chunks(current), StageFor(current, remaining, c.charsPerToken), remaining, c.charsPerToken, w)
  }

  function History(c: Config, current: seq<Message>, remaining: int, w: Rewriters): seq<Message> {
    var p := HistoryPlan(c, current, remaining, w);
    var history := Flatten(Taken(p, 0));
    if NeedsReminder(history, Used(p, 0), remaining, c.antiFadeAfter, c.charsPerToken) then Reminded(history)
    else history
  }

  /** What precedes the history. */
  function Front(d: Material, summaries: seq<string>): seq<Message> {
    SystemMessages(SystemContents(d)) + SystemMessages(summaries)
  }

  /** Front and history together, compressed if so configured. */
  function Assembled(c: Config, front: seq<Message>, history: seq<Message>, w: Rewriters): seq<Message> {
    if c.promptCompression then
      Compressed(front + history, if c.compressionTargetRatio <= 0.0 then 0.6 else c.compressionTargetRatio, w)
    else front + history
  }

  /** The messages of the request, given material whose memory has been fitted. */
  function Request(c: Config, d: Material, messages: seq<Message>, w: Rewriters): seq<Message> {
    var summaries := Summaries(OffTopicBlocks(messages), w);
    Assembled(c, Front(d, summaries), History(c, CurrentMessages(messages), Remaining(c, d, summaries), w), w)
  }

  class Builder {
    const config: Config
    var material: Material

    constructor (config: Config, material: Material)
      ensures this.config == config && this.material == material
    {
      this.config, this.material := config, material;
    }

    /** Builds a request; a memory block over its share of the budget is compacted for good. */
    method BuildRequest(messages: seq<Message>, w: Rewriters) returns (request: seq<Message>)
      modifies this
      ensures material == old(material).(memory := FittedMemory(config, old(material), w))
      ensures request == Request(config, material, messages, w)
    {
      material := material.(memory := FittedMemory(config, material, w));
      var topic := FindTopic(messages);
      var current, blocks := PartitionByTopic(messages, topic);
      var summaries := Summaries(blocks, w);
      var remaining := Remaining(config, material, summaries);
      var stage := StageFor(current, remaining, config.charsPerToken);
      var chunks := ChunkConversationMessages(current);
      var selected, used := SelectChunks(chunks, stage, remaining, config.charsPerToken, w);
      var history := Flatten(selected);
      if NeedsReminder(history, used, remaining, config.antiFadeAfter, config.charsPerToken) {
        history := Reminded(history);
      }
      request := Assemble(Front(material, summaries), history, w);
    }

    /** Compression works on a buffer of its own. */
    method Assemble(front: seq<Message>, history: seq<Message>, w: Rewriters) returns (request: seq<Message>)
      ensures request == Assembled(config, front, history, w)
    {
      var assembled := front + history;
      if !config.promptCompression {
        return assembled;
      }
      var ratio := if config.compressionTargetRatio <= 0.0 then 0.6 else config.compressionTargetRatio;
      var buffer := new Message[|assembled|](k requires 0 <= k < |assembled| => assembled[k]);
      assert buffer[..] == assembled;
      CompressContextMessages(buffer, ratio, w);
      request := buffer[..];
    }
  }

  lemma CurrentKeepsLatest(messages: seq<Message>)
    ensures LastUser(CurrentMessages(messages)) == LastUser(messages)
  {
    var topic := CurrentTopic(messages);
    if topic != "" {
      FlattenOfChunks(messages);
      ChunksAreChunks(messages);
      if LastUser(messages).Some? {
        LatestUserIsCurrent(messages);
      }
      SideKeepsLatest(Chunks(messages), topic);
    }
  }

  lemma HistoryKeepsLatest(c: Config, current: seq<Message>, remaining: int, w: Rewriters)
    requires LastUser(current).Some? && IsKept(LastUser(current).value)
    ensures var m := LastUser(current).value; LastUser(History(c, current, remaining, w)) == Some(Sent(m, m.content))
  {
    var stage := StageFor(current, remaining, c.charsPerToken);
    SelectionKeepsLatest(current, stage, remaining, c.charsPerToken, w);
    RemindedKeepsLastUser(Flatten(Taken(HistoryPlan(c, current, remaining, w), 0)));
  }

  /**
    The latest user message survives: for every history, material and budget, including one that is
    overspent before any history is loaded, a latest user message that is not blank is the last user
    message of the request, with its exact content.
   */
  lemma LatestUserSurvives(c: Config, d: Material, messages: seq<Message>, w: Rewriters)
    requires LastUser(messages).Some? && IsKept(LastUser(messages).value)
    ensures var m := LastUser(messages).value; LastUser(Request(c, d, messages, w)) == Some(Sent(m, m.content))
  {
    var summaries := Summaries(OffTopicBlocks(messages), w);
    var current, remaining := CurrentMessages(messages), Remaining(c, d, summaries);
    CurrentKeepsLatest(messages);
    HistoryKeepsLatest(c, current, remaining, w);
    var front, history := Front(d, summaries), History(c, current, remaining, w);
    LastUserConcat(front, history);
    CompressedKeepsLastUser(front + history, if c.compressionTargetRatio <= 0.0 then 0.6
                            else c.compressionTargetRatio, w);
  }
}
