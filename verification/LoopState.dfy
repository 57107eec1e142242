/**
  The ReAct loop's machine on values: its states, the counters and windows that stand for the full
  history, and the shape its conversation keeps.
 */
module LoopState {
  import opened Text
  import opened Conversation
  import opened CallGroups
  import opened LoopHistory
  import opened LoopTrail

  datatype State = Thinking | Acting | Observing | Persisting | Reflecting | Idle | Done

  datatype Action = Think | Act | Observe | Persist | Reflect | NoOp | Finish

  datatype DoneReason =
    | Running | MaxTurnsExceeded | ModelFailed(message: string) | Repetition | ExploratoryChurn | NoProgressChurn
    | IdleTooLong | DeadlineExceeded | ContextCancelled

  datatype LlmResult = LlmError(message: string) | Reply(content: string, toolCalls: seq<ToolCall>, route: string)

  datatype Interrupt = Go | Deadline | Cancel

  const CONTINUE_PREFIX := "CONTINUE_EXECUTION"

  /** What a session holds. */
  datatype View = View(messages: seq<Message>, pending: seq<ToolCall>, continuation: Option<string>)

  function Unanswered(calls: seq<ToolCall>, id: string): seq<ToolCall> {
    if calls == [] then []
    else (if calls[0].id != id then [calls[0]] else []) + Unanswered(calls[1..], id)
  }

  // --- Results ---

  /** A result of the tool that is no error and proves the fingerprinted effect. */
  predicate Proves(env: Env, m: Message, name: string, key: string) {
    m.role == Tool && m.name == name && !("Error:" <= m.content) && env.resultFingerprint(name, "", m.metadata) == key
  }

  /** How many such results the session holds. */
  function PriorResults(env: Env, messages: seq<Message>, name: string, key: string): nat {
    if messages == [] || key == "" then 0
    else (if Proves(env, messages[0], name, key) then 1 else 0) + PriorResults(env, messages[1..], name, key)
  }

  /** There is one exactly if some result of the tool, not an error, has the fingerprint, and that is not empty. */
  lemma {:induction false} PriorResultsIff(env: Env, messages: seq<Message>, name: string, key: string)
    ensures PriorResults(env, messages, name, key) > 0 <==>
            key != "" && exists i :: 0 <= i < |messages| && messages[i].role == Tool && messages[i].name == name
                                     && !("Error:" <= messages[i].content)
                                     && env.resultFingerprint(name, "", messages[i].metadata) == key
  {
    if messages != [] {
      PriorResultsIff(env, messages[1..], name, key);
      assert messages == [messages[0]] + messages[1..];
    }
  }

  function ToolResultCount(messages: seq<Message>): nat {
    if messages == [] then 0 else (if messages[0].role == Tool then 1 else 0) + ToolResultCount(messages[1..])
  }

  /** A reply as far as progress is concerned. */
  function OutcomeOfReply(p: Prose, reply: LlmResult, messages: seq<Message>): Outcome
    requires reply.Reply?
  {
    if reply.toolCalls != [] then WithTools
    else Plain(reply.route, p.skeleton(reply.content, p.isFiller(reply.content)), ToolResultCount(messages))
  }

  // --- Windows and counters ---

  function Window<T>(s: seq<T>, n: nat): seq<T> {
    if |s| <= n then s else s[|s| - n..]
  }

  datatype NoProgress = NoProgress(outcome: Outcome, streak: nat)

  /** The last outcome and how often it has come in a row without tools. */
  ghost predicate Tracks(p: NoProgress, outcomes: seq<Outcome>) {
    p.streak == PlainStreak(outcomes) && (outcomes != [] ==> p.outcome == outcomes[|outcomes| - 1])
  }

  /** Actions that do something end an idle streak. */
  function NextNoOps(action: Action, noOps: nat): nat {
    match action
    case NoOp => noOps + 1
    case Persist => noOps
    case Finish => noOps
    case _ => 0
  }

  function NextState(action: Action, noOps: int, idleThreshold: int): State {
    match action
    case Think => Thinking
    case Act => Acting
    case Observe => Observing
    case Persist => Persisting
    case Reflect => Reflecting
    case NoOp => if noOps >= idleThreshold then Idle else Thinking
    case Finish => Done
  }

  /** What the loop keeps of its history. */
  datatype Counters = Counters(recentCalls: seq<(string, string)>, failedCalls: map<string, nat>,
                               successfulCalls: map<string, nat>, readOnlyStreak: nat,
                               lastNoProgress: NoProgress, turnCount: nat)

  /** The counters hold what the summary of the full history says, the calls and outcomes only in short. */
  ghost predicate Consistent(c: Config, env: Env, log: seq<Event>, summaries: seq<Summary>, s: Summary, k: Counters) {
    && IsHistory(c, env, summaries, log) && s == summaries[|log|]
    && k.recentCalls == Window(s.considered, c.loopWindow)
    && k.failedCalls == s.failures && k.successfulCalls == s.successes && k.readOnlyStreak == s.readOnlyStreak
    && s.asks == AskedBy(k.turnCount, c.maxTurns)
    && (c.maxSameRouteNoProgress > 0 ==> Tracks(k.lastNoProgress, s.outcomes))
  }

  /** How far a state is from the next turn. */
  function Rank(state: State): nat {
    match state
    case Acting => 4
    case Observing => 3
    case Persisting => 2
    case Thinking => 1
    case Reflecting => 1
    case Idle => 1
    case Done => 0
  }

  /** How often the model has been asked after so many turns. */
  function AskedBy(turns: int, maxTurns: int): int {
    if turns <= maxTurns then turns else if maxTurns > 0 then maxTurns else 0
  }

  /** Turns only go up, and the model was asked once for each within the limit. */
  predicate Spent(c: Config, turns: nat, asked: nat, newTurns: nat, newAsked: nat) {
    turns <= newTurns && newAsked - asked == AskedBy(newTurns, c.maxTurns) - AskedBy(turns, c.maxTurns)
  }

  /** A step that does not end the run takes a turn within the limit, or comes closer to the next. */
  predicate Closer(c: Config, turns: nat, state: State, newTurns: nat, newState: State) {
    if newTurns == turns then Rank(newState) < Rank(state) else newTurns == turns + 1 <= c.maxTurns
  }

  datatype RunResult = Answer(content: string) | LimitExceeded(content: string) | Failure(message: string) | Aborted

  function LastAssistantContent(messages: seq<Message>): string {
    if messages == [] then ""
    else if messages[|messages| - 1].role == Assistant then messages[|messages| - 1].content
    else LastAssistantContent(messages[..|messages| - 1])
  }


  // --- Tool calls and their results stay together ---

  ghost predicate Tidy(ms: seq<Message>, state: State, pending: seq<ToolCall>) {
    match state
    case Acting =>
      ms != [] && WellGrouped(ms[..|ms| - 1]) && OpensGroup(ms[|ms| - 1]) && ms[|ms| - 1].toolCalls == pending
    case Done => CutShort(ms)
    case _ => WellGrouped(ms)
  }

  lemma OpenGroup(ms: seq<Message>, m: Message)
    requires WellGrouped(ms) && OpensGroup(m)
    ensures Tidy(ms + [m], Acting, m.toolCalls)
  {
    assert (ms + [m])[..|ms|] == ms;
  }

  lemma CloseGroup(ms: seq<Message>, calls: seq<ToolCall>, results: seq<Message>)
    requires Tidy(ms, Acting, calls) && AnswersInOrder(results, calls)
    ensures WellGrouped(ms + results)
  {
    var before, m := ms[..|ms| - 1], ms[|ms| - 1];
    var group := [m] + results;
    assert group[1..|calls| + 1] == results && group[|calls| + 1..] == [];
    WellGroupedConcat(before, group);
    assert ms + results == before + group;
  }

  /**
    A tool-calling message and the results acting on it appended are in one chunk of the conversation,
    whatever came before and comes after.
   */
  lemma ActedGroupIsOneChunk(before: seq<Message>, m: Message, results: seq<Message>, after: seq<Message>)
    requires OpensGroup(m) && AnswersInOrder(results, m.toolCalls)
    ensures var all := before + ([m] + results) + after;
            exists i :: 0 <= i < |Chunks(all)| && [m] + results <= Chunks(all)[i] && Flatten(Chunks(all)[..i]) == before
  {
    AllAnswer(results, m.toolCalls, m.toolCalls);
    assert ([m] + results)[1..] == results;
    GroupStaysTogether(before, [m] + results, after);
  }

  lemma WholeIsCutShort(ms: seq<Message>)
    requires WellGrouped(ms)
    ensures CutShort(ms)
  {
    assert ms[..|ms|] == ms;
  }

  /** A run may be stopped while a group is open, after any number of results. */
  lemma OpenIsCutShort(ms: seq<Message>, calls: seq<ToolCall>, more: seq<Message>)
    requires Tidy(ms, Acting, calls) && CutAnswers(more, calls)
    ensures CutShort(ms + more)
  {
    var n, all := |ms| - 1, ms + more;
    assert all[..n] == ms[..n] && all[n] == ms[n] && all[n..][1..] == more;
    assert IsCutGroup(all[n..]);
  }

  /** The conversation goes on from a base in the shape its state asks for. */
  ghost predicate Extends(messages: seq<Message>, base: seq<Message>, state: State, pending: seq<ToolCall>) {
    base <= messages && Tidy(messages[|base|..], state, pending)
  }

  lemma CutShortKeepsAttached(before: seq<Message>, after: seq<Message>)
    requires before <= after && CutShort(after[|before|..])
    ensures Attached(before) ==> Attached(after)
  {
    var more := after[|before|..];
    Split(before, after);
    CutShortIsAttached(more);
    if Attached(before) {
      AttachedConcat(before, more);
    }
  }

  /** What was appended since the base. */
  lemma Since<T>(base: seq<T>, before: seq<T>, more: seq<T>)
    requires base <= before
    ensures base <= before + more && (before + more)[|base|..] == before[|base|..] + more
  {
  }

  lemma Split<T>(a: seq<T>, s: seq<T>)
    requires a <= s
    ensures a + s[|a|..] == s
  {
  }

  lemma StartExtends(messages: seq<Message>, state: State, pending: seq<ToolCall>)
    requires state != Acting
    ensures Extends(messages, messages, state, pending)
  {
    assert messages[|messages|..] == [];
    WholeIsCutShort([]);
  }

  /** A message without calls may come at any time between groups. */
  lemma PlainExtends(messages: seq<Message>, base: seq<Message>, m: Message, pending: seq<ToolCall>, state: State,
                     next: State, left: seq<ToolCall>)
    requires Extends(messages, base, state, pending) && state != Acting && state != Done && next != Acting && IsPlain(m)
    ensures Extends(messages + [m], base, next, left)
  {
    Since(base, messages, [m]);
    AppendPlain(messages[|base|..], m);
    WholeIsCutShort(messages[|base|..] + [m]);
  }

  lemma StillExtends(messages: seq<Message>, base: seq<Message>, pending: seq<ToolCall>, state: State, next: State,
                     left: seq<ToolCall>)
    requires Extends(messages, base, state, pending) && state != Acting && state != Done && next != Acting
    ensures Extends(messages, base, next, left)
  {
    WholeIsCutShort(messages[|base|..]);
  }

  lemma CallExtends(messages: seq<Message>, base: seq<Message>, m: Message, pending: seq<ToolCall>, state: State)
    requires Extends(messages, base, state, pending) && state != Acting && state != Done && OpensGroup(m)
    ensures Extends(messages + [m], base, Acting, m.toolCalls)
  {
    Since(base, messages, [m]);
    OpenGroup(messages[|base|..], m);
  }

  /** A run may be stopped at any moment, a group open or not. */
  lemma CutExtends(base: seq<Message>, before: seq<Message>, after: seq<Message>, calls: seq<ToolCall>,
                   left: seq<ToolCall>)
    requires Extends(before, base, Acting, calls) && before <= after && CutAnswers(after[|before|..], calls)
    ensures Extends(after, base, Done, left)
  {
    var more := after[|before|..];
    Split(before, after);
    OpenIsCutShort(before[|base|..], calls, more);
    Since(base, before, more);
  }

  /** Acting on all the calls completes the group. */
  lemma ActedExtends(p: Prose, env: Env, base: seq<Message>, calls: seq<ToolCall>, statuses: seq<Status>,
                     start: Acted, after: Acted)
    requires Extends(start.messages, base, Acting, calls) && |statuses| == |calls|
    requires after == AfterActing(p, env, calls, statuses, start)
    ensures Extends(after.messages, base, Observing, after.pending)
  {
    var results := Results(p, calls, statuses);
    assert calls[..|statuses|] == calls;
    CloseGroup(start.messages[|base|..], calls, results);
    Since(base, start.messages, results);
  }

  /**
    What acting comes to: nothing to do, one result per call, or an end after results of the first calls
    and perhaps a last message.
   */
  ghost predicate ActedOn(p: Prose, env: Env, action: Action, statuses: seq<Status>, start: Acted, after: Acted) {
    match action
    case NoOp => start.pending == [] && after == start
    case Observe =>
      start.pending != [] && |statuses| == |start.pending| && after.pending == []
      && after == AfterActing(p, env, start.pending, statuses, start)
    case Finish =>
      start.pending != [] && start.messages <= after.messages
      && CutAnswers(after.messages[|start.messages|..], start.pending)
    case _ => false
  }

  /** Acting leaves the group complete, or the run is over. */
  lemma ActedOnExtends(p: Prose, env: Env, base: seq<Message>, action: Action, statuses: seq<Status>, start: Acted,
                       after: Acted)
    requires Extends(start.messages, base, Acting, start.pending) && ActedOn(p, env, action, statuses, start, after)
    ensures action in {Observe, Finish}
    ensures Extends(after.messages, base, NextState(action, 0, 0), after.pending)
  {
    if action == Observe {
      ActedExtends(p, env, base, start.pending, statuses, start, after);
    } else {
      CutExtends(base, start.messages, after.messages, start.pending, after.pending);
    }
  }

  lemma NothingIsCutAnswers(calls: seq<ToolCall>)
    ensures CutAnswers([], calls)
  {
    assert CutAt([], calls, 0);
  }

  lemma ThoughtAddsNoResult(p: Prose, reply: LlmResult, action: Action, before: seq<Message>, v: View)
    requires action in {Act, NoOp, Finish} && Thought(p, reply, action, before, v)
    ensures ToolMessages(v.messages) == ToolMessages(before)
  {
    ToolMessagesSnoc(before, AssistantMessage(if p.isFiller(reply.content) then "" else reply.content,
                                              reply.toolCalls));
    ToolMessagesSnoc(before, AssistantMessage(reply.content, []));
    assert before + [] == before;
  }

  lemma ReflectedAddsNoResult(p: Prose, reply: LlmResult, action: Action, before: seq<Message>, v: View)
    requires action in {Think, Act, Finish} && Reflected(p, reply, action, before, v)
    ensures ToolMessages(v.messages) == ToolMessages(before)
  {
    ToolMessagesSnoc(before, AssistantMessage(reply.content, reply.toolCalls));
    if action == Finish && v.messages != before {
      var content: string :| v.messages == before + [AssistantMessage(content, [])];
      ToolMessagesSnoc(before, AssistantMessage(content, []));
    }
  }

  lemma ThoughtExtends(p: Prose, reply: LlmResult, action: Action, base: seq<Message>, before: seq<Message>,
                       pending: seq<ToolCall>, v: View, next: State)
    requires Extends(before, base, Thinking, pending)
    requires action in {Act, NoOp, Finish} && Thought(p, reply, action, before, v)
             && (next == Acting <==> action == Act)
    ensures Extends(v.messages, base, next, v.pending)
  {
    if action == Act {
      CallExtends(before, base, AssistantMessage(if p.isFiller(reply.content) then "" else reply.content,
                                                 reply.toolCalls),
                  pending, Thinking);
    } else if p.isFiller(reply.content) {
      assert before + [] == before;
      StillExtends(before, base, pending, Thinking, next, v.pending);
    } else {
      PlainExtends(before, base, AssistantMessage(reply.content, []), pending, Thinking, next, v.pending);
    }
  }

  lemma ReflectedExtends(p: Prose, reply: LlmResult, action: Action, base: seq<Message>, before: seq<Message>,
                         pending: seq<ToolCall>, v: View, next: State)
    requires Extends(before, base, Reflecting, pending)
    requires action in {Think, Act, Finish} && Reflected(p, reply, action, before, v)
             && (next == Acting <==> action == Act)
    ensures Extends(v.messages, base, next, v.pending)
  {
    if action == Act {
      CallExtends(before, base, AssistantMessage(reply.content, reply.toolCalls), pending, Reflecting);
    } else if v.messages == before {
      StillExtends(before, base, pending, Reflecting, next, v.pending);
    } else {
      var content: string :| v.messages == before + [AssistantMessage(content, [])];
      PlainExtends(before, base, AssistantMessage(content, []), pending, Reflecting, next, v.pending);
    }
  }

  datatype TurnResult = Next(action: Action) | LimitReached | Broken(message: string)

  /** At most one assistant message without tool calls was appended. */
  ghost predicate AddedPlain(before: seq<Message>, v: View)
  {
    v.messages == before || exists content: string :: v.messages == before + [AssistantMessage(content, [])]
  }

  /** Acting follows exactly the replies with tool calls, which then are the pending calls. */
  ghost predicate Thought(p: Prose, reply: LlmResult, action: Action, before: seq<Message>, v: View)
  {
    && reply.Reply? && (action == Act <==> reply.toolCalls != [])
    && (action == Act ==> v.pending == reply.toolCalls)
    && (action == Act ==>
          v.messages == before + [AssistantMessage(if p.isFiller(reply.content) then "" else reply.content,
                                                   reply.toolCalls)])
    && (action == NoOp ==> p.isFiller(reply.content) && v.messages == before)
    && (action == Finish ==>
          v.messages == before + if p.isFiller(reply.content) then [] else [AssistantMessage(reply.content, [])])
  }

  /** A turn of thinking left the session alone, or entered the reply. */
  ghost predicate HeardThought(p: Prose, reply: LlmResult, r: TurnResult, before: seq<Message>, v: View) {
    if r.Next? then r.action in {Act, NoOp, Finish} && Thought(p, reply, r.action, before, v) else v.messages == before
  }

  /** So did a turn of reflecting. */
  ghost predicate HeardReflection(p: Prose, reply: LlmResult, r: TurnResult, before: seq<Message>, v: View) {
    if r.Next? then r.action in {Think, Act, Finish} && Reflected(p, reply, r.action, before, v)
    else v.messages == before
  }

  /** Thinking resumes exactly on the continuation prefix, acting on tool calls without it. */
  ghost predicate Reflected(p: Prose, reply: LlmResult, action: Action, before: seq<Message>, v: View)
  {
    && reply.Reply?
    && (action == Think <==> CONTINUE_PREFIX <= TrimSpace(reply.content))
    && (action == Act <==> !(CONTINUE_PREFIX <= TrimSpace(reply.content)) && reply.toolCalls != [])
    && (action == Think ==> v.messages == before && v.continuation.Some?)
    && (action == Act ==> v.pending == reply.toolCalls && v.continuation.Some?)
    && (action == Act ==> v.messages == before + [AssistantMessage(reply.content, reply.toolCalls)])
    && (action == Finish && TrimSpace(reply.content) != "" ==>
        v.messages == before + [AssistantMessage(reply.content, [])])
    && (action == Finish && TrimSpace(reply.content) == "" ==> StoodIn(p, before, v.messages))
    && (action == Finish ==> AddedPlain(before, v))
  }

  /** A blank reflection: what the tools returned stands in for it, if they returned anything to show. */
  predicate StoodIn(p: Prose, before: seq<Message>, after: seq<Message>) {
    var content := TrimSpace(p.synthesize(before));
    if ToolResultCount(before) > 0 && content != "" then after == before + [AssistantMessage(content, [])]
    else after == before
  }

  /** What the calls of a list acted on so far have made of the messages, the records and the pending calls. */
  datatype Acted = Acted(messages: seq<Message>, records: seq<Record>, pending: seq<ToolCall>)

  /** What reporting a call comes to: a result and a record, or the end of the run. */
  ghost predicate Reported(p: Prose, env: Env, call: ToolCall, status: Status, a: Acted, b: Acted) {
    if Ends(status) then
      && b.records == a.records
      && b.messages == a.messages + if status.Churn? then [AssistantMessage(p.describe(call, status), [])] else []
    else
      b == Acted(a.messages + [ResultMessage(p, call, status)], a.records + RecordsFor(env, call, status),
                 Unanswered(a.pending, call.id))
  }

  function TrailOf(log: seq<Event>, acted: Acted, executed: nat): Trail {
    Trail(log, acted.records, ToolMessages(acted.messages), executed)
  }

  lemma ReportTells(p: Prose, env: Env, world: nat -> ExecResult, log: seq<Event>, e: Event,
                    before: Acted, after: Acted, from: nat, to: nat)
    requires e.Handled? && Reported(p, env, e.call, e.status, before, after) && Drew(world, e.status, from, to)
    ensures Told(p, env, world, TrailOf(log, before, from), TrailOf(log + [e], after, to))
  {
    ToolMessagesSnoc(before.messages, ResultMessage(p, e.call, e.status));
    ToolMessagesSnoc(before.messages, AssistantMessage(p.describe(e.call, e.status), []));
    assert before.messages + [] == before.messages;
    var a := TrailOf(log, before, from);
    assert a.records + [] == a.records && a.results + [] == a.results;
    HandledTells(p, env, world, a, e, TrailOf(log + [e], after, to));
  }

  /** Each call has left one result, in order, a record if it names a tool, and is no longer pending. */
  function AfterActing(p: Prose, env: Env, calls: seq<ToolCall>, statuses: seq<Status>, start: Acted): Acted
    requires |statuses| <= |calls|
  {
    var n := |statuses|;
    Acted(start.messages + Results(p, calls[..n], statuses), start.records + AllRecords(env, calls[..n], statuses),
          Left(calls, calls[..n]))
  }

  lemma ActStep(p: Prose, env: Env, calls: seq<ToolCall>, statuses: seq<Status>, status: Status, start: Acted,
                after: Acted)
    requires |statuses| < |calls|
    requires Reported(p, env, calls[|statuses|], status, AfterActing(p, env, calls, statuses, start), after)
    ensures !Ends(status) ==> after == AfterActing(p, env, calls, statuses + [status], start)
  {
    var done, call := calls[..|statuses|], calls[|statuses|];
    assert calls[..|statuses| + 1] == done + [call];
    MessagesStep(p, start.messages, done, statuses, call, status);
    RecordsStep(env, start.records, done, statuses, call, status);
    LeftSnoc(calls, done, call);
  }

  lemma MessagesStep(p: Prose, start: seq<Message>, done: seq<ToolCall>, statuses: seq<Status>, call: ToolCall,
                     status: Status)
    requires |done| == |statuses|
    ensures start + Results(p, done + [call], statuses + [status]) ==
            start + Results(p, done, statuses) + [ResultMessage(p, call, status)]
  {
    ResultsSnoc(p, done, statuses, call, status);
    Associate(start, Results(p, done, statuses), [ResultMessage(p, call, status)]);
  }

  lemma RecordsStep(env: Env, start: seq<Record>, done: seq<ToolCall>, statuses: seq<Status>, call: ToolCall,
                    status: Status)
    requires |done| == |statuses|
    ensures start + AllRecords(env, done + [call], statuses + [status]) ==
            start + AllRecords(env, done, statuses) + RecordsFor(env, call, status)
  {
    RecordsSnoc(env, done, statuses, call, status);
    Associate(start, AllRecords(env, done, statuses), RecordsFor(env, call, status));
  }

  lemma RecordsSnoc(env: Env, calls: seq<ToolCall>, statuses: seq<Status>, call: ToolCall, status: Status)
    requires |calls| == |statuses|
    ensures AllRecords(env, calls + [call], statuses + [status]) ==
            AllRecords(env, calls, statuses) + RecordsFor(env, call, status)
  {
    assert (calls + [call])[..|calls|] == calls && (statuses + [status])[..|calls|] == statuses;
  }

  lemma LeftSnoc(calls: seq<ToolCall>, answered: seq<ToolCall>, call: ToolCall)
    ensures Left(calls, answered + [call]) == Unanswered(Left(calls, answered), call.id)
  {
    assert (answered + [call])[..|answered|] == answered;
  }

  /** What acting has appended are the results of the calls so far, and perhaps a last message. */
  lemma ActingOnlyAppends(p: Prose, env: Env, calls: seq<ToolCall>, statuses: seq<Status>, status: Status,
                          start: Acted, after: Acted)
    requires |statuses| < |calls|
    requires Reported(p, env, calls[|statuses|], status, AfterActing(p, env, calls, statuses, start), after)
    ensures start.messages <= after.messages && CutAnswers(after.messages[|start.messages|..], calls)
  {
    var n, call := |statuses|, calls[|statuses|];
    var results := Results(p, calls[..n], statuses);
    if Ends(status) {
      var more := if status.Churn? then [AssistantMessage(p.describe(call, status), [])] else [];
      Appended(start.messages, results, more);
      CutAfterResults(p, calls, n, statuses, more);
    } else {
      var more := [ResultMessage(p, call, status)];
      Appended(start.messages, results, more);
      ResultsSnoc(p, calls[..n], statuses, call, status);
      assert calls[..n + 1] == calls[..n] + [call];
      CutAfterResults(p, calls, n + 1, statuses + [status], []);
      assert results + more + [] == results + more;
    }
  }

  lemma CutAfterResults(p: Prose, calls: seq<ToolCall>, n: nat, statuses: seq<Status>, more: seq<Message>)
    requires n == |statuses| <= |calls| && |more| <= 1 && (more != [] ==> IsPlain(more[0]))
    ensures CutAnswers(Results(p, calls[..n], statuses) + more, calls)
  {
    var results := Results(p, calls[..n], statuses);
    assert (results + more)[..n] == results;
    assert CutAt(results + more, calls, n);
  }

  lemma Appended<T>(a: seq<T>, b: seq<T>, c: seq<T>)
    ensures a <= a + b + c && (a + b + c)[|a|..] == b + c
  {
  }

  lemma ResultsSnoc(p: Prose, calls: seq<ToolCall>, statuses: seq<Status>, call: ToolCall, status: Status)
    requires |calls| == |statuses|
    ensures Results(p, calls + [call], statuses + [status]) ==
            Results(p, calls, statuses) + [ResultMessage(p, call, status)]
  {
  }

  /** The calls not answered by any of the given ones. */
  function Left(calls: seq<ToolCall>, answered: seq<ToolCall>): seq<ToolCall> {
    if answered == [] then calls else Unanswered(Left(calls, answered[..|answered| - 1]), answered[|answered| - 1].id)
  }

  lemma {:induction false} UnansweredSpec(calls: seq<ToolCall>, id: string)
    ensures forall c :: c in Unanswered(calls, id) <==> c in calls && c.id != id
  {
    if calls != [] {
      UnansweredSpec(calls[1..], id);
      assert calls == [calls[0]] + calls[1..];
    }
  }

  lemma {:induction false} LeftSpec(calls: seq<ToolCall>, answered: seq<ToolCall>)
    ensures forall c :: c in Left(calls, answered) ==> c in calls && forall a :: a in answered ==> c.id != a.id
  {
    if answered != [] {
      var before, last := answered[..|answered| - 1], answered[|answered| - 1];
      LeftSpec(calls, before);
      UnansweredSpec(Left(calls, before), last.id);
      assert answered == before + [last];
    }
  }

  lemma EmptyIfNoMember<T>(s: seq<T>)
    ensures s == [] || exists x :: x in s
  {
    if s != [] {
      assert s[0] in s;
    }
  }

  lemma AllAnswered(calls: seq<ToolCall>)
    ensures Left(calls, calls[..|calls|]) == []
  {
    assert calls[..|calls|] == calls;
    LeftSpec(calls, calls);
    EmptyIfNoMember(Left(calls, calls));
  }

  /** Replies of one phase that are tool-free and all the same, as many as the threshold. */
  predicate Stuck(c: Config, outcomes: seq<Outcome>) {
    && c.maxSameRouteNoProgress > 0 && LastAllEqual(outcomes, c.maxSameRouteNoProgress)
    && outcomes[|outcomes| - 1].Plain?
  }

  /** The window is full, and of one call. */
  method IsFullOfOne(calls: seq<(string, string)>, n: nat) returns (same: bool)
    requires n >= 1
    ensures same <==> |calls| >= n && forall k :: 0 <= k < |calls| ==> calls[k] == calls[0]
  {
    if |calls| < n {
      return false;
    }
    var first := calls[0];
    for i := 1 to |calls|
      invariant forall k :: 0 <= k < i ==> calls[k] == first
    {
      if calls[i] != first {
        return false;
      }
    }
    return true;
  }

  lemma WindowSnoc<T>(s: seq<T>, x: T, n: nat)
    requires n >= 1
    ensures Window(s + [x], n) == Window(Window(s, n) + [x], n)
  {
  }

  lemma WindowAllEqual<T>(s: seq<T>, n: nat)
    requires n >= 1 && s != []
    ensures LastAllEqual(s, n) <==> |Window(s, n)| == n && forall k :: 0 <= k < n ==> Window(s, n)[k] == Window(s, n)[0]
  {
    if n <= |s| {
      var w := Window(s, n);
      assert forall k :: |s| - n <= k < |s| ==> s[k] == w[k - (|s| - n)];
      assert forall k :: 0 <= k < n ==> w[k] == s[k + (|s| - n)];
    }
  }

  /** Two replies are the same as far as progress goes exactly if route, skeleton and results seen are. */
  lemma SameProgressIff(p: Prose, a: LlmResult, b: LlmResult, before: seq<Message>, after: seq<Message>)
    requires a.Reply? && b.Reply? && a.toolCalls == [] == b.toolCalls
    ensures OutcomeOfReply(p, a, before) == OutcomeOfReply(p, b, after) <==>
            a.route == b.route && |ToolMessages(before)| == |ToolMessages(after)|
            && p.skeleton(a.content, p.isFiller(a.content)) == p.skeleton(b.content, p.isFiller(b.content))
  {
    ToolMessagesCounted(before);
    ToolMessagesCounted(after);
  }

  lemma {:induction false} ToolMessagesCounted(messages: seq<Message>)
    ensures ToolResultCount(messages) == |ToolMessages(messages)|
  {
    if messages != [] {
      ToolMessagesCounted(messages[1..]);
      ToolMessagesCons(messages);
    }
  }

  lemma {:induction false} ToolMessagesCons(messages: seq<Message>)
    requires messages != []
    ensures |ToolMessages(messages)| == |ToolMessages(messages[1..])| + if messages[0].role == Tool then 1 else 0
  {
    var n := |messages| - 1;
    if n > 0 {
      ToolMessagesCons(messages[..n]);
      assert messages[..n][1..] == messages[1..][..n - 1];
    }
  }
}
