/**
  What a run of the loop leaves behind, read off its history: the execution records, the results in the
  session and the outcomes drawn from the world are exactly those of the calls the history holds.
 */
module LoopTrail {
  import opened Text
  import opened Conversation
  import opened LoopHistory

  datatype ExecResult = ExecError(message: string) | ExecOk(output: string, metadata: string)

  /** Judgements about prose, and the wording of messages; nothing is assumed of them. */
  datatype Prose = Prose(isFiller: string -> bool,
                         skeleton: (string, bool) -> string,
                         synthesize: seq<Message> -> string,
                         reminder: string,
                         describe: (ToolCall, Status) -> string)

  function AssistantMessage(content: string, calls: seq<ToolCall>): Message {
    Message(Assistant, content, calls, "", "", "", "")
  }

  function ResultContent(p: Prose, call: ToolCall, status: Status): string {
    match status
    case Succeeded(output, _) => output
    case Failed(message) => "Error: error: " + message
    case SuppressedReplay => p.describe(call, status)
    case _ => "Error: " + p.describe(call, status)
  }

  function ResultMessage(p: Prose, call: ToolCall, status: Status): Message {
    Message(Tool, ResultContent(p, call, status), [], call.id, call.name,
            if status.Succeeded? then status.metadata else "", "")
  }

  datatype Record = Record(callId: string, toolName: string, input: string, status: Status)

  /** Statuses reached after the arguments were normalized are recorded with the normalized arguments. */
  function RecordFor(env: Env, call: ToolCall, status: Status): Record {
    var normalized := Executed(status) || status.SuppressedReplay? || status.Denied?;
    Record(call.id, call.name, if normalized then ExecArguments(env, call) else call.arguments, status)
  }

  function OutcomeOf(result: ExecResult): Status {
    if result.ExecError? then Failed(result.message) else Succeeded(result.output, result.metadata)
  }

  /** The verdicts that end the run. */
  predicate Ends(status: Status) {
    status.LoopDetected? || status.Churn?
  }

  /** A call without a tool name leaves no record. */
  function RecordsFor(env: Env, call: ToolCall, status: Status): seq<Record> {
    if call.name == "" then [] else [RecordFor(env, call, status)]
  }

  /** The results of a list of calls, one message per call, in order. */
  function Results(p: Prose, calls: seq<ToolCall>, statuses: seq<Status>): (results: seq<Message>)
    requires |calls| == |statuses|
    ensures |results| == |calls|
    ensures forall k :: 0 <= k < |calls| ==> results[k] == ResultMessage(p, calls[k], statuses[k])
  {
    seq(|calls|, k requires 0 <= k < |calls| => ResultMessage(p, calls[k], statuses[k]))
  }

  /** Their execution records, one per call that names a tool, in order. */
  function AllRecords(env: Env, calls: seq<ToolCall>, statuses: seq<Status>): seq<Record>
    requires |calls| == |statuses|
  {
    if calls == [] then []
    else
      var n := |calls| - 1;
      AllRecords(env, calls[..n], statuses[..n]) + RecordsFor(env, calls[n], statuses[n])
  }

  ghost predicate AllNamed(calls: seq<ToolCall>) {
    forall k :: 0 <= k < |calls| ==> calls[k].name != ""
  }

  lemma {:induction false} RecordAt(env: Env, calls: seq<ToolCall>, statuses: seq<Status>, k: nat)
    requires |calls| == |statuses| && AllNamed(calls) && k < |calls|
    ensures |AllRecords(env, calls, statuses)| == |calls|
    ensures AllRecords(env, calls, statuses)[k] == RecordFor(env, calls[k], statuses[k])
  {
    var n := |calls| - 1;
    if n > 0 {
      RecordAt(env, calls[..n], statuses[..n], if k < n then k else 0);
    }
  }

  lemma NamedByLast(calls: seq<ToolCall>)
    requires calls != [] && AllNamed(calls[..|calls| - 1]) && calls[|calls| - 1].name != ""
    ensures AllNamed(calls)
  {
    forall k | 0 <= k < |calls| ensures calls[k].name != "" {
      assert k < |calls| - 1 ==> calls[k] == calls[..|calls| - 1][k];
    }
  }

  lemma {:induction false} FewerRecords(env: Env, calls: seq<ToolCall>, statuses: seq<Status>)
    requires |calls| == |statuses|
    ensures |AllRecords(env, calls, statuses)| <= |calls|
    ensures |AllRecords(env, calls, statuses)| == |calls| ==> AllNamed(calls)
  {
    if calls != [] {
      var n := |calls| - 1;
      FewerRecords(env, calls[..n], statuses[..n]);
      if AllNamed(calls[..n]) && calls[n].name != "" {
        NamedByLast(calls);
      }
    }
  }

  /** There is a record for every call exactly when every call names a tool. */
  lemma RecordPerCallIff(env: Env, calls: seq<ToolCall>, statuses: seq<Status>)
    requires |calls| == |statuses|
    ensures |AllRecords(env, calls, statuses)| <= |calls|
    ensures |AllRecords(env, calls, statuses)| == |calls| <==> forall k :: 0 <= k < |calls| ==> calls[k].name != ""
    ensures (forall k :: 0 <= k < |calls| ==> calls[k].name != "") ==>
              forall k :: 0 <= k < |calls| ==>
                            AllRecords(env, calls, statuses)[k] == RecordFor(env, calls[k], statuses[k])
  {
    FewerRecords(env, calls, statuses);
    if AllNamed(calls) {
      forall k | 0 <= k < |calls|
        ensures |AllRecords(env, calls, statuses)| == |calls|
        ensures AllRecords(env, calls, statuses)[k] == RecordFor(env, calls[k], statuses[k])
      {
        RecordAt(env, calls, statuses, k);
      }
    }
  }

  /** An executed call's result carries the outcome as it is, and its record the arguments it ran with. */
  lemma OutcomeIsTold(p: Prose, env: Env, call: ToolCall, result: ExecResult, arguments: string)
    requires env.normalize(call.name, call.arguments) == Arguments(arguments)
    ensures var m := ResultMessage(p, call, OutcomeOf(result));
            && m.role == Tool && m.toolCallId == call.id && m.name == call.name && m.toolCalls == []
            && match result
               case ExecOk(output, metadata) => m.content == output && m.metadata == metadata
               case ExecError(message) => m.content == "Error: error: " + message && m.metadata == ""
    ensures call.name != "" ==>
              RecordsFor(env, call, OutcomeOf(result)) ==
              [Record(call.id, call.name, if arguments == "" then call.arguments else arguments, OutcomeOf(result))]
  {
  }

  /** What did not execute is an error to the model, unless it was a replay, and is recorded as the verdict. */
  lemma RefusalIsTold(p: Prose, env: Env, call: ToolCall, status: Status)
    requires !Executed(status)
    ensures !status.SuppressedReplay? ==> "Error:" <= ResultMessage(p, call, status).content
    ensures ResultMessage(p, call, status).metadata == "" && ResultMessage(p, call, status).toolCallId == call.id
    ensures forall r :: r in RecordsFor(env, call, status) ==> r.status == status && r.callId == call.id
  {
  }

  // --- Effects of a history ---

  /** Records, results and outcomes of executions. */
  datatype Effect = Effect(records: seq<Record>, results: seq<Message>, outcomes: seq<Status>)

  const NO_EFFECT := Effect([], [], [])

  function Both(a: Effect, b: Effect): Effect {
    Effect(a.records + b.records, a.results + b.results, a.outcomes + b.outcomes)
  }

  /** A call leaves a result and a record unless its verdict ends the run, and an outcome if it executed. */
  function EffectOf(p: Prose, env: Env, e: Event): Effect {
    if !e.Handled? || Ends(e.status) then NO_EFFECT
    else Effect(RecordsFor(env, e.call, e.status), [ResultMessage(p, e.call, e.status)],
                if Executed(e.status) then [e.status] else [])
  }

  function Effects(p: Prose, env: Env, log: seq<Event>): Effect {
    if log == [] then NO_EFFECT else Both(Effects(p, env, log[..|log| - 1]), EffectOf(p, env, log[|log| - 1]))
  }

  lemma BothAssociates(a: Effect, b: Effect, c: Effect)
    ensures Both(a, Both(b, c)) == Both(Both(a, b), c) && Both(a, NO_EFFECT) == a == Both(NO_EFFECT, a)
  {
    Associate(a.records, b.records, c.records);
    Associate(a.results, b.results, c.results);
    Associate(a.outcomes, b.outcomes, c.outcomes);
  }

  lemma EffectsSnoc(p: Prose, env: Env, log: seq<Event>, e: Event)
    ensures Effects(p, env, log + [e]) == Both(Effects(p, env, log), EffectOf(p, env, e))
  {
    assert (log + [e])[..|log|] == log;
  }

  lemma {:induction false} EffectsConcat(p: Prose, env: Env, a: seq<Event>, b: seq<Event>)
    ensures Effects(p, env, a + b) == Both(Effects(p, env, a), Effects(p, env, b))
  {
    if b == [] {
      assert a + b == a;
      BothAssociates(Effects(p, env, a), NO_EFFECT, NO_EFFECT);
    } else {
      var before, last := b[..|b| - 1], b[|b| - 1];
      EffectsConcat(p, env, a, before);
      assert before + [last] == b;
      Associate(a, before, [last]);
      EffectsSnoc(p, env, before, last);
      EffectsSnoc(p, env, a + before, last);
      BothAssociates(Effects(p, env, a), Effects(p, env, before), EffectOf(p, env, last));
    }
  }

  lemma EffectsOfOne(p: Prose, env: Env, e: Event)
    ensures Effects(p, env, [e]) == EffectOf(p, env, e)
  {
    assert [e][..0] == [];
    BothAssociates(EffectOf(p, env, e), NO_EFFECT, NO_EFFECT);
  }

  lemma {:induction false} EffectsOfQuiet(p: Prose, env: Env, log: seq<Event>)
    requires forall i :: 0 <= i < |log| ==> !log[i].Handled?
    ensures Effects(p, env, log) == NO_EFFECT
  {
    if log != [] {
      EffectsOfQuiet(p, env, log[..|log| - 1]);
    }
  }

  // --- What the world and the session show ---

  function ToolMessages(messages: seq<Message>): seq<Message> {
    if messages == [] then []
    else
      var before, last := ToolMessages(messages[..|messages| - 1]), messages[|messages| - 1];
      if last.role == Tool then before + [last] else before
  }

  lemma ToolMessagesSnoc(messages: seq<Message>, m: Message)
    ensures ToolMessages(messages + [m]) == ToolMessages(messages) + if m.role == Tool then [m] else []
  {
    assert (messages + [m])[..|messages|] == messages;
  }

  /** The outcomes of a stretch of executions. */
  function Drawn(results: nat -> ExecResult, from: nat, to: nat): seq<Status>
    requires from <= to
  {
    seq(to - from, k requires 0 <= k < to - from => OutcomeOf(results(from + k)))
  }

  /** A call that executed took the next outcome of the world, and no other call did. */
  ghost predicate Drew(world: nat -> ExecResult, status: Status, from: nat, to: nat) {
    if Executed(status) then status == OutcomeOf(world(from)) && to == from + 1 else to == from
  }

  /** The history, the records, the session's tool results and the number of executions at a moment. */
  datatype Trail = Trail(log: seq<Event>, records: seq<Record>, results: seq<Message>, executed: nat)

  /**
    From one moment to another the history has only grown, and what was recorded, answered and executed
    since is what its new events say.
   */
  ghost predicate Told(p: Prose, env: Env, world: nat -> ExecResult, a: Trail, b: Trail) {
    && a.log <= b.log && a.executed <= b.executed
    && var since := Effects(p, env, b.log[|a.log|..]);
    && b.records == a.records + since.records && b.results == a.results + since.results
    && Drawn(world, a.executed, b.executed) == since.outcomes
  }

  lemma DrawnConcat(world: nat -> ExecResult, a: nat, b: nat, c: nat)
    requires a <= b <= c
    ensures Drawn(world, a, c) == Drawn(world, a, b) + Drawn(world, b, c)
  {
  }

  lemma LogSince(a: seq<Event>, b: seq<Event>, c: seq<Event>)
    requires a <= b <= c
    ensures a <= c && c[|a|..] == b[|a|..] + c[|b|..]
  {
  }

  lemma ToldThen(p: Prose, env: Env, world: nat -> ExecResult, a: Trail, b: Trail, c: Trail)
    requires Told(p, env, world, a, b) && Told(p, env, world, b, c)
    ensures Told(p, env, world, a, c)
  {
    LogSince(a.log, b.log, c.log);
    var x, y := Effects(p, env, b.log[|a.log|..]), Effects(p, env, c.log[|b.log|..]);
    EffectsConcat(p, env, b.log[|a.log|..], c.log[|b.log|..]);
    DrawnConcat(world, a.executed, b.executed, c.executed);
    Associate(a.records, x.records, y.records);
    Associate(a.results, x.results, y.results);
  }

  /** Nothing that concerns a call has happened. */
  ghost predicate Quiet(a: seq<Event>, b: seq<Event>) {
    a <= b && forall i :: |a| <= i < |b| ==> !b[i].Handled?
  }

  lemma QuietTells(p: Prose, env: Env, world: nat -> ExecResult, a: Trail, b: Trail)
    requires Quiet(a.log, b.log) && b == Trail(b.log, a.records, a.results, a.executed)
    ensures Told(p, env, world, a, b)
  {
    EffectsOfQuiet(p, env, b.log[|a.log|..]);
    assert a.records + [] == a.records && a.results + [] == a.results;
  }

  lemma NothingTells(p: Prose, env: Env, world: nat -> ExecResult, t: Trail)
    ensures Told(p, env, world, t, t)
  {
    QuietTells(p, env, world, t, t);
  }

  lemma HandledTells(p: Prose, env: Env, world: nat -> ExecResult, a: Trail, e: Event, b: Trail)
    requires e.Handled? && b.log == a.log + [e]
    requires b.records == a.records + if Ends(e.status) then [] else RecordsFor(env, e.call, e.status)
    requires b.results == a.results + if Ends(e.status) then [] else [ResultMessage(p, e.call, e.status)]
    requires Drew(world, e.status, a.executed, b.executed)
    ensures Told(p, env, world, a, b)
  {
    assert b.log[|a.log|..] == [e];
    EffectsOfOne(p, env, e);
    assert Executed(e.status) ==> Drawn(world, a.executed, b.executed) == [e.status];
  }

  // --- Error records ---

  /** How many records say that the tool was executed with the input and failed. */
  function ErrorRecords(records: seq<Record>, name: string, input: string): nat {
    if records == [] then 0
    else
      var r := records[|records| - 1];
      ErrorRecords(records[..|records| - 1], name, input)
      + if r.toolName == name && r.input == input && r.status.Failed? then 1 else 0
  }

  lemma {:induction false} ErrorRecordsConcat(a: seq<Record>, b: seq<Record>, name: string, input: string)
    ensures ErrorRecords(a + b, name, input) == ErrorRecords(a, name, input) + ErrorRecords(b, name, input)
  {
    if b == [] {
      assert a + b == a;
    } else {
      ErrorRecordsConcat(a, b[..|b| - 1], name, input);
      assert (a + b)[..|a + b| - 1] == a + b[..|b| - 1];
    }
  }

  /** No other arguments of the tool are normalized to this input. */
  ghost predicate OnlyFrom(env: Env, name: string, arguments: string, input: string) {
    forall call: ToolCall :: call.name == name && ExecArguments(env, call) == input ==> call.arguments == arguments
  }

  lemma ErrorRecordsOfOne(p: Prose, env: Env, e: Event, name: string, arguments: string, input: string)
    requires OnlyFrom(env, name, arguments, input)
    ensures ErrorRecords(EffectOf(p, env, e).records, name, input) <=
            if e.Handled? && e.status.Failed? && FailureKey(e.call) == name + ":" + arguments then 1 else 0
  {
    var records := EffectOf(p, env, e).records;
    if records != [] {
      assert records[..0] == [];
    }
  }

  lemma {:induction false} ErrorRecordsAreFailures(p: Prose, env: Env, log: seq<Event>, name: string,
                                                   arguments: string, input: string)
    requires OnlyFrom(env, name, arguments, input)
    ensures ErrorRecords(Effects(p, env, log).records, name, input) <= Failures(log, name + ":" + arguments)
  {
    if log != [] {
      var before, last := log[..|log| - 1], log[|log| - 1];
      ErrorRecordsAreFailures(p, env, before, name, arguments, input);
      ErrorRecordsOfOne(p, env, last, name, arguments, input);
      ErrorRecordsConcat(Effects(p, env, before).records, EffectOf(p, env, last).records, name, input);
    }
  }

  /** A run leaves at most two error records for a tool and an input that only one form of the arguments gives. */
  lemma AtMostTwoErrorRecords(c: Config, p: Prose, env: Env, log: seq<Event>, name: string, arguments: string,
                              input: string)
    requires c.loopWindow >= 1 && Lawful(c, env, log) && OnlyFrom(env, name, arguments, input)
    ensures ErrorRecords(Effects(p, env, log).records, name, input) <= 2
  {
    ErrorRecordsAreFailures(p, env, log, name, arguments, input);
    FailsAtMostTwice(c, env, log, name + ":" + arguments);
  }

  /** So a run from a fresh loop leaves at most two, whatever the world does. */
  lemma RunLeavesAtMostTwoErrors(c: Config, p: Prose, env: Env, world: nat -> ExecResult, a: Trail, b: Trail,
                                 name: string, arguments: string, input: string)
    requires c.loopWindow >= 1 && a.log == [] && a.records == [] && Told(p, env, world, a, b) && Lawful(c, env, b.log)
    requires OnlyFrom(env, name, arguments, input)
    ensures ErrorRecords(b.records, name, input) <= 2
  {
    assert b.log[0..] == b.log && b.records == Effects(p, env, b.log).records;
    AtMostTwoErrorRecords(c, p, env, b.log, name, arguments, input);
  }

  /** Nothing but the tool itself stands in the way of a call. */
  predicate Unhindered(env: Env, name: string, arguments: string, input: string) {
    && env.onSurface(name) && env.isKnown(name) && !env.isProtected(name) && !env.isDenied(name, input)
    && env.normalize(name, arguments) == Arguments(input) && input != ""
  }

  lemma FailingIsAllowed(c: Config, env: Env, s: Summary, call: ToolCall, input: string)
    requires c.loopWindow >= 2 && !env.directTurn && Unhindered(env, call.name, call.arguments, input)
    requires s.considered == [] || s.considered[|s.considered| - 1] != (call.name, call.arguments)
    requires Count(s.failures, FailureKey(call)) < 2
    ensures Allowed(c, env, s, Handled(call, 0, Failed("")))
  {
    var all := s.considered + [(call.name, call.arguments)];
    if |all| >= 2 {
      assert all[|all| - 2] == s.considered[|s.considered| - 1];
    }
    assert !LastAllEqual(all, c.loopWindow);
  }

  lemma FailingCounts(p: Prose, env: Env, log: seq<Event>, call: ToolCall, input: string)
    requires call.name != "" && ExecArguments(env, call) == input
    ensures ErrorRecords(Effects(p, env, log + [Handled(call, 0, Failed(""))]).records, call.name, input) ==
            ErrorRecords(Effects(p, env, log).records, call.name, input) + 1
  {
    var e := Handled(call, 0, Failed(""));
    EffectsSnoc(p, env, log, e);
    var one := EffectOf(p, env, e).records;
    ErrorRecordsConcat(Effects(p, env, log).records, one, call.name, input);
    assert one[..0] == [];
  }

  /** A call may fail once more if it is not the one just made and has failed less than twice. */
  lemma FailAgain(c: Config, p: Prose, env: Env, log: seq<Event>, s: Summary, call: ToolCall, input: string,
                  other: string)
    requires c.loopWindow >= 2 && !env.directTurn && call.name != "" && Replay(c, env, log) == Some(s)
    requires Unhindered(env, call.name, call.arguments, input) && other != FailureKey(call)
    requires s.considered == [] || s.considered[|s.considered| - 1] != (call.name, call.arguments)
    requires Count(s.failures, FailureKey(call)) < 2
    ensures var e := Handled(call, 0, Failed(""));
            var t := Advance(env, s, e);
            && Replay(c, env, log + [e]) == Some(t) && t.considered != []
            && t.considered[|t.considered| - 1] == (call.name, call.arguments)
            && Count(t.failures, FailureKey(call)) == Count(s.failures, FailureKey(call)) + 1
            && Count(t.failures, other) == Count(s.failures, other)
            && ErrorRecords(Effects(p, env, log + [e]).records, call.name, input) ==
               ErrorRecords(Effects(p, env, log).records, call.name, input) + 1
  {
    FailingIsAllowed(c, env, s, call, input);
    ReplaySnoc(c, env, log, s, Handled(call, 0, Failed("")));
    FailingCounts(p, env, log, call, input);
  }

  lemma KeysDiffer(a: ToolCall, b: ToolCall)
    requires a.name == b.name && a.arguments != b.arguments
    ensures FailureKey(a) != FailureKey(b)
  {
    var n := |a.name| + 1;
    assert FailureKey(a)[n..] == a.arguments && FailureKey(b)[n..] == b.arguments;
  }

  /** The model is asked once, and its one reply brings calls. */
  const ONE_REPLY: seq<Event> := [Asked] + [Judged(WithTools)]

  lemma AskedIsLawful(c: Config, env: Env)
    requires c.loopWindow >= 1
    ensures Replay(c, env, [Asked]) == Some(Advance(env, NOTHING, Asked))
  {
    assert [Asked][..0] == [];
  }

  lemma OneReplyIsLawful(c: Config, p: Prose, env: Env) returns (s: Summary)
    requires c.loopWindow >= 1
    ensures Replay(c, env, ONE_REPLY) == Some(s) && s == NOTHING.(asks := 1, outcomes := [WithTools])
    ensures Effects(p, env, ONE_REPLY) == NO_EFFECT
  {
    AskedIsLawful(c, env);
    s := Advance(env, NOTHING, Asked);
    ReplaySnoc(c, env, [Asked], s, Judged(WithTools));
    s := Advance(env, s, Judged(WithTools));
    NoEffectOfReply(p, env);
  }

  lemma NoEffectOfReply(p: Prose, env: Env)
    ensures Effects(p, env, ONE_REPLY) == NO_EFFECT
  {
    EffectsOfQuiet(p, env, ONE_REPLY);
  }

  /** With two forms of the arguments for one input there can be four: each form may fail twice in one reply. */
  lemma RewritingAllowsMoreErrors(c: Config, p: Prose, env: Env, a: ToolCall, b: ToolCall, input: string)
    requires c.loopWindow >= 2 && !env.directTurn && a.name == b.name != "" && a.arguments != b.arguments
    requires Unhindered(env, a.name, a.arguments, input) && Unhindered(env, b.name, b.arguments, input)
    ensures var x, y := Handled(a, 0, Failed("")), Handled(b, 0, Failed(""));
            var log := ONE_REPLY + [x] + [y] + [x] + [y];
            Lawful(c, env, log) && ErrorRecords(Effects(p, env, log).records, a.name, input) == 4
  {
    var x, y := Handled(a, 0, Failed("")), Handled(b, 0, Failed(""));
    var s0 := OneReplyIsLawful(c, p, env);
    var s1 := Advance(env, s0, x);
    var s2 := Advance(env, s1, y);
    var s3 := Advance(env, s2, x);
    KeysDiffer(a, b);
    FailAgain(c, p, env, ONE_REPLY, s0, a, input, FailureKey(b));
    FailAgain(c, p, env, ONE_REPLY + [x], s1, b, input, FailureKey(a));
    FailAgain(c, p, env, ONE_REPLY + [x] + [y], s2, a, input, FailureKey(b));
    FailAgain(c, p, env, ONE_REPLY + [x] + [y] + [x], s3, b, input, FailureKey(a));
  }
}
