/**
  The ReAct loop's decisions, stated over the full history of a run: which tool calls may execute,
  when a repetition is a loop, when replies make no progress. The loop itself keeps only counters and
  short windows.
 */
module LoopHistory {
  import opened Text
  import opened Conversation

  datatype Config = Config(maxTurns: int, idleThreshold: int, loopWindow: int,
                           maxSameRouteNoProgress: int, maxReadOnlyExploration: int)

  datatype Normalized = Arguments(arguments: string) | Rejected(reason: string)

  /** What the turn, the tool registry, the policy and the fingerprinting say; nothing is assumed of them. */
  datatype Env = Env(directTurn: bool,
                     isReadOnly: string -> bool,
                     makesProgress: string -> bool,
                     isEvidence: (string, string) -> bool,
                     isProtected: string -> bool,
                     onSurface: string -> bool,
                     isKnown: string -> bool,
                     normalize: (string, string) -> Normalized,
                     isDenied: (string, string) -> bool,
                     callFingerprint: (string, string) -> string,
                     resultFingerprint: (string, string, string) -> string)

  datatype Status =
    | LoopDetected | Churn
    | Suppressed | OutOfSurface | UnknownTool | InvalidArguments(reason: string) | SuppressedReplay | Denied
    | Failed(message: string) | Succeeded(output: string, metadata: string)

  /** A reply in the thinking phase, as far as progress is concerned. */
  datatype Outcome = WithTools | Plain(route: string, skeleton: string, resultsSeen: nat)

  /**
    What happens in a run: the model is asked, in the thinking phase its reply is judged, and a tool call
    is handled. `priorResults` is how many earlier results of the session match the call's fingerprint.
   */
  datatype Event =
    | Asked
    | Judged(outcome: Outcome)
    | Handled(call: ToolCall, priorResults: nat, status: Status)

  predicate Executed(status: Status) {
    status.Failed? || status.Succeeded?
  }

  function FailureKey(call: ToolCall): string {
    call.name + ":" + call.arguments
  }

  function ExecArguments(env: Env, call: ToolCall): string {
    var n := env.normalize(call.name, call.arguments);
    if n.Arguments? && n.arguments != "" then n.arguments else call.arguments
  }

  function CallFingerprint(env: Env, call: ToolCall): string {
    env.callFingerprint(call.name, ExecArguments(env, call))
  }

  /** The fingerprint a success is recorded under: the result's, or the call's when that is empty. */
  function RecordedFingerprint(env: Env, call: ToolCall, metadata: string): string {
    var key := env.resultFingerprint(call.name, ExecArguments(env, call), metadata);
    if key == "" then CallFingerprint(env, call) else key
  }

  /** The last `n` elements exist and are all the same. */
  predicate LastAllEqual<T(==)>(s: seq<T>, n: nat) {
    1 <= n <= |s| && forall k :: |s| - n <= k < |s| ==> s[k] == s[|s| - 1]
  }

  // --- Running summary of a history ---

  /**
    What the decisions depend on: how often the model was asked, every call considered and every outcome
    judged, in order, read-only successes in a row, execution errors by key, and successes of
    replay-protected calls by fingerprint.
   */
  datatype Summary = Summary(asks: nat, considered: seq<(string, string)>, outcomes: seq<Outcome>,
                             readOnlyStreak: nat,
                             failures: map<string, nat>, successes: map<string, nat>)

  const NOTHING := Summary(0, [], [], 0, map[], map[])

  function Count(m: map<string, nat>, key: string): nat {
    if key in m then m[key] else 0
  }

  function Bumped(m: map<string, nat>, key: string): map<string, nat> {
    m[key := Count(m, key) + 1]
  }

  /** What a handled call does to the streak of read-only successes; a suppressed replay leaves it alone. */
  function StreakAfter(env: Env, streak: nat, call: ToolCall, status: Status): nat {
    match status
    case LoopDetected => streak
    case Churn => streak
    case SuppressedReplay => streak
    case Succeeded(_, metadata) =>
      if env.makesProgress(call.name) || env.isEvidence(call.name, metadata) then 0
      else if env.isReadOnly(call.name) then streak + 1
      else 0
    case _ => 0
  }

  function FailuresAfter(failures: map<string, nat>, call: ToolCall, status: Status): map<string, nat> {
    if status.Failed? then Bumped(failures, FailureKey(call)) else failures
  }

  function SuccessesAfter(env: Env, successes: map<string, nat>, call: ToolCall, status: Status): map<string, nat> {
    if status.Succeeded? && env.isProtected(call.name) then
      Bumped(successes, RecordedFingerprint(env, call, status.metadata))
    else successes
  }

  function Advance(env: Env, s: Summary, e: Event): Summary {
    match e
    case Asked => s.(asks := s.asks + 1)
    case Judged(outcome) => s.(outcomes := s.outcomes + [outcome])
    case Handled(call, _, status) =>
      s.(considered := s.considered + [(call.name, call.arguments)],
         readOnlyStreak := StreakAfter(env, s.readOnlyStreak, call, status),
         failures := FailuresAfter(s.failures, call, status),
         successes := SuccessesAfter(env, s.successes, call, status))
  }

  /** Why a call is not executed, if it is not; in the order the checks are made. */
  function Refusal(c: Config, env: Env, s: Summary, call: ToolCall, priorResults: nat): Option<Status>
    requires c.loopWindow >= 1
  {
    if LastAllEqual(s.considered + [(call.name, call.arguments)], c.loopWindow) then Some(LoopDetected)
    else if env.directTurn && env.isReadOnly(call.name) && 0 < c.maxReadOnlyExploration <= s.readOnlyStreak then
      Some(Churn)
    else if Count(s.failures, FailureKey(call)) >= 2 then Some(Suppressed)
    else if !env.onSurface(call.name) then Some(OutOfSurface)
    else if !env.isKnown(call.name) then Some(UnknownTool)
    else if env.normalize(call.name, call.arguments).Rejected? then
      Some(InvalidArguments(env.normalize(call.name, call.arguments).reason))
    else if env.isProtected(call.name) && (Count(s.successes, CallFingerprint(env, call)) > 0 || priorResults > 0) then
      Some(SuppressedReplay)
    else if env.isDenied(call.name, ExecArguments(env, call)) then Some(Denied)
    else None
  }

  /** An event the history before it allows: a call gets its refusal, or is executed when there is none. */
  predicate Allowed(c: Config, env: Env, s: Summary, e: Event)
    requires c.loopWindow >= 1
  {
    e.Handled? ==>
      var refusal := Refusal(c, env, s, e.call, e.priorResults);
      if refusal.Some? then e.status == refusal.value else Executed(e.status)
  }

  /** Walks a history, checking every event against the ones before it; the summary if all are allowed. */
  function Replay(c: Config, env: Env, log: seq<Event>): Option<Summary>
    requires c.loopWindow >= 1
  {
    if log == [] then Some(NOTHING)
    else
      var before, last := Replay(c, env, log[..|log| - 1]), log[|log| - 1];
      if before.Some? && Allowed(c, env, before.value, last) then Some(Advance(env, before.value, last)) else None
  }

  predicate Lawful(c: Config, env: Env, log: seq<Event>)
    requires c.loopWindow >= 1
  {
    Replay(c, env, log).Some?
  }

  lemma ReplaySnoc(c: Config, env: Env, log: seq<Event>, s: Summary, e: Event)
    requires c.loopWindow >= 1 && Replay(c, env, log) == Some(s) && Allowed(c, env, s, e)
    ensures Replay(c, env, log + [e]) == Some(Advance(env, s, e))
  {
    assert (log + [e])[..|log|] == log;
  }

  lemma {:induction false} LawfulAt(c: Config, env: Env, log: seq<Event>, i: nat)
    requires c.loopWindow >= 1 && Lawful(c, env, log) && i < |log|
    ensures Lawful(c, env, log[..i]) && Allowed(c, env, Replay(c, env, log[..i]).value, log[i])
  {
    if i < |log| - 1 {
      LawfulAt(c, env, log[..|log| - 1], i);
      assert log[..|log| - 1][..i] == log[..i];
    }
  }

  // --- Histories with the summaries between their events ---

  ghost predicate StepAt(c: Config, env: Env, summaries: seq<Summary>, log: seq<Event>, i: nat)
    requires c.loopWindow >= 1 && |summaries| == |log| + 1 && i < |log|
  {
    Allowed(c, env, summaries[i], log[i]) && summaries[i + 1] == Advance(env, summaries[i], log[i])
  }

  ghost predicate IsHistory(c: Config, env: Env, summaries: seq<Summary>, log: seq<Event>) {
    && c.loopWindow >= 1 && |summaries| == |log| + 1 && summaries[0] == NOTHING
    && forall i :: 0 <= i < |log| ==> StepAt(c, env, summaries, log, i)
  }

  lemma HistoryExtends(c: Config, env: Env, summaries: seq<Summary>, log: seq<Event>, e: Event)
    requires IsHistory(c, env, summaries, log) && Allowed(c, env, summaries[|log|], e)
    ensures IsHistory(c, env, summaries + [Advance(env, summaries[|log|], e)], log + [e])
  {
    var more, all := summaries + [Advance(env, summaries[|log|], e)], log + [e];
    forall i | 0 <= i < |all| ensures StepAt(c, env, more, all, i) {
      assert i < |log| ==> StepAt(c, env, summaries, log, i);
    }
  }

  /** Such a history is lawful, and its summaries are those of its prefixes. */
  lemma {:induction false} HistoryIsLawful(c: Config, env: Env, summaries: seq<Summary>, log: seq<Event>, i: nat)
    requires IsHistory(c, env, summaries, log) && i <= |log|
    ensures Replay(c, env, log[..i]) == Some(summaries[i])
  {
    if i > 0 {
      HistoryIsLawful(c, env, summaries, log, i - 1);
      assert StepAt(c, env, summaries, log, i - 1);
      assert log[..i] == log[..i - 1] + [log[i - 1]];
      ReplaySnoc(c, env, log[..i - 1], summaries[i - 1], log[i - 1]);
    }
  }

  // --- What the summary says about the history ---

  /** The calls considered so far, in order, whatever became of them. */
  function Considered(log: seq<Event>): seq<(string, string)> {
    if log == [] then []
    else
      var last, before := log[|log| - 1], Considered(log[..|log| - 1]);
      if last.Handled? then before + [(last.call.name, last.call.arguments)] else before
  }

  function Asks(log: seq<Event>): nat {
    if log == [] then 0 else Asks(log[..|log| - 1]) + if log[|log| - 1].Asked? then 1 else 0
  }

  /** How often calls with this key ended in an execution error. */
  function Failures(log: seq<Event>, key: string): nat {
    if log == [] then 0
    else
      var last := log[|log| - 1];
      var fails := last.Handled? && last.status.Failed? && FailureKey(last.call) == key;
      Failures(log[..|log| - 1], key) + if fails then 1 else 0
  }

  predicate RecordsUnder(env: Env, e: Event, key: string) {
    e.Handled? && e.status.Succeeded? && env.isProtected(e.call.name)
      && RecordedFingerprint(env, e.call, e.status.metadata) == key
  }

  lemma {:induction false} SummaryIsTrue(c: Config, env: Env, log: seq<Event>, key: string)
    requires c.loopWindow >= 1 && Lawful(c, env, log)
    ensures var s := Replay(c, env, log).value;
            s.asks == Asks(log) && s.considered == Considered(log) && Count(s.failures, key) == Failures(log, key)
  {
    if log != [] {
      SummaryIsTrue(c, env, log[..|log| - 1], key);
    }
  }

  lemma {:induction false} RecordedIsCounted(c: Config, env: Env, log: seq<Event>, i: nat, key: string)
    requires c.loopWindow >= 1 && Lawful(c, env, log) && i < |log| && RecordsUnder(env, log[i], key)
    ensures Count(Replay(c, env, log).value.successes, key) > 0
  {
    if i < |log| - 1 {
      RecordedIsCounted(c, env, log[..|log| - 1], i, key);
    }
  }

  // --- What every lawful history satisfies ---

  /** The same call ends in an execution error at most twice. */
  lemma {:induction false} FailsAtMostTwice(c: Config, env: Env, log: seq<Event>, key: string)
    requires c.loopWindow >= 1 && Lawful(c, env, log)
    ensures Failures(log, key) <= 2
  {
    if log != [] {
      FailsAtMostTwice(c, env, log[..|log| - 1], key);
      SummaryIsTrue(c, env, log[..|log| - 1], key);
    }
  }

  /** A replay-protected call does not execute once a success was recorded under its fingerprint. */
  lemma ProtectedCallsAreNotReplayed(c: Config, env: Env, log: seq<Event>, i: nat, j: nat)
    requires c.loopWindow >= 1 && Lawful(c, env, log) && i < j < |log|
    requires log[j].Handled? && env.isProtected(log[j].call.name)
    requires RecordsUnder(env, log[i], CallFingerprint(env, log[j].call))
    ensures !Executed(log[j].status)
  {
    LawfulAt(c, env, log, j);
    RecordedIsCounted(c, env, log[..j], i, CallFingerprint(env, log[j].call));
  }

  /** A call is found looping exactly when it completes a window of identical calls, and then it does not execute. */
  lemma RepeatedCallIsNotExecuted(c: Config, env: Env, log: seq<Event>, i: nat)
    requires c.loopWindow >= 1 && Lawful(c, env, log) && i < |log| && log[i].Handled?
    ensures LastAllEqual(Considered(log[..i + 1]), c.loopWindow) <==> log[i].status == LoopDetected
    ensures LastAllEqual(Considered(log[..i + 1]), c.loopWindow) ==> !Executed(log[i].status)
  {
    LawfulAt(c, env, log, i);
    SummaryIsTrue(c, env, log[..i], "");
    assert log[..i + 1][..i] == log[..i];
  }

  /** On a direct turn, read-only exploration stops at the threshold. */
  lemma {:induction false} ExplorationIsBounded(c: Config, env: Env, log: seq<Event>)
    requires c.loopWindow >= 1 && Lawful(c, env, log) && env.directTurn && c.maxReadOnlyExploration > 0
    ensures Replay(c, env, log).value.readOnlyStreak <= c.maxReadOnlyExploration
  {
    if log != [] {
      ExplorationIsBounded(c, env, log[..|log| - 1]);
    }
  }

  // --- Progress of replies ---

  /** The streak the loop keeps: equal tool-free outcomes at the end. */
  function PlainStreak(outcomes: seq<Outcome>): nat {
    if outcomes == [] || outcomes[|outcomes| - 1].WithTools? then 0
    else
      var before := outcomes[..|outcomes| - 1];
      1 + if before != [] && before[|before| - 1] == outcomes[|outcomes| - 1] then PlainStreak(before) else 0
  }

  lemma PlainStreakSnoc(outcomes: seq<Outcome>, outcome: Outcome)
    ensures PlainStreak(outcomes + [outcome]) ==
            if outcome.WithTools? then 0
            else if outcomes != [] && outcomes[|outcomes| - 1] == outcome then PlainStreak(outcomes) + 1
            else 1
  {
    assert (outcomes + [outcome])[..|outcomes|] == outcomes;
  }

  /** The streak reaches a threshold exactly when that many outcomes at the end are tool-free and the same. */
  lemma {:induction false} StreakIsRun(outcomes: seq<Outcome>, n: nat)
    requires n >= 1
    ensures PlainStreak(outcomes) >= n <==> LastAllEqual(outcomes, n) && outcomes[|outcomes| - 1].Plain?
  {
    if outcomes != [] && n > 1 {
      var before := outcomes[..|outcomes| - 1];
      StreakIsRun(before, n - 1);
      assert forall k :: 0 <= k < |before| ==> before[k] == outcomes[k];
    }
  }
}
