/**
  When a tool call executes: exactly if nothing in the history, the registry and the policy speaks against
  it, and every refusal names what does.
 */
module RefusalLaws {
  import opened Text
  import opened Conversation
  import opened LoopHistory

  // --- Read-only exploration ---

  /** A read-only success that is neither progress nor evidence. */
  predicate Explores(env: Env, e: Event) {
    && e.Handled? && e.status.Succeeded? && env.isReadOnly(e.call.name) && !env.makesProgress(e.call.name)
    && !env.isEvidence(e.call.name, e.status.metadata)
  }

  /** An event that is no outcome of a tool: nothing was handled, or the call was stopped as a repetition. */
  predicate IsAside(e: Event) {
    e.Handled? ==> e.status.LoopDetected? || e.status.Churn? || e.status.SuppressedReplay?
  }

  function Explorations(env: Env, log: seq<Event>): nat {
    if log == [] then 0 else Explorations(env, log[..|log| - 1]) + if Explores(env, log[|log| - 1]) then 1 else 0
  }

  predicate Interrupts(env: Env, e: Event) {
    !Explores(env, e) && !IsAside(e)
  }

  ghost predicate Uninterrupted(env: Env, log: seq<Event>, from: nat) {
    forall i :: from <= i < |log| ==> !Interrupts(env, log[i])
  }

  /** The streak counts the explorations since the last other outcome. */
  lemma {:induction false} StreakCountsExplorations(c: Config, env: Env, log: seq<Event>) returns (from: nat)
    requires c.loopWindow >= 1 && Lawful(c, env, log)
    ensures from <= |log| && Uninterrupted(env, log, from) && (from > 0 ==> Interrupts(env, log[from - 1]))
    ensures Replay(c, env, log).value.readOnlyStreak == Explorations(env, log[from..])
  {
    from := 0;
    if log != [] {
      var before, last := log[..|log| - 1], log[|log| - 1];
      from := StreakCountsExplorations(c, env, before);
      if Interrupts(env, last) {
        from := |log|;
      } else {
        assert log[from..][..|log[from..]| - 1] == before[from..];
      }
    }
  }

  // --- Replays ---

  /** A success of a protected call under a fingerprint: its result's, or its arguments' if the result has none. */
  predicate Recorded(env: Env, e: Event, key: string) {
    && e.Handled? && e.status.Succeeded? && env.isProtected(e.call.name)
    && var arguments := ExecArguments(env, e.call);
    var result := env.resultFingerprint(e.call.name, arguments, e.status.metadata);
    key == if result != "" then result else env.callFingerprint(e.call.name, arguments)
  }

  ghost predicate WasRecorded(env: Env, log: seq<Event>, key: string) {
    exists i :: 0 <= i < |log| && Recorded(env, log[i], key)
  }

  lemma {:induction false} CountedIffRecorded(c: Config, env: Env, log: seq<Event>, key: string)
    requires c.loopWindow >= 1 && Lawful(c, env, log)
    ensures Count(Replay(c, env, log).value.successes, key) > 0 <==> WasRecorded(env, log, key)
  {
    if log != [] {
      var before := log[..|log| - 1];
      CountedIffRecorded(c, env, before, key);
      if WasRecorded(env, before, key) {
        var i :| 0 <= i < |before| && Recorded(env, before[i], key);
        assert log[i] == before[i];
      }
      if WasRecorded(env, log, key) && !Recorded(env, log[|log| - 1], key) {
        var i :| 0 <= i < |log| && Recorded(env, log[i], key);
        assert before[i] == log[i];
      }
    }
  }

  /** The arguments a tool runs with: the normalized ones, unless normalization leaves nothing. */
  lemma ArgumentsAre(env: Env, call: ToolCall, arguments: string)
    requires env.normalize(call.name, call.arguments) == Arguments(arguments)
    ensures ExecArguments(env, call) == if arguments == "" then call.arguments else arguments
  {
  }

  // --- What speaks against a call ---

  /** With this call a whole window of calls is the same. */
  ghost predicate Repeats(c: Config, log: seq<Event>, call: ToolCall) {
    var calls := Considered(log) + [(call.name, call.arguments)];
    |calls| >= c.loopWindow && forall k :: |calls| - c.loopWindow <= k < |calls| && k >= 0 ==>
      calls[k] == (call.name, call.arguments)
  }

  ghost predicate ExploresTooMuch(c: Config, env: Env, log: seq<Event>, call: ToolCall) {
    && env.directTurn && env.isReadOnly(call.name) && c.maxReadOnlyExploration > 0
    && exists from :: 0 <= from <= |log| && Uninterrupted(env, log, from)
                      && Explorations(env, log[from..]) >= c.maxReadOnlyExploration
  }

  predicate FailedTwice(log: seq<Event>, call: ToolCall) {
    Failures(log, call.name + ":" + call.arguments) >= 2
  }

  ghost predicate IsReplay(env: Env, log: seq<Event>, call: ToolCall, priorResults: nat) {
    && env.isProtected(call.name)
    && (priorResults > 0 || WasRecorded(env, log, env.callFingerprint(call.name, ExecArguments(env, call))))
  }

  /** The registry and the policy let the call through: the tool is offered and known, and its arguments are fit. */
  predicate IsFit(env: Env, call: ToolCall) {
    && env.onSurface(call.name) && env.isKnown(call.name) && env.normalize(call.name, call.arguments).Arguments?
  }

  /** The verdict on a call names its cause, and nothing that is looked at earlier speaks against the call. */
  ghost predicate HasCause(c: Config, env: Env, log: seq<Event>, call: ToolCall, priorResults: nat, status: Status) {
    var repeats, explores, failed := Repeats(c, log, call), ExploresTooMuch(c, env, log, call), FailedTwice(log, call);
    var calm := !repeats && !explores && !failed;
    var n := env.normalize(call.name, call.arguments);
    match status
    case LoopDetected => repeats
    case Churn => explores && !repeats
    case Suppressed => failed && !repeats && !explores
    case OutOfSurface => calm && !env.onSurface(call.name)
    case UnknownTool => calm && env.onSurface(call.name) && !env.isKnown(call.name)
    case InvalidArguments(reason) =>
      calm && env.onSurface(call.name) && env.isKnown(call.name) && n == Rejected(reason)
    case SuppressedReplay => calm && IsFit(env, call) && IsReplay(env, log, call, priorResults)
    case Denied =>
      calm && IsFit(env, call) && !IsReplay(env, log, call, priorResults)
      && env.isDenied(call.name, ExecArguments(env, call))
    case _ =>
      calm && IsFit(env, call) && !IsReplay(env, log, call, priorResults)
      && !env.isDenied(call.name, ExecArguments(env, call))
  }

  lemma {:induction false} ExplorationsShrink(env: Env, log: seq<Event>, from: nat, later: nat)
    requires from <= later <= |log|
    ensures Explorations(env, log[later..]) <= Explorations(env, log[from..])
    decreases |log|
  {
    if later < |log| {
      var before := log[..|log| - 1];
      ExplorationsShrink(env, before, from, later);
      assert log[later..][..|log| - later - 1] == before[later..];
      assert log[from..][..|log| - from - 1] == before[from..];
    } else {
      assert log[later..] == [];
    }
  }

  lemma StreakReachesIff(c: Config, env: Env, log: seq<Event>, call: ToolCall)
    requires c.loopWindow >= 1 && Lawful(c, env, log)
    ensures ExploresTooMuch(c, env, log, call) <==>
            env.directTurn && env.isReadOnly(call.name)
            && 0 < c.maxReadOnlyExploration <= Replay(c, env, log).value.readOnlyStreak
  {
    var from := StreakCountsExplorations(c, env, log);
    if ExploresTooMuch(c, env, log, call) {
      var j :| 0 <= j <= |log| && Uninterrupted(env, log, j)
               && Explorations(env, log[j..]) >= c.maxReadOnlyExploration;
      ExplorationsShrink(env, log, from, j);
    }
  }

  /**
    Over every lawful history each verdict has its cause: a call executes exactly if nothing speaks against
    it, in particular only if its tool is offered and known, its arguments are fit and the policy allows
    the tool with them; and whatever refuses it is the first thing that does.
   */
  lemma VerdictHasCause(c: Config, env: Env, log: seq<Event>, i: nat)
    requires c.loopWindow >= 1 && Lawful(c, env, log) && i < |log| && log[i].Handled?
    ensures HasCause(c, env, log[..i], log[i].call, log[i].priorResults, log[i].status)
  {
    var before, call := log[..i], log[i].call;
    LawfulAt(c, env, log, i);
    SummaryIsTrue(c, env, before, FailureKey(call));
    StreakReachesIff(c, env, before, call);
    CountedIffRecorded(c, env, before, CallFingerprint(env, call));
  }

  /** No denied call is ever executed, nor one of a tool that is unknown or not offered, or with unfit arguments. */
  lemma ExecutedIsAllowed(c: Config, env: Env, log: seq<Event>, i: nat)
    requires c.loopWindow >= 1 && Lawful(c, env, log) && i < |log| && log[i].Handled? && Executed(log[i].status)
    ensures env.onSurface(log[i].call.name) && env.isKnown(log[i].call.name)
    ensures !env.normalize(log[i].call.name, log[i].call.arguments).Rejected?
    ensures !env.isDenied(log[i].call.name, ExecArguments(env, log[i].call))
  {
    VerdictHasCause(c, env, log, i);
  }

  /** What executes is determined: with no cause against it a call executes. */
  lemma ExecutesIff(c: Config, env: Env, log: seq<Event>, i: nat)
    requires c.loopWindow >= 1 && Lawful(c, env, log) && i < |log| && log[i].Handled?
    ensures var before, call := log[..i], log[i].call;
            Executed(log[i].status) <==>
            && !Repeats(c, before, call) && !ExploresTooMuch(c, env, before, call) && !FailedTwice(before, call)
            && IsFit(env, call) && !IsReplay(env, before, call, log[i].priorResults)
            && !env.isDenied(call.name, ExecArguments(env, call))
  {
    VerdictHasCause(c, env, log, i);
  }
}
