/**
  The ReAct loop: a seven-state machine driven by whatever the model replies and the tools return. It
  keeps counters, maps and a short window of calls; `log`, the full history, is only there to say what
  they mean.
 */
module AgentLoop {
  import opened Text
  import opened Conversation
  import opened CallGroups
  import opened LoopHistory
  import opened LoopTrail
  import opened LoopState
  import opened LoopOutcome

  class Session {
    var messages: seq<Message>
    var pending: seq<ToolCall>
    var continuation: Option<string>

    ghost function Value(): View
      reads this
    {
      View(messages, pending, continuation)
    }

    constructor (messages: seq<Message>)
      ensures this.messages == messages && pending == [] && continuation == None
    {
      this.messages, pending, continuation := messages, [], None;
    }

    method ConsumeContinuation()
      modifies this`continuation
      ensures continuation == None
    {
      continuation := None;
    }

    method AddAssistantMessage(content: string, calls: seq<ToolCall>)
      modifies this
      ensures messages == old(messages) + [AssistantMessage(content, calls)]
      ensures pending == calls && continuation == old(continuation)
    {
      messages := messages + [AssistantMessage(content, calls)];
      pending := calls;
    }

    method AddSystemMessage(message: Message)
      modifies this`messages
      ensures messages == old(messages) + [message]
    {
      messages := messages + [message];
    }

    /** Appends a result and takes the call it answers off the pending list. */
    method AddToolResult(result: Message)
      modifies this
      ensures messages == old(messages) + [result] && continuation == old(continuation)
      ensures pending == Unanswered(old(pending), result.toolCallId)
    {
      messages := messages + [result];
      var remaining: seq<ToolCall> := [];
      for i := 0 to |pending|
        invariant messages == old(messages) + [result] && pending == old(pending) && continuation == old(continuation)
        invariant remaining + Unanswered(pending[i..], result.toolCallId) == Unanswered(pending, result.toolCallId)
      {
        assert pending[i..][1..] == pending[i + 1..];
        if pending[i].id != result.toolCallId {
          remaining := remaining + [pending[i]];
        }
      }
      pending := remaining;
    }
  }

  class World {
    const replies: nat -> LlmResult
    const results: nat -> ExecResult
    const interrupts: nat -> Interrupt
    var asked: nat
    var executed: nat
    var ticks: nat

    constructor (replies: nat -> LlmResult, results: nat -> ExecResult, interrupts: nat -> Interrupt)
    {
      this.replies, this.results, this.interrupts := replies, results, interrupts;
      asked, executed, ticks := 0, 0, 0;
    }

    method Complete() returns (r: LlmResult)
      modifies this`asked
      ensures r == replies(old(asked)) && asked == old(asked) + 1
    {
      r, asked := replies(asked), asked + 1;
    }

    method Execute() returns (r: ExecResult)
      modifies this`executed
      ensures r == results(old(executed)) && executed == old(executed) + 1
    {
      r, executed := results(executed), executed + 1;
    }

    method Tick() returns (r: Interrupt)
      modifies this`ticks
      ensures r == interrupts(old(ticks)) && ticks == old(ticks) + 1
    {
      r, ticks := interrupts(ticks), ticks + 1;
    }
  }

  class Loop {
    const config: Config
    const env: Env
    const prose: Prose
    var state: State
    var turnCount: nat
    var noOpCount: nat
    var recentCalls: seq<(string, string)>
    var lastNoProgress: NoProgress
    var readOnlyStreak: nat
    var failedCalls: map<string, nat>
    var successfulCalls: map<string, nat>
    var records: seq<Record>
    var doneReason: DoneReason
    ghost var log: seq<Event>
    ghost var summaries: seq<Summary>
    ghost var summary: Summary

    ghost function Kept(): Counters
      reads `recentCalls, `failedCalls, `successfulCalls, `readOnlyStreak, `lastNoProgress, `turnCount
    {
      Counters(recentCalls, failedCalls, successfulCalls, readOnlyStreak, lastNoProgress, turnCount)
    }

    /** The fields stand for the full history. */
    ghost predicate Valid()
      reads `recentCalls, `failedCalls, `successfulCalls, `readOnlyStreak, `lastNoProgress, `turnCount
      reads `log, `summaries, `summary
    {
      Consistent(config, env, log, summaries, summary, Kept())
    }

    ghost function Here(session: Session): Acted
      reads `records, session
    {
      Acted(session.messages, records, session.pending)
    }

    /** What there is to see of the run so far. */
    ghost function Now(session: Session, world: World): Trail
      reads `log, `records, session, world`executed
    {
      TrailOf(log, Here(session), world.executed)
    }

    constructor (config: Config, env: Env, prose: Prose)
      requires config.loopWindow >= 1
      ensures Valid() && Ready() && state == Thinking && turnCount == 0 && log == [] && records == []
      ensures this.config == config && this.env == env && this.prose == prose
    {
      this.config, this.env, this.prose := config, env, prose;
      state, turnCount, noOpCount, recentCalls, readOnlyStreak := Thinking, 0, 0, [], 0;
      lastNoProgress := NoProgress(WithTools, 0);
      failedCalls, successfulCalls, records, doneReason := map[], map[], [], Running;
      log, summaries, summary := [], [NOTHING], NOTHING;
    }

    /** A loop that has not run yet, or is done. */
    ghost predicate Ready()
      reads `state, `doneReason, `noOpCount, `log
    {
      Phases(log) && (state == Done || (state == Thinking && doneReason == Running && noOpCount == 0 && log == []))
    }

    /** Moves the machine; an idle streak ends it. */
    method Transition(action: Action)
      modifies this`state, this`noOpCount
      ensures noOpCount == NextNoOps(action, old(noOpCount))
      ensures state == NextState(action, noOpCount, config.idleThreshold)
    {
      match action
      case Think => noOpCount, state := 0, Thinking;
      case Act => noOpCount, state := 0, Acting;
      case Observe => noOpCount, state := 0, Observing;
      case Persist => state := Persisting;
      case Reflect => noOpCount, state := 0, Reflecting;
      case NoOp =>
        noOpCount := noOpCount + 1;
        state := if noOpCount >= config.idleThreshold then Idle else Thinking;
      case Finish => state := Done;
    }

    method Terminate(reason: DoneReason)
      modifies this`state, this`doneReason
      ensures state == Done && doneReason == reason
    {
      state, doneReason := Done, reason;
    }

    method Slide(call: (string, string))
      requires config.loopWindow >= 1
      modifies this`recentCalls
      ensures recentCalls == Window(old(recentCalls) + [call], config.loopWindow)
    {
      recentCalls := recentCalls + [call];
      if |recentCalls| > config.loopWindow {
        recentCalls := recentCalls[|recentCalls| - config.loopWindow..];
      }
    }

    /** Slides the window; looping is exactly that the last window's worth of the full history is one call. */
    method DetectLoop(call: ToolCall) returns (looping: bool)
      requires config.loopWindow >= 1 && recentCalls == Window(summary.considered, config.loopWindow)
      modifies this`recentCalls
      ensures recentCalls == Window(summary.considered + [(call.name, call.arguments)], config.loopWindow)
      ensures looping == LastAllEqual(summary.considered + [(call.name, call.arguments)], config.loopWindow)
    {
      WindowSnoc(summary.considered, (call.name, call.arguments), config.loopWindow);
      Slide((call.name, call.arguments));
      WindowAllEqual(summary.considered + [(call.name, call.arguments)], config.loopWindow);
      looping := IsFullOfOne(recentCalls, config.loopWindow);
    }

    /** The checks between loop detection and execution, made on the counters. */
    method Decide(messages: seq<Message>, call: ToolCall) returns (refusal: Option<Status>)
      requires config.loopWindow >= 1 && failedCalls == summary.failures && successfulCalls == summary.successes
      requires readOnlyStreak == summary.readOnlyStreak
      requires !LastAllEqual(summary.considered + [(call.name, call.arguments)], config.loopWindow)
      ensures refusal == Refusal(config, env, summary, call,
                                 PriorResults(env, messages, call.name, CallFingerprint(env, call)))
    {
      if env.directTurn && env.isReadOnly(call.name) && config.maxReadOnlyExploration > 0
         && readOnlyStreak >= config.maxReadOnlyExploration {
        return Some(Churn);
      }
      if Count(failedCalls, FailureKey(call)) >= 2 {
        return Some(Suppressed);
      }
      if !env.onSurface(call.name) {
        return Some(OutOfSurface);
      }
      if !env.isKnown(call.name) {
        return Some(UnknownTool);
      }
      var normalized := env.normalize(call.name, call.arguments);
      if normalized.Rejected? {
        return Some(InvalidArguments(normalized.reason));
      }
      var key := CallFingerprint(env, call);
      var successCount := Count(successfulCalls, key);
      var historyCount := PriorResults(env, messages, call.name, key);
      if historyCount > successCount {
        successCount := historyCount;
      }
      if successCount > 0 && env.isProtected(call.name) {
        return Some(SuppressedReplay);
      }
      if env.isDenied(call.name, ExecArguments(env, call)) {
        return Some(Denied);
      }
      return None;
    }

    method NoteFailure(call: ToolCall, status: Status)
      modifies this`failedCalls
      ensures failedCalls == FailuresAfter(old(failedCalls), call, status)
    {
      if status.Failed? {
        failedCalls := failedCalls[FailureKey(call) := Count(failedCalls, FailureKey(call)) + 1];
      }
    }

    method NoteSuccess(call: ToolCall, status: Status)
      modifies this`successfulCalls
      ensures successfulCalls == SuccessesAfter(env, old(successfulCalls), call, status)
    {
      if status.Succeeded? && env.isProtected(call.name) {
        var key := env.resultFingerprint(call.name, ExecArguments(env, call), status.metadata);
        if key == "" {
          key := CallFingerprint(env, call);
        }
        successfulCalls := successfulCalls[key := Count(successfulCalls, key) + 1];
      }
    }

    method NoteOutcome(call: ToolCall, status: Status)
      modifies this`readOnlyStreak
      ensures readOnlyStreak == StreakAfter(env, old(readOnlyStreak), call, status)
    {
      match status {
        case LoopDetected =>
        case Churn =>
        case SuppressedReplay =>
        case Succeeded(_, metadata) =>
          if env.makesProgress(call.name) {
            readOnlyStreak := 0;
          } else if env.isEvidence(call.name, metadata) {
            readOnlyStreak := 0;
          } else if env.isReadOnly(call.name) {
            readOnlyStreak := readOnlyStreak + 1;
          } else {
            readOnlyStreak := 0;
          }
        case _ => readOnlyStreak := 0;
      }
    }

    /** Resolves one call: executes it if nothing speaks against it, and counts the outcome. */
    method Resolve(messages: seq<Message>, world: World, call: ToolCall) returns (status: Status, ghost e: Event)
      requires Valid()
      modifies this`recentCalls, this`failedCalls, this`successfulCalls, this`readOnlyStreak, this`log,
               this`summaries, this`summary
      modifies world`executed
      ensures Valid() && log == old(log) + [e]
      ensures e == Handled(call, PriorResults(env, messages, call.name, CallFingerprint(env, call)), status)
      ensures Drew(world.results, status, old(world.executed), world.executed)
    {
      var refusal := Judge(messages, call);
      status := Perform(world, refusal);
      e := Handled(call, PriorResults(env, messages, call.name, CallFingerprint(env, call)), status);
      Tally(call, e.priorResults, status);
    }

    /** Executes a call unless it is refused. */
    method Perform(world: World, refusal: Option<Status>) returns (status: Status)
      requires refusal.Some? ==> !Executed(refusal.value)
      modifies world`executed
      ensures if refusal.Some? then status == refusal.value else Executed(status)
      ensures Drew(world.results, status, old(world.executed), world.executed)
    {
      if refusal.Some? {
        return refusal.value;
      }
      var result := world.Execute();
      return OutcomeOf(result);
    }

    /** Everything that speaks against a call, the repetition of it first. */
    method Judge(messages: seq<Message>, call: ToolCall) returns (refusal: Option<Status>)
      requires Valid()
      modifies this`recentCalls
      ensures recentCalls == Window(summary.considered + [(call.name, call.arguments)], config.loopWindow)
      ensures refusal == Refusal(config, env, summary, call,
                                 PriorResults(env, messages, call.name, CallFingerprint(env, call)))
    {
      var looping := DetectLoop(call);
      if looping {
        return Some(LoopDetected);
      }
      refusal := Decide(messages, call);
    }

    /** Counts what became of a call, which the window already holds. */
    method Tally(call: ToolCall, ghost priorResults: nat, status: Status)
      requires IsHistory(config, env, summaries, log) && summary == summaries[|log|]
      requires Allowed(config, env, summary, Handled(call, priorResults, status))
      requires failedCalls == summary.failures && successfulCalls == summary.successes
               && readOnlyStreak == summary.readOnlyStreak
      modifies this`failedCalls, this`successfulCalls, this`readOnlyStreak, this`log, this`summaries, this`summary
      ensures log == old(log) + [Handled(call, priorResults, status)]
      ensures IsHistory(config, env, summaries, log) && summary == summaries[|log|]
      ensures failedCalls == summary.failures && successfulCalls == summary.successes
              && readOnlyStreak == summary.readOnlyStreak
      ensures summary.considered == old(summary.considered) + [(call.name, call.arguments)]
      ensures summary.asks == old(summary.asks) && summary.outcomes == old(summary.outcomes)
    {
      NoteFailure(call, status);
      NoteSuccess(call, status);
      NoteOutcome(call, status);
      Enter(Handled(call, priorResults, status));
    }

    /** Enters an event in the history. */
    ghost method Enter(e: Event)
      requires IsHistory(config, env, summaries, log) && summary == summaries[|log|] && Allowed(config, env, summary, e)
      modifies this`log, this`summaries, this`summary
      ensures IsHistory(config, env, summaries, log) && summary == summaries[|log|]
      ensures log == old(log) + [e] && summary == Advance(env, old(summary), e)
    {
      HistoryExtends(config, env, summaries, log, e);
      summary := Advance(env, summary, e);
      log, summaries := log + [e], summaries + [summary];
    }

    /** The history is lawful, so that its laws hold of every run. */
    lemma LogIsLawful()
      requires Valid()
      ensures Replay(config, env, log) == Some(summary) && Lawful(config, env, log)
    {
      HistoryIsLawful(config, env, summaries, log, |log|);
      assert log[..|log|] == log;
    }

    /** Handles one pending call and reports the result; a loop or churn ends the run instead. */
    method HandleCall(session: Session, world: World, call: ToolCall) returns (status: Status)
      requires Valid() && state == Acting
      modifies this`recentCalls, this`failedCalls, this`successfulCalls, this`readOnlyStreak, this`log,
               this`summaries, this`summary
      modifies this`state, this`doneReason, this`records, session, world`executed
      ensures Valid()
      ensures state == if Ends(status) then Done else Acting
      ensures if Ends(status) then OverActing(prose, log, doneReason, session.messages)
              else doneReason == old(doneReason)
      ensures ActLogs(old(log), log)
      ensures Told(prose, env, world.results, old(Now(session, world)), Now(session, world))
      ensures Reported(prose, env, call, status, old(Here(session)), Here(session))
    {
      ghost var e;
      status, e := ResolveAndReport(session, world, call);
      ReportTells(prose, env, world.results, old(log), e, old(Here(session)), Here(session), old(world.executed),
                  world.executed);
    }

    method ResolveAndReport(session: Session, world: World, call: ToolCall) returns (status: Status, ghost e: Event)
      requires Valid() && state == Acting
      modifies this`recentCalls, this`failedCalls, this`successfulCalls, this`readOnlyStreak, this`log,
               this`summaries, this`summary
      modifies this`state, this`doneReason, this`records, session, world`executed
      ensures Valid() && log == old(log) + [e]
      ensures e == Handled(call, PriorResults(env, old(session.messages), call.name, CallFingerprint(env, call)),
                           status)
      ensures state == if Ends(status) then Done else Acting
      ensures doneReason == ReasonAfter(status, old(doneReason))
      ensures Drew(world.results, status, old(world.executed), world.executed)
      ensures Reported(prose, env, call, status, old(Here(session)), Here(session))
    {
      status, e := Resolve(session.messages, world, call);
      Report(session, call, status);
    }

    /** Reports what became of a call: a result and a record, or the end of the run. */
    method Report(session: Session, call: ToolCall, status: Status)
      modifies this`state, this`doneReason, this`records, session
      ensures state == if Ends(status) then Done else old(state)
      ensures doneReason == ReasonAfter(status, old(doneReason))
      ensures Reported(prose, env, call, status, old(Here(session)), Here(session))
    {
      if status.LoopDetected? {
        Terminate(Repetition);
      } else if status.Churn? {
        Terminate(ExploratoryChurn);
        session.AddAssistantMessage(prose.describe(call, status), []);
      } else {
        session.AddToolResult(ResultMessage(prose, call, status));
        if call.name != "" {
          records := records + [RecordFor(env, call, status)];
        }
      }
    }

    /** Executes the pending calls in order; stops at the first that ends the run. */
    method ActOn(session: Session, world: World) returns (action: Action, ghost statuses: seq<Status>)
      requires Valid() && state == Acting
      modifies this`recentCalls, this`failedCalls, this`successfulCalls, this`readOnlyStreak, this`log,
               this`summaries, this`summary
      modifies this`state, this`doneReason, this`records, session, world`executed
      ensures Valid()
      ensures Told(prose, env, world.results, old(Now(session, world)), Now(session, world))
      ensures state == if action == Finish then Done else Acting
      ensures if action == Finish then OverActing(prose, log, doneReason, session.messages)
              else doneReason == old(doneReason)
      ensures action != NoOp ==> ActLogs(old(log), log)
      ensures ActedOn(prose, env, action, statuses, old(Here(session)), Here(session))
    {
      statuses := [];
      NothingTells(prose, env, world.results, Now(session, world));
      var pending := session.pending;
      if |pending| == 0 {
        return NoOp, statuses;
      }
      for i := 0 to |pending|
        invariant Valid() && state == Acting && doneReason == old(doneReason)
        invariant log == old(log) || ActLogs(old(log), log)
        invariant i > 0 ==> ActLogs(old(log), log)
        invariant Told(prose, env, world.results, old(Now(session, world)), Now(session, world))
        invariant |statuses| == i && Here(session) == AfterActing(prose, env, pending, statuses, old(Here(session)))
      {
        var status := ActOnNext(session, world, pending, i, statuses, old(Here(session)), old(Now(session, world)));
        if Ends(status) {
          return Finish, statuses;
        }
        statuses := statuses + [status];
      }
      AllAnswered(pending);
      return Observe, statuses;
    }

    method ActOnNext(session: Session, world: World, calls: seq<ToolCall>, i: nat, ghost statuses: seq<Status>,
                     ghost start: Acted, ghost first: Trail) returns (status: Status)
      requires Valid() && state == Acting && i == |statuses| < |calls|
      requires Here(session) == AfterActing(prose, env, calls, statuses, start)
      requires Told(prose, env, world.results, first, Now(session, world))
      requires log == first.log || ActLogs(first.log, log)
      modifies this`recentCalls, this`failedCalls, this`successfulCalls, this`readOnlyStreak, this`log,
               this`summaries, this`summary
      modifies this`state, this`doneReason, this`records, session, world`executed
      ensures Valid() && ActLogs(first.log, log)
      ensures Told(prose, env, world.results, first, Now(session, world))
      ensures state == if Ends(status) then Done else Acting
      ensures if Ends(status) then OverActing(prose, log, doneReason, session.messages)
              else doneReason == old(doneReason)
      ensures start.messages <= session.messages && CutAnswers(session.messages[|start.messages|..], calls)
      ensures !Ends(status) ==> Here(session) == AfterActing(prose, env, calls, statuses + [status], start)
    {
      status := HandleCall(session, world, calls[i]);
      ToldThen(prose, env, world.results, first, old(Now(session, world)), Now(session, world));
      ActLogsThen(first.log, old(log), log);
      ActStep(prose, env, calls, statuses, status, start, Here(session));
      ActingOnlyAppends(prose, env, calls, statuses, status, start, Here(session));
    }

    /** Counts the turn and, within the limit, asks the model. */
    method Ask(world: World) returns (reply: Option<LlmResult>)
      requires Valid()
      modifies this`turnCount, this`log, this`summaries, this`summary, world`asked
      ensures Valid() && turnCount == old(turnCount) + 1
      ensures Quiet(old(log), log) && log == old(log) + if turnCount <= config.maxTurns then [Asked] else []
      ensures reply == if turnCount <= config.maxTurns then Some(world.replies(old(world.asked))) else None
      ensures world.asked == old(world.asked) + if reply.Some? then 1 else 0
    {
      var within := BeginTurn();
      reply := None;
      if within {
        var r := world.Complete();
        reply := Some(r);
      }
    }

    /** Counts the turn; past the limit the model is not asked. */
    method BeginTurn() returns (within: bool)
      requires Valid()
      modifies this`turnCount, this`log, this`summaries, this`summary
      ensures Valid() && turnCount == old(turnCount) + 1 && within == (turnCount <= config.maxTurns)
      ensures log == old(log) + if within then [Asked] else []
    {
      turnCount := turnCount + 1;
      within := turnCount <= config.maxTurns;
      if within {
        Enter(Asked);
      }
    }

    predicate AtLimit()
      reads `lastNoProgress
    {
      0 < config.maxSameRouteNoProgress <= lastNoProgress.streak
    }

    /** The limit is reached exactly when the last replies, as many as the threshold, are tool-free and the same. */
    lemma AtLimitIffStuck()
      requires Valid()
      ensures AtLimit() <==> Stuck(config, summary.outcomes)
    {
      if config.maxSameRouteNoProgress > 0 {
        StreakIsRun(summary.outcomes, config.maxSameRouteNoProgress);
      }
    }

    /** Enters a reply's outcome and extends or restarts the streak of replies without progress. */
    method DetectNoProgress(outcome: Outcome) returns (stuck: bool)
      requires Valid()
      modifies this`lastNoProgress, this`log, this`summaries, this`summary
      ensures Valid() && log == old(log) + [Judged(outcome)]
      ensures stuck == AtLimit() && (stuck ==> outcome.Plain?)
    {
      PlainStreakSnoc(summary.outcomes, outcome);
      Enter(Judged(outcome));
      if config.maxSameRouteNoProgress <= 0 {
        return false;
      }
      if outcome.WithTools? {
        lastNoProgress := NoProgress(WithTools, 0);
        return false;
      }
      var streak := 1;
      if lastNoProgress.outcome == outcome {
        streak := lastNoProgress.streak + 1;
      }
      lastNoProgress := NoProgress(outcome, streak);
      return streak >= config.maxSameRouteNoProgress;
    }

    /** Asks the model and interprets the reply. */
    method ThinkWith(session: Session, world: World) returns (r: TurnResult)
      requires Valid() && state == Thinking && doneReason == Running
      modifies this`turnCount, this`log, this`summaries, this`summary, this`lastNoProgress, this`state,
               this`doneReason, session, world`asked
      ensures Valid() && turnCount == old(turnCount) + 1
      ensures Told(prose, env, world.results, old(Now(session, world)), Now(session, world))
      ensures world.asked == old(world.asked) + if turnCount <= config.maxTurns then 1 else 0
      ensures HeardThought(prose, world.replies(old(world.asked)), r, old(session.messages), session.Value())
      ensures r.Next? && state == Done ==> r.action == Finish
      ensures Answered(config, prose, r, world.replies(old(world.asked)), At(session, world))
      ensures TurnLogs(config, turnCount, world.replies(old(world.asked)), old(log), old(state) == Thinking, log)
    {
      var reply := Ask(world);
      if reply.None? {
        r := LimitReached;
      } else {
        r := HearThought(session, world, reply.value);
      }
      QuietTells(prose, env, world.results, old(Now(session, world)), Now(session, world));
    }

    /** What a reply of the thinking phase comes to. */
    method HearThought(session: Session, ghost world: World, reply: LlmResult) returns (r: TurnResult)
      requires Valid() && state == Thinking && doneReason == Running && turnCount <= config.maxTurns
      modifies this`log, this`summaries, this`summary, this`lastNoProgress, this`state, this`doneReason, session
      ensures Valid() && Quiet(old(log), log) && !r.LimitReached?
      ensures if reply.LlmError? then log == old(log)
              else |log| == |old(log)| + 1 && log[..|old(log)|] == old(log) && log[|old(log)|].Judged?
      ensures ToolMessages(session.messages) == old(ToolMessages(session.messages))
      ensures HeardThought(prose, reply, r, old(session.messages), session.Value())
      ensures r.Next? && state == Done ==> r.action == Finish
      ensures Answered(config, prose, r, reply, At(session, world))
    {
      session.ConsumeContinuation();
      if reply.LlmError? {
        return Broken(reply.message);
      }
      var action := Interpret(session, reply);
      ThoughtAddsNoResult(prose, reply, action, old(session.messages), session.Value());
      return Next(action);
    }

    /** Judges a reply of the thinking phase and enters it in the session. */
    method Interpret(session: Session, reply: LlmResult) returns (action: Action)
      requires Valid() && state == Thinking && doneReason == Running && reply.Reply?
      modifies this`log, this`summaries, this`summary, this`lastNoProgress, this`state, this`doneReason, session
      ensures Valid() && action in {Act, NoOp, Finish}
      ensures Thought(prose, reply, action, old(session.messages), session.Value())
      ensures Quiet(old(log), log)
      ensures |log| == |old(log)| + 1 && log[..|old(log)|] == old(log) && log[|old(log)|].Judged?
      ensures state == if AtLimit() then Done else Thinking
      ensures state == Done ==> action == Finish
      ensures if action == Finish then
                Settled(config, prose, log, summary.outcomes, doneReason, reply, session.messages)
              else doneReason == Running
    {
      var stuck := JudgeReply(session, reply);
      AtLimitIffStuck();
      action := EnterReply(session, reply, prose.isFiller(reply.content), stuck);
    }

    /** Enters the outcome of a reply; the run is over when replies make no progress. */
    method JudgeReply(session: Session, reply: LlmResult) returns (stuck: bool)
      requires Valid() && state == Thinking && reply.Reply?
      modifies this`log, this`summaries, this`summary, this`lastNoProgress, this`state, this`doneReason
      ensures Valid() && Quiet(old(log), log) && stuck == AtLimit() && (stuck ==> reply.toolCalls == [])
      ensures state == if stuck then Done else Thinking
      ensures |log| == |old(log)| + 1 && log[..|old(log)|] == old(log) && log[|old(log)|].Judged?
      ensures doneReason == if stuck then NoProgressChurn else old(doneReason)
    {
      stuck := DetectNoProgress(OutcomeOfReply(prose, reply, session.messages));
      if stuck {
        Terminate(NoProgressChurn);
      }
    }

    /** Enters a reply; filler is not kept, and is no answer unless the run is stuck. */
    method EnterReply(session: Session, reply: LlmResult, filler: bool, stuck: bool) returns (action: Action)
      requires reply.Reply? && filler == prose.isFiller(reply.content) && (stuck ==> reply.toolCalls == [])
      modifies session
      ensures action in {Act, NoOp, Finish} && Thought(prose, reply, action, old(session.messages), session.Value())
      ensures (stuck ==> action == Finish) && (action == Finish ==> reply.toolCalls == [])
      ensures action == Finish && filler ==> stuck
      ensures !filler && action == Finish ==> EndsWith(session.messages, reply.content)
    {
      if |reply.toolCalls| > 0 {
        session.AddAssistantMessage(if filler then "" else reply.content, reply.toolCalls);
        return Act;
      }
      if !filler {
        session.AddAssistantMessage(reply.content, []);
      }
      return if filler && !stuck then NoOp else Finish;
    }

    /** Asks the model to interpret the results; it may finish, continue thinking, or call tools again. */
    method ReflectWith(session: Session, world: World) returns (r: TurnResult)
      requires Valid() && state == Reflecting && doneReason == Running
      modifies this`turnCount, this`log, this`summaries, this`summary, session, world`asked
      ensures Valid() && turnCount == old(turnCount) + 1
      ensures Told(prose, env, world.results, old(Now(session, world)), Now(session, world))
      ensures world.asked == old(world.asked) + if turnCount <= config.maxTurns then 1 else 0
      ensures HeardReflection(prose, world.replies(old(world.asked)), r, old(session.messages), session.Value())
      ensures Answered(config, prose, r, world.replies(old(world.asked)), At(session, world))
      ensures TurnLogs(config, turnCount, world.replies(old(world.asked)), old(log), old(state) == Thinking, log)
    {
      var reply := Ask(world);
      if reply.None? {
        r := LimitReached;
      } else {
        r := HearReflection(session, world, reply.value);
      }
      QuietTells(prose, env, world.results, old(Now(session, world)), Now(session, world));
    }

    /** What a reply of the reflecting phase comes to. */
    method HearReflection(session: Session, ghost world: World, reply: LlmResult) returns (r: TurnResult)
      requires doneReason == Running && turnCount <= config.maxTurns && log != [] && log[|log| - 1].Asked?
      modifies session
      ensures !r.LimitReached? && ToolMessages(session.messages) == old(ToolMessages(session.messages))
      ensures HeardReflection(prose, reply, r, old(session.messages), session.Value())
      ensures Answered(config, prose, r, reply, At(session, world))
    {
      if reply.LlmError? {
        return Broken(reply.message);
      }
      var action := Conclude(session, reply);
      ReflectedAddsNoResult(prose, reply, action, old(session.messages), session.Value());
      return Next(action);
    }

    /** What a reply of the reflecting phase asks for, entered in the session. */
    method Conclude(session: Session, reply: LlmResult) returns (action: Action)
      requires reply.Reply?
      modifies session
      ensures action in {Think, Act, Finish} && Reflected(prose, reply, action, old(session.messages), session.Value())
    {
      var trimmed := TrimSpace(reply.content);
      if CONTINUE_PREFIX <= trimmed {
        session.continuation := Some(TrimSpace(trimmed[|CONTINUE_PREFIX|..]));
        return Think;
      }
      if |reply.toolCalls| > 0 {
        session.continuation := Some(trimmed);
        session.AddAssistantMessage(reply.content, reply.toolCalls);
        return Act;
      }
      if trimmed == "" {
        if ToolResultCount(session.messages) > 0 {
          var content := TrimSpace(prose.synthesize(session.messages));
          if content != "" {
            session.AddAssistantMessage(content, []);
          }
        }
        return Finish;
      }
      session.AddAssistantMessage(reply.content, []);
      return Finish;
    }

    ghost predicate Going(session: Session, base: seq<Message>)
      reads this, session
    {
      && Valid() && Extends(session.messages, base, state, session.pending)
      && (state != Done ==> doneReason == Running)
    }

    /** What the run's outcome depends on, at this moment. */
    ghost function At(session: Session, world: World): Moment
      reads `state, `doneReason, `noOpCount, `turnCount, `log, `summary, session`messages, world`asked
    {
      Moment(state, doneReason, noOpCount, turnCount, world.asked, log, summary.outcomes, session.messages)
    }

    method StepThinking(session: Session, world: World, ghost base: seq<Message>) returns (end: Option<RunResult>)
      requires Going(session, base) && state == Thinking
      modifies this, session, world`asked
      ensures Going(session, base) && turnCount == old(turnCount) + 1 && (end.Some? ==> state == Done)
      ensures Told(prose, env, world.results, old(Now(session, world)), Now(session, world))
      ensures world.asked == old(world.asked) + if turnCount <= config.maxTurns then 1 else 0
      ensures TurnLeads(config, prose, world.replies(old(world.asked)), old(At(session, world)), At(session, world),
                        end)
    {
      RemindIfLong(session, base);
      assert Now(session, world) == old(Now(session, world));
      end := StepThinkingNow(session, world, base);
    }

    method StepThinkingNow(session: Session, world: World, ghost base: seq<Message>) returns (end: Option<RunResult>)
      requires Going(session, base) && state == Thinking
      modifies this, session, world`asked
      ensures Going(session, base) && turnCount == old(turnCount) + 1 && (end.Some? ==> state == Done)
      ensures Told(prose, env, world.results, old(Now(session, world)), Now(session, world))
      ensures world.asked == old(world.asked) + if turnCount <= config.maxTurns then 1 else 0
      ensures TurnLeads(config, prose, world.replies(old(world.asked)), old(At(session, world)), At(session, world),
                        end)
    {
      var r := ThinkWith(session, world);
      end := LeaveThinking(session, world, r, base, old(At(session, world)), old(session.pending),
                           world.replies(old(world.asked)));
    }

    /** Ends the run after a turn without a reply to go on with. */
    method StopTurn(session: Session, ghost world: World, r: TurnResult, ghost base: seq<Message>, ghost start: Moment,
                    ghost pending: seq<ToolCall>, ghost reply: LlmResult) returns (end: Option<RunResult>)
      requires Valid() && !r.Next? && start.state in {Thinking, Reflecting} && session.messages == start.messages
      requires Extends(start.messages, base, start.state, pending)
      requires Answered(config, prose, r, reply, At(session, world))
      requires TurnLogs(config, turnCount, reply, start.log, start.state == Thinking, log)
      modifies this`state, this`doneReason
      ensures Going(session, base) && end.Some? && state == Done
      ensures TurnLeads(config, prose, reply, start, At(session, world), end)
      ensures Now(session, world) == old(Now(session, world))
    {
      StillExtends(start.messages, base, pending, start.state, Done, session.pending);
      end := StopAfter(session, r);
    }

    /** Moves on after a turn of thinking. */
    method LeaveThinking(session: Session, ghost world: World, r: TurnResult, ghost base: seq<Message>,
                         ghost start: Moment, ghost pending: seq<ToolCall>, ghost reply: LlmResult)
      returns (end: Option<RunResult>)
      requires Extends(start.messages, base, Thinking, pending)
      requires HeardThought(prose, reply, r, start.messages, session.Value())
      requires start.state == Thinking && start.lull == noOpCount
      requires TurnLogs(config, turnCount, reply, start.log, true, log)
      requires Valid() && Answered(config, prose, r, reply, At(session, world))
      modifies this`state, this`noOpCount, this`doneReason
      ensures Going(session, base) && (end.None? <==> r.Next?) && (end.Some? ==> state == Done)
      ensures TurnLeads(config, prose, reply, start, At(session, world), end)
      ensures Now(session, world) == old(Now(session, world))
    {
      if !r.Next? {
        end := StopTurn(session, world, r, base, start, pending, reply);
        return;
      }
      ghost var heard := At(session, world);
      Transition(r.action);
      ThoughtExtends(prose, reply, r.action, base, start.messages, pending, session.Value(), state);
      ThoughtLeads(config, prose, reply, r.action, start, heard, At(session, world), session.Value());
      end := None;
    }

    /** Every fourth turn from the eighth on, a system message restates the instructions. */
    method RemindIfLong(session: Session, ghost base: seq<Message>)
      requires Extends(session.messages, base, Thinking, session.pending)
      modifies session`messages
      ensures Extends(session.messages, base, Thinking, session.pending)
      ensures session.messages ==
              old(session.messages) +
              if turnCount >= 8 && turnCount % 4 == 0 then [SystemMessage(prose.reminder)] else []
      ensures ToolMessages(session.messages) == old(ToolMessages(session.messages))
    {
      if turnCount >= 8 && turnCount % 4 == 0 {
        var reminder := SystemMessage(prose.reminder);
        PlainExtends(session.messages, base, reminder, session.pending, Thinking, Thinking, session.pending);
        ToolMessagesSnoc(session.messages, reminder);
        session.AddSystemMessage(reminder);
      }
    }

    method StepReflecting(session: Session, world: World, ghost base: seq<Message>) returns (end: Option<RunResult>)
      requires Going(session, base) && state == Reflecting
      modifies this, session, world`asked
      ensures Going(session, base) && turnCount == old(turnCount) + 1 && (end.Some? ==> state == Done)
      ensures Told(prose, env, world.results, old(Now(session, world)), Now(session, world))
      ensures world.asked == old(world.asked) + if turnCount <= config.maxTurns then 1 else 0
      ensures TurnLeads(config, prose, world.replies(old(world.asked)), old(At(session, world)), At(session, world),
                        end)
    {
      var r := ReflectWith(session, world);
      end := LeaveReflecting(session, world, r, base, old(At(session, world)), old(session.pending),
                             world.replies(old(world.asked)));
    }

    /** Moves on after a turn of reflecting. */
    method LeaveReflecting(session: Session, ghost world: World, r: TurnResult, ghost base: seq<Message>,
                           ghost start: Moment, ghost pending: seq<ToolCall>, ghost reply: LlmResult)
      returns (end: Option<RunResult>)
      requires Extends(start.messages, base, Reflecting, pending)
      requires HeardReflection(prose, reply, r, start.messages, session.Value())
      requires start.state == Reflecting && start.lull == noOpCount
      requires TurnLogs(config, turnCount, reply, start.log, false, log)
      requires Valid() && Answered(config, prose, r, reply, At(session, world))
      modifies this`state, this`noOpCount, this`doneReason
      ensures Going(session, base) && (end.None? <==> r.Next?) && (end.Some? ==> state == Done)
      ensures TurnLeads(config, prose, reply, start, At(session, world), end)
      ensures Now(session, world) == old(Now(session, world))
    {
      if !r.Next? {
        end := StopTurn(session, world, r, base, start, pending, reply);
        return;
      }
      ghost var heard := At(session, world);
      Transition(r.action);
      ReflectedExtends(prose, reply, r.action, base, start.messages, pending, session.Value(), state);
      ReflectionLeads(config, prose, reply, r.action, start, heard, At(session, world), session.Value());
      end := None;
    }

    method StepActing(session: Session, world: World, ghost base: seq<Message>)
      requires Going(session, base) && state == Acting
      modifies this, session, world`executed
      ensures Going(session, base) && turnCount == old(turnCount) && state in {Observing, Done}
      ensures ActLogs(old(log), log)
      ensures if state == Done then OverActing(prose, log, doneReason, session.messages) else noOpCount == 0
      ensures Told(prose, env, world.results, old(Now(session, world)), Now(session, world))
    {
      var action;
      ghost var statuses;
      action, statuses := ActOn(session, world);
      LeaveActing(session, world, action, base, statuses, old(Here(session)));
    }

    /** Moves on after acting: the group is complete, or the run is over. */
    method LeaveActing(session: Session, ghost world: World, action: Action, ghost base: seq<Message>,
                       ghost statuses: seq<Status>, ghost start: Acted)
      requires Valid() && state == (if action == Finish then Done else Acting)
      requires Extends(start.messages, base, Acting, start.pending)
      requires ActedOn(prose, env, action, statuses, start, Here(session))
      requires action != Finish ==> doneReason == Running
      modifies this`state, this`noOpCount
      ensures Going(session, base) && Now(session, world) == old(Now(session, world))
      ensures action in {Observe, Finish} && state == (if action == Finish then Done else Observing)
      ensures state == Observing ==> noOpCount == 0
    {
      ActedOnExtends(prose, env, base, action, statuses, start, Here(session));
      Transition(action);
    }

    /** One iteration of the loop in a state that is not final. */
    method Step(session: Session, world: World, ghost base: seq<Message>) returns (end: Option<RunResult>)
      requires Going(session, base) && Calm(config, prose, world.replies, At(session, world)) && state != Done
      modifies this, session, world
      ensures Going(session, base) && (end.Some? ==> state == Done) && world.ticks == old(world.ticks)
      ensures Stepped(config, prose, world.replies, old(At(session, world)), At(session, world), end)
      ensures Spent(config, old(turnCount), old(world.asked), turnCount, world.asked)
      ensures end.None? ==> Closer(config, old(turnCount), old(state), turnCount, state)
      ensures Told(prose, env, world.results, old(Now(session, world)), Now(session, world))
    {
      end := None;
      if state == Thinking || state == Reflecting {
        end := StepTurn(session, world, base);
      } else if state == Acting {
        StepActing(session, world, base);
        ActIsStep(config, prose, world.replies, old(At(session, world)), At(session, world));
      } else {
        NothingTells(prose, env, world.results, Now(session, world));
        end := StepBetween(session, world, base);
      }
    }

    /** A turn: the model is asked to think or to reflect. */
    method StepTurn(session: Session, world: World, ghost base: seq<Message>) returns (end: Option<RunResult>)
      requires Going(session, base) && Calm(config, prose, world.replies, At(session, world))
               && state in {Thinking, Reflecting}
      modifies this, session, world`asked
      ensures Going(session, base) && turnCount == old(turnCount) + 1 && (end.Some? ==> state == Done)
      ensures Told(prose, env, world.results, old(Now(session, world)), Now(session, world))
      ensures world.asked == old(world.asked) + if turnCount <= config.maxTurns then 1 else 0
      ensures Stepped(config, prose, world.replies, old(At(session, world)), At(session, world), end)
    {
      if state == Thinking {
        end := StepThinking(session, world, base);
      } else {
        end := StepReflecting(session, world, base);
      }
      TurnIsStep(config, prose, world.replies, old(At(session, world)), At(session, world), end);
    }

    /** The states that neither ask the model nor act. */
    method StepBetween(session: Session, ghost world: World, ghost base: seq<Message>) returns (end: Option<RunResult>)
      requires Going(session, base) && Calm(config, prose, world.replies, At(session, world))
      requires state in {Observing, Persisting, Idle}
      modifies this`state, this`noOpCount, this`doneReason
      ensures Going(session, base) && Rank(state) < old(Rank(state)) && (end.Some? <==> state == Done)
      ensures Now(session, world) == old(Now(session, world))
      ensures Stepped(config, prose, world.replies, old(At(session, world)), At(session, world), end)
    {
      end := None;
      match state
      case Observing => Transition(Persist);
      case Persisting => Transition(Reflect);
      case Idle =>
        StillExtends(session.messages, base, session.pending, Idle, Done, session.pending);
        Terminate(IdleTooLong);
        end := Some(Answer(LastAssistantContent(session.messages)));
    }

    method Stop(session: Session, reason: DoneReason, ghost base: seq<Message>)
      requires Going(session, base)
      modifies this`state, this`doneReason
      ensures Going(session, base) && state == Done && doneReason == reason
    {
      if state == Acting {
        assert session.messages[|session.messages|..] == [];
        NothingIsCutAnswers(session.pending);
        CutExtends(base, session.messages, session.messages, session.pending, session.pending);
      } else if state != Done {
        StillExtends(session.messages, base, session.pending, state, Done, session.pending);
      }
      Terminate(reason);
    }

    /**
      Runs to completion, whatever the model replies, the tools return, and the clock and the caller's
      cancellation do: it terminates in the final state, asks the model at most once for every turn the
      limit leaves, adds to its history, records and session exactly what the calls it handled say, with the
      outcomes the world gave, keeps the history lawful, and appends only complete groups of tool calls and
      results, the last one perhaps cut short, so that no result is ever without its call.
     */
    method Run(session: Session, world: World) returns (r: RunResult)
      requires Valid() && Ready()
      modifies this, session, world
      ensures Valid() && Lawful(config, env, log) && state == Done
      ensures Spent(config, old(turnCount), old(world.asked), turnCount, world.asked)
      ensures old(turnCount) == 0 <= config.maxTurns ==> world.asked - old(world.asked) <= config.maxTurns
      ensures Told(prose, env, world.results, old(Now(session, world)), Now(session, world))
      ensures old(session.messages) <= session.messages && CutShort(session.messages[|old(session.messages)|..])
      ensures Attached(old(session.messages)) ==> Attached(session.messages)
      ensures Closed(session, world, Start(old(state) == Done, old(turnCount), old(world.asked)), r)
    {
      StartExtends(session.messages, state, session.pending);
      r := RunFrom(session, world, session.messages);
      CutShortKeepsAttached(old(session.messages), session.messages);
      LogIsLawful();
    }

    /** How the run ended, and that the interrupt looked at last is what stopped it, if anything did. */
    ghost predicate Closed(session: Session, world: World, start: Start, r: RunResult)
      reads this, session, world
    {
      world.ticks > 0
      && EndsWell(config, prose, world.replies, start, At(session, world), world.interrupts(world.ticks - 1), r)
    }

    /** The loop, from a base the conversation extends. */
    method RunFrom(session: Session, world: World, ghost base: seq<Message>) returns (r: RunResult)
      requires Going(session, base) && Calm(config, prose, world.replies, At(session, world))
      requires Phased(At(session, world))
      modifies this, session, world
      ensures Going(session, base) && state == Done
      ensures Spent(config, old(turnCount), old(world.asked), turnCount, world.asked)
      ensures Told(prose, env, world.results, old(Now(session, world)), Now(session, world))
      ensures Closed(session, world, Start(old(state) == Done, old(turnCount), old(world.asked)), r)
    {
      ghost var start := Start(state == Done, turnCount, world.asked);
      NothingTells(prose, env, world.results, Now(session, world));
      while true
        invariant Going(session, base) && Spent(config, old(turnCount), old(world.asked), turnCount, world.asked)
        invariant Told(prose, env, world.results, old(Now(session, world)), Now(session, world))
        invariant Underway(config, prose, world.replies, start, At(session, world))
        decreases if turnCount <= config.maxTurns then config.maxTurns - turnCount + 1 else 0, Rank(state)
      {
        ghost var before := Now(session, world);
        var over := CheckRun(session, world, base, start);
        if over.Some? {
          return over.value;
        }
        var end := StepOn(session, world, base, start);
        ToldThen(prose, env, world.results, old(Now(session, world)), before, Now(session, world));
        if end.Some? {
          return end.value;
        }
      }
    }

    /** A step of a run that nothing has stopped. */
    method StepOn(session: Session, world: World, ghost base: seq<Message>, ghost start: Start)
      returns (end: Option<RunResult>)
      requires Going(session, base) && Underway(config, prose, world.replies, start, At(session, world))
      requires state != Done
      requires world.ticks > 0 && world.interrupts(world.ticks - 1) == Go
      modifies this, session, world
      ensures Going(session, base) && (end.Some? ==> state == Done)
      ensures Spent(config, old(turnCount), old(world.asked), turnCount, world.asked)
      ensures end.None? ==> Closer(config, old(turnCount), old(state), turnCount, state)
      ensures Told(prose, env, world.results, old(Now(session, world)), Now(session, world))
      ensures end.None? ==> Underway(config, prose, world.replies, start, At(session, world))
      ensures end.Some? ==> Closed(session, world, start, end.value)
    {
      end := Step(session, world, base);
      if end.Some? {
        StepCloses(config, prose, world.replies, start, old(At(session, world)), At(session, world), end.value);
      } else {
        StepGoesOn(config, prose, world.replies, start, old(At(session, world)), At(session, world));
      }
    }

    /** The checks, and what they mean for the run. */
    method CheckRun(session: Session, world: World, ghost base: seq<Message>, ghost start: Start)
      returns (over: Option<RunResult>)
      requires Going(session, base) && Underway(config, prose, world.replies, start, At(session, world))
      modifies this`state, this`doneReason, world`ticks
      ensures Going(session, base) && Now(session, world) == old(Now(session, world))
      ensures if over.Some? then state == Done && Closed(session, world, start, over.value)
              else
                && state == old(state) != Done && world.ticks > 0 && world.interrupts(world.ticks - 1) == Go
                && Underway(config, prose, world.replies, start, At(session, world))
    {
      over := CheckOver(session, world, base);
      if over.Some? {
        CheckCloses(config, prose, world.replies, start, old(At(session, world)), At(session, world),
                    world.interrupts(old(world.ticks)), over.value);
      } else {
        assert At(session, world) == old(At(session, world));
      }
    }

    /** The checks before every step: the deadline, the caller, and the final state. */
    method CheckOver(session: Session, world: World, ghost base: seq<Message>) returns (over: Option<RunResult>)
      requires Going(session, base)
      modifies this`state, this`doneReason, world`ticks
      ensures Going(session, base) && world.ticks == old(world.ticks) + 1
      ensures Now(session, world) == old(Now(session, world))
      ensures Checked(prose, old(At(session, world)), At(session, world), world.interrupts(old(world.ticks)), over)
    {
      var interrupt := world.Tick();
      if interrupt == Deadline {
        Stop(session, DeadlineExceeded, base);
        return Some(Answer(LastAssistantContent(session.messages)));
      }
      if interrupt == Cancel {
        Stop(session, ContextCancelled, base);
        return Some(Aborted);
      }
      if state != Done {
        return None;
      }
      var content := LastAssistantContent(session.messages);
      if content == "" && turnCount > 1 {
        content := prose.synthesize(session.messages);
      }
      return Some(Answer(content));
    }

    /** Ends the run after a turn that got no reply to go on with. */
    method StopAfter(session: Session, r: TurnResult) returns (end: Option<RunResult>)
      requires !r.Next?
      modifies this`state, this`doneReason
      ensures end.Some? && state == Done
      ensures doneReason == if r.LimitReached? then MaxTurnsExceeded else ModelFailed(r.message)
      ensures end.value == if r.LimitReached? then LimitExceeded(LastAssistantContent(session.messages))
              else Failure(r.message)
    {
      if r.LimitReached? {
        Terminate(MaxTurnsExceeded);
        return Some(LimitExceeded(LastAssistantContent(session.messages)));
      }
      Terminate(ModelFailed(r.message));
      return Some(Failure(r.message));
    }
  }

}
