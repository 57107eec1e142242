/**
  What a run of the ReAct loop answers, and why it ended, in terms of the replies it drew, its history and
  the session it leaves.
 */
module LoopOutcome {
  import opened Text
  import opened Conversation
  import opened LoopHistory
  import opened LoopTrail
  import opened LoopState

  predicate IsPlainReply(reply: LlmResult) {
    reply.Reply? && reply.toolCalls == []
  }

  predicate IsFillerReply(p: Prose, reply: LlmResult) {
    IsPlainReply(reply) && p.isFiller(reply.content)
  }

  predicate EndsWith(messages: seq<Message>, content: string) {
    messages != [] && messages[|messages| - 1] == AssistantMessage(content, [])
  }

  /** A reply with which a run finishes by itself, entered in the session. */
  ghost predicate Concluded(p: Prose, reply: LlmResult, reflected: bool, messages: seq<Message>) {
    && IsPlainReply(reply)
    && (!reflected ==> !p.isFiller(reply.content))
    && (reflected ==> !(CONTINUE_PREFIX <= TrimSpace(reply.content)))
    && (!reflected || TrimSpace(reply.content) != "" ==> EndsWith(messages, reply.content))
    && (reflected && TrimSpace(reply.content) == "" ==> exists before :: StoodIn(p, before, messages))
  }

  /** The reason a verdict on a call gives, if it gives one. */
  function ReasonAfter(status: Status, reason: DoneReason): DoneReason {
    if status.LoopDetected? then Repetition else if status.Churn? then ExploratoryChurn else reason
  }

  /** Acting ended the run: the call just considered was found looping, or is one exploration too many. */
  predicate OverActing(p: Prose, log: seq<Event>, reason: DoneReason, messages: seq<Message>) {
    log != [] && log[|log| - 1].Handled? &&
    var e := log[|log| - 1];
    if e.status.LoopDetected? then reason == Repetition
    else e.status.Churn? && reason == ExploratoryChurn && EndsWith(messages, p.describe(e.call, e.status))
  }

  /** Why a run is over that nothing from outside has stopped. */
  ghost predicate Settled(c: Config, p: Prose, log: seq<Event>, outcomes: seq<Outcome>, reason: DoneReason,
                          reply: LlmResult, messages: seq<Message>) {
    match reason
    case Running => log != [] && !log[|log| - 1].Handled? && Concluded(p, reply, log[|log| - 1].Asked?, messages)
    case NoProgressChurn =>
      IsPlainReply(reply) && Stuck(c, outcomes) && (!p.isFiller(reply.content) ==> EndsWith(messages, reply.content))
    case Repetition => OverActing(p, log, reason, messages)
    case ExploratoryChurn => OverActing(p, log, reason, messages)
    case _ => false
  }

  /** A reply after which the model is asked again. */
  predicate GoesOn(p: Prose, reply: LlmResult) {
    reply.Reply? && (reply.toolCalls != [] || p.isFiller(reply.content) || CONTINUE_PREFIX <= TrimSpace(reply.content))
  }

  /** Whether a turn was a lull: a filler reply lengthens the lull, anything else ends it. */
  predicate Lulls(c: Config, p: Prose, reply: LlmResult, before: nat, lull: nat, state: State) {
    match state
    case Done => true
    case Thinking => lull == 0 || (lull == before + 1 && IsFillerReply(p, reply) && lull < c.idleThreshold)
    case Idle => lull == before + 1 && IsFillerReply(p, reply) && lull >= c.idleThreshold
    case Acting => lull == 0
    case _ => false
  }

  /** How a turn ends the run: past the limit, or because the model failed. */
  predicate TurnEnds(c: Config, turns: nat, reply: LlmResult, end: Option<RunResult>, reason: DoneReason,
                     messages: seq<Message>) {
    if turns > c.maxTurns then
      end == Some(LimitExceeded(LastAssistantContent(messages))) && reason == MaxTurnsExceeded
    else if reply.LlmError? then end == Some(Failure(reply.message)) && reason == ModelFailed(reply.message)
    else end == None
  }

  /** The last replies were all filler. */
  ghost predicate Fillers(p: Prose, replies: nat -> LlmResult, asked: nat, n: nat) {
    n <= asked && forall i :: asked - n <= i < asked ==> IsFillerReply(p, replies(i))
  }

  /** The last assistant message, if there is one. */
  lemma {:induction false} LastAssistantIs(messages: seq<Message>, i: nat)
    requires i < |messages| && messages[i].role == Assistant
    requires forall k :: i < k < |messages| ==> messages[k].role != Assistant
    ensures LastAssistantContent(messages) == messages[i].content
  {
    if i < |messages| - 1 {
      LastAssistantIs(messages[..|messages| - 1], i);
    }
  }

  lemma {:induction false} NoAssistant(messages: seq<Message>)
    requires forall k :: 0 <= k < |messages| ==> messages[k].role != Assistant
    ensures LastAssistantContent(messages) == ""
  {
    if messages != [] {
      NoAssistant(messages[..|messages| - 1]);
    }
  }

  /** What a finished run answers: what the assistant said last, or what the tools returned if that is nothing. */
  function FinalContent(p: Prose, messages: seq<Message>, turns: nat): string {
    var content := LastAssistantContent(messages);
    if content == "" && turns > 1 then p.synthesize(messages) else content
  }

  /** A run that finishes by itself on a reply that is not blank answers exactly its content. */
  lemma ConcludedAnswer(p: Prose, reply: LlmResult, reflected: bool, messages: seq<Message>, turns: nat)
    requires Concluded(p, reply, reflected, messages) && TrimSpace(reply.content) != ""
    ensures FinalContent(p, messages, turns) == reply.content
  {
    LastAssistantIs(messages, |messages| - 1);
  }

  /** A moment of a run: the machine, the counts, the history and the session. */
  datatype Moment = Moment(state: State, reason: DoneReason, lull: nat, turns: nat, asked: nat, log: seq<Event>,
                           outcomes: seq<Outcome>, messages: seq<Message>)

  function LastOf(replies: nat -> LlmResult, asked: nat): LlmResult {
    if asked == 0 then LlmError("") else replies(asked - 1)
  }

  ghost predicate SettledBy(c: Config, p: Prose, reply: LlmResult, m: Moment) {
    Settled(c, p, m.log, m.outcomes, m.reason, reply, m.messages)
  }

  /** What a turn came to is what the limit and the reply say. */
  ghost predicate Answered(c: Config, p: Prose, r: TurnResult, reply: LlmResult, m: Moment) {
    && (r.LimitReached? <==> m.turns > c.maxTurns)
    && (r.Broken? <==> m.turns <= c.maxTurns && reply.LlmError?) && (r.Broken? ==> reply == LlmError(r.message))
    && (if r == Next(Finish) then SettledBy(c, p, reply, m) else m.reason == Running)
  }

  /** Where a turn leads. */
  ghost predicate TurnLeads(c: Config, p: Prose, reply: LlmResult, m: Moment, n: Moment, end: Option<RunResult>) {
    && TurnEnds(c, n.turns, reply, end, n.reason, n.messages)
    && TurnLogs(c, n.turns, reply, m.log, m.state == Thinking, n.log) && (n.state == Idle ==> m.state == Thinking)
    && (end.None? ==>
          && (if n.state == Done then SettledBy(c, p, reply, n) else GoesOn(p, reply))
          && reply.Reply? && Lulls(c, p, reply, m.lull, n.lull, n.state))
  }

  /** What a turn enters in the history: that the model was asked, and of a thought the verdict. */
  predicate TurnLogs(c: Config, turns: nat, reply: LlmResult, before: seq<Event>, thinking: bool, after: seq<Event>) {
    if turns > c.maxTurns then after == before
    else if reply.Reply? && thinking then
      |after| == |before| + 2 && after[..|before| + 1] == before + [Asked] && after[|before| + 1].Judged?
    else after == before + [Asked]
  }

  /** Acting enters at least one handled call. */
  predicate ActLogs(before: seq<Event>, after: seq<Event>) {
    before < after && forall i :: |before| <= i < |after| ==> after[i].Handled?
  }

  /** The last thing was a judged thought, or a reflection on results. */
  predicate EndsInTurn(log: seq<Event>) {
    var n := |log|;
    n > 0 && (log[n - 1].Judged? || (log[n - 1].Asked? && n > 1 && log[n - 2].Handled?))
  }

  lemma ActLogsThen(a: seq<Event>, b: seq<Event>, c: seq<Event>)
    requires (a == b || ActLogs(a, b)) && ActLogs(b, c)
    ensures ActLogs(a, c)
  {
    forall i | |a| <= i < |c| ensures c[i].Handled? {
      assert i < |b| ==> c[i] == b[i];
    }
  }

  /** Results wait for reflection, everything else for thinking. */
  predicate InPhase(log: seq<Event>, state: State) {
    match state
    case Thinking => log == [] || EndsInTurn(log)
    case Acting => EndsInTurn(log)
    case Observing => log != [] && log[|log| - 1].Handled?
    case Persisting => log != [] && log[|log| - 1].Handled?
    case Reflecting => log != [] && log[|log| - 1].Handled?
    case Idle => log != [] && log[|log| - 1].Judged?
    case Done => true
  }

  /**
    The model is asked to reflect exactly after the results of calls; otherwise it is asked to think, and
    the reply is judged.
   */
  ghost predicate Phases(log: seq<Event>) {
    forall i :: 0 <= i < |log| - 1 ==> PhaseAt(log, i)
  }

  predicate PhaseAt(log: seq<Event>, i: int)
    requires 0 <= i < |log| - 1
  {
    log[i].Asked? ==> (log[i + 1].Judged? <==> i == 0 || !log[i - 1].Handled?)
  }

  /** One more event, judged exactly if it follows a request to think. */
  lemma PhasesSnoc(log: seq<Event>, e: Event)
    requires Phases(log)
    requires log != [] && log[|log| - 1].Asked? ==> (e.Judged? <==> |log| == 1 || !log[|log| - 2].Handled?)
    ensures Phases(log + [e])
  {
    var all := log + [e];
    forall i | 0 <= i < |all| - 1 ensures PhaseAt(all, i) {
      assert i < |log| - 1 ==> PhaseAt(log, i);
    }
  }

  lemma TurnKeepsPhases(c: Config, turns: nat, reply: LlmResult, before: seq<Event>, was: State, after: seq<Event>,
                        state: State)
    requires Phases(before) && InPhase(before, was) && was in {Thinking, Reflecting}
    requires TurnLogs(c, turns, reply, before, was == Thinking, after)
    ensures Phases(after)
    ensures (turns <= c.maxTurns && reply.Reply? && state in {Thinking, Acting, Idle, Done}
             && (state == Idle ==> was == Thinking)) ==> InPhase(after, state)
  {
    PhasesSnoc(before, Asked);
    if turns > c.maxTurns {
    } else if was == Thinking && reply.Reply? {
      var asked := before + [Asked];
      assert after == asked + [after[|before| + 1]];
      assert asked[|asked| - 1] == Asked && (before != [] ==> asked[|asked| - 2] == before[|before| - 1]);
      PhasesSnoc(asked, after[|before| + 1]);
    } else if was == Reflecting {
      assert after[|after| - 2] == before[|before| - 1];
    }
  }

  lemma {:induction false} HandlingKeepsPhases(before: seq<Event>, after: seq<Event>, n: nat)
    requires Phases(before) && EndsInTurn(before) && ActLogs(before, after) && |before| <= n <= |after|
    ensures Phases(after[..n])
    decreases n
  {
    if n == |before| {
      assert after[..n] == before;
    } else {
      HandlingKeepsPhases(before, after, n - 1);
      var log := after[..n - 1];
      assert after[..n] == log + [after[n - 1]];
      if n - 1 == |before| {
        assert log == before;
      } else {
        assert log[|log| - 1] == after[n - 2];
      }
      PhasesSnoc(log, after[n - 1]);
    }
  }

  lemma ActKeepsPhases(before: seq<Event>, after: seq<Event>, state: State)
    requires Phases(before) && InPhase(before, Acting) && ActLogs(before, after) && state in {Observing, Done}
    ensures Phases(after) && InPhase(after, state)
  {
    HandlingKeepsPhases(before, after, |after|);
    assert after[..|after|] == after;
  }

  /** The machine moves on by an action. */
  predicate MovesBy(c: Config, action: Action, heard: Moment, n: Moment) {
    n == heard.(state := NextState(action, n.lull, c.idleThreshold), lull := NextNoOps(action, heard.lull))
  }

  lemma ThoughtLeads(c: Config, p: Prose, reply: LlmResult, action: Action, m: Moment, heard: Moment, n: Moment,
                     v: View)
    requires m.state == Thinking && heard.lull == m.lull && MovesBy(c, action, heard, n)
    requires Answered(c, p, Next(action), reply, heard) && HeardThought(p, reply, Next(action), m.messages, v)
    requires TurnLogs(c, heard.turns, reply, m.log, true, heard.log)
    ensures TurnLeads(c, p, reply, m, n, None)
  {
  }

  lemma ReflectionLeads(c: Config, p: Prose, reply: LlmResult, action: Action, m: Moment, heard: Moment, n: Moment,
                        v: View)
    requires m.state == Reflecting && heard.lull == m.lull && MovesBy(c, action, heard, n)
    requires Answered(c, p, Next(action), reply, heard) && HeardReflection(p, reply, Next(action), m.messages, v)
    requires TurnLogs(c, heard.turns, reply, m.log, false, heard.log)
    ensures TurnLeads(c, p, reply, m, n, None)
  {
  }

  /** The filler replies in a row, and that the loop is idle exactly once there are enough. */
  ghost predicate Calm(c: Config, p: Prose, replies: nat -> LlmResult, m: Moment) {
    m.state != Done ==>
      && Fillers(p, replies, m.asked, m.lull)
      && (if m.state == Idle then m.lull >= 1 && m.lull >= c.idleThreshold else m.lull == 0 || m.lull < c.idleThreshold)
  }

  lemma FillersSnoc(p: Prose, replies: nat -> LlmResult, asked: nat, n: nat)
    requires Fillers(p, replies, asked, n) && IsFillerReply(p, replies(asked))
    ensures Fillers(p, replies, asked + 1, n + 1)
  {
  }

  lemma FewerFillers(p: Prose, replies: nat -> LlmResult, asked: nat, n: nat, m: nat)
    requires Fillers(p, replies, asked, n) && m <= n
    ensures Fillers(p, replies, asked, m)
  {
  }

  ghost predicate Phased(m: Moment) {
    Phases(m.log) && InPhase(m.log, m.state)
  }

  /** A step: how it ends the run, or where it leads. */
  ghost predicate Stepped(c: Config, p: Prose, replies: nat -> LlmResult, m: Moment, n: Moment,
                          end: Option<RunResult>) {
    && m.turns <= n.turns <= m.turns + 1 && m.asked <= n.asked <= m.asked + 1
    && (n.asked > m.asked <==> m.turns < n.turns <= c.maxTurns)
    && (Phased(m) ==> Phases(n.log) && (end.None? ==> Phased(n)))
    && match end
       case None =>
         && (n.turns == m.turns || n.turns <= c.maxTurns) && Calm(c, p, replies, n)
         && (n.state == Done ==> SettledBy(c, p, LastOf(replies, n.asked), n))
         && (n.asked > m.asked ==> LastOf(replies, n.asked).Reply?
                                   && (n.state != Done ==> GoesOn(p, LastOf(replies, n.asked))))
       case Some(LimitExceeded(content)) =>
         n.turns > m.turns && n.turns > c.maxTurns && content == LastAssistantContent(n.messages)
         && n.reason == MaxTurnsExceeded
       case Some(Failure(message)) =>
         n.asked > m.asked && LastOf(replies, n.asked) == LlmError(message) && n.reason == ModelFailed(message)
       case Some(Answer(content)) =>
         n.turns == m.turns && m.state == Idle && content == LastAssistantContent(n.messages) && n.reason == IdleTooLong
       case Some(Aborted) => false
  }

  lemma TurnIsStep(c: Config, p: Prose, replies: nat -> LlmResult, m: Moment, n: Moment, end: Option<RunResult>)
    requires Calm(c, p, replies, m) && m.state in {Thinking, Reflecting}
    requires n.turns == m.turns + 1 && n.asked == m.asked + if n.turns <= c.maxTurns then 1 else 0
    requires TurnLeads(c, p, replies(m.asked), m, n, end)
    ensures Stepped(c, p, replies, m, n, end)
  {
    if Phased(m) {
      TurnKeepsPhases(c, n.turns, replies(m.asked), m.log, m.state, n.log, n.state);
    }
    if end.None? && n.state != Done && n.lull > 0 {
      FillersSnoc(p, replies, m.asked, m.lull);
    }
  }

  lemma ActIsStep(c: Config, p: Prose, replies: nat -> LlmResult, m: Moment, n: Moment)
    requires Calm(c, p, replies, m) && m.state == Acting && n.turns == m.turns && n.asked == m.asked
    requires ActLogs(m.log, n.log) && n.state in {Observing, Done}
    requires if n.state == Done then OverActing(p, n.log, n.reason, n.messages) else n.lull == 0
    ensures Stepped(c, p, replies, m, n, None)
  {
    if Phased(m) {
      ActKeepsPhases(m.log, n.log, n.state);
    }
  }

  // --- Whole runs ---

  /** The replies of a stretch all asked for more. */
  ghost predicate AllGoOn(p: Prose, replies: nat -> LlmResult, from: nat, to: int) {
    forall i :: from <= i < to ==> GoesOn(p, replies(i))
  }

  /** Where a run started. */
  datatype Start = Start(done: bool, turns: nat, asked: nat)

  /** Neither the limit nor the model has ended the run. */
  predicate StillGood(c: Config, replies: nat -> LlmResult, s: Start, m: Moment) {
    (m.turns == s.turns || m.turns <= c.maxTurns) && (m.asked > s.asked ==> LastOf(replies, m.asked).Reply?)
  }

  /** What holds before every step of a run. */
  ghost predicate Underway(c: Config, p: Prose, replies: nat -> LlmResult, s: Start, m: Moment) {
    && StillGood(c, replies, s, m) && Calm(c, p, replies, m) && s.turns <= m.turns && s.asked <= m.asked
    && (s.turns == m.turns ==> s.asked == m.asked)
    && AllGoOn(p, replies, s.asked, m.asked - 1) && Phased(m)
    && (if s.done then m.state == Done
        else if m.state == Done then SettledBy(c, p, LastOf(replies, m.asked), m)
        else AllGoOn(p, replies, s.asked, m.asked))
  }

  /** How a run ends that nothing from outside stops. */
  ghost predicate ClosesByItself(c: Config, p: Prose, replies: nat -> LlmResult, s: Start, m: Moment, r: RunResult) {
    match r
    case LimitExceeded(content) =>
      m.turns > s.turns && m.turns > c.maxTurns && content == LastAssistantContent(m.messages)
      && m.reason == MaxTurnsExceeded && (m.asked > s.asked ==> LastOf(replies, m.asked).Reply?)
    case Failure(message) =>
      m.asked > s.asked && LastOf(replies, m.asked) == LlmError(message) && m.reason == ModelFailed(message)
      && m.turns <= c.maxTurns
    case Answer(content) =>
      StillGood(c, replies, s, m) &&
      if !s.done && m.reason == IdleTooLong then
        content == LastAssistantContent(m.messages) && Fillers(p, replies, m.asked, Max(1, c.idleThreshold))
      else
        content == FinalContent(p, m.messages, m.turns) && (!s.done ==> SettledBy(c, p, LastOf(replies, m.asked), m))
    case Aborted => false
  }

  /** How a run ends: stopped from outside at the last moment, or by itself. */
  ghost predicate Closes(c: Config, p: Prose, replies: nat -> LlmResult, s: Start, m: Moment, interrupt: Interrupt,
                         r: RunResult) {
    AllGoOn(p, replies, s.asked, m.asked - 1) && s.turns <= m.turns && s.asked <= m.asked && Phases(m.log) &&
    match interrupt
    case Cancel => r == Aborted && m.reason == ContextCancelled && StillGood(c, replies, s, m)
    case Deadline =>
      r == Answer(LastAssistantContent(m.messages)) && m.reason == DeadlineExceeded && StillGood(c, replies, s, m)
    case Go => ClosesByItself(c, p, replies, s, m, r)
  }

  /** What the checks before a step do. */
  ghost predicate Checked(p: Prose, m: Moment, n: Moment, interrupt: Interrupt, over: Option<RunResult>) {
    match interrupt
    case Cancel => over == Some(Aborted) && n == m.(state := Done, reason := ContextCancelled)
    case Deadline =>
      over == Some(Answer(LastAssistantContent(m.messages))) && n == m.(state := Done, reason := DeadlineExceeded)
    case Go =>
      n == m && over == if m.state == Done then Some(Answer(FinalContent(p, m.messages, m.turns))) else None
  }

  lemma StepGoesOn(c: Config, p: Prose, replies: nat -> LlmResult, s: Start, m: Moment, n: Moment)
    requires Underway(c, p, replies, s, m) && m.state != Done && Stepped(c, p, replies, m, n, None)
    ensures Underway(c, p, replies, s, n)
  {
  }

  /**
    What a run answers. It is aborted exactly by a cancellation; it exceeds the limit exactly past it, with
    what the assistant said last; it fails exactly on the model's last reply. A run that finishes by itself
    answers the content of the reply drawn last, unless that is blank; what the tools returned is shown only
    if the assistant's last word is empty, after more than one turn.
   */
  ghost predicate RunAnswers(c: Config, p: Prose, replies: nat -> LlmResult, s: Start, m: Moment, interrupt: Interrupt,
                          r: RunResult) {
    var said, asked := LastAssistantContent(m.messages), m.asked > s.asked;
    && (r == Aborted <==> interrupt == Cancel)
    && (r.LimitExceeded? <==> m.turns > s.turns && m.turns > c.maxTurns)
    && (r.LimitExceeded? ==> r.content == said)
    && (r.Failure? <==> asked && replies(m.asked - 1).LlmError?)
    && (r.Failure? ==> replies(m.asked - 1) == LlmError(r.message))
    && (interrupt == Deadline ==> r == Answer(said))
    && (r.Answer? ==> r.content == said || (said == "" && m.turns > 1 && r.content == p.synthesize(m.messages)))
    && (asked ==> AllGoOn(p, replies, s.asked, m.asked - 1)) && Phases(m.log)
    && (!s.done ==> Reasons(c, p, replies, m, interrupt, r))
  }

  /** Why the run is over. */
  ghost predicate Reasons(c: Config, p: Prose, replies: nat -> LlmResult, m: Moment, interrupt: Interrupt,
                          r: RunResult) {
    && (m.reason == ContextCancelled <==> r == Aborted) && (m.reason == MaxTurnsExceeded <==> r.LimitExceeded?)
    && (m.reason.ModelFailed? <==> r.Failure?) && (m.reason == DeadlineExceeded <==> interrupt == Deadline)
    && (m.reason == IdleTooLong ==> Fillers(p, replies, m.asked, Max(1, c.idleThreshold)))
    && (m.reason == NoProgressChurn ==> Stuck(c, m.outcomes))
    && (m.reason in {Repetition, ExploratoryChurn} ==> OverActing(p, m.log, m.reason, m.messages))
    && (m.reason == Running ==> r.Answer? && AnswersReply(p, LastOf(replies, m.asked), m, r.content))
  }

  /** The answer to a reply that asked for nothing more. */
  predicate AnswersReply(p: Prose, reply: LlmResult, m: Moment, content: string) {
    && IsPlainReply(reply) && (TrimSpace(reply.content) != "" ==> content == reply.content)
    && (LastAssistantContent(m.messages) == "" && m.turns > 1 ==> content == p.synthesize(m.messages))
  }

  lemma CloseGivesReason(c: Config, p: Prose, replies: nat -> LlmResult, s: Start, m: Moment, interrupt: Interrupt,
                         r: RunResult)
    requires Closes(c, p, replies, s, m, interrupt, r) && !s.done
    ensures Reasons(c, p, replies, m, interrupt, r)
  {
    if m.reason == Running {
      var reply := LastOf(replies, m.asked);
      if TrimSpace(reply.content) != "" {
        ConcludedAnswer(p, reply, m.log[|m.log| - 1].Asked?, m.messages, m.turns);
      }
    }
  }

  lemma CloseAnswers(c: Config, p: Prose, replies: nat -> LlmResult, s: Start, m: Moment, interrupt: Interrupt,
                     r: RunResult)
    requires Closes(c, p, replies, s, m, interrupt, r)
    ensures RunAnswers(c, p, replies, s, m, interrupt, r)
  {
    if !s.done {
      CloseGivesReason(c, p, replies, s, m, interrupt, r);
    }
  }

  lemma {:induction false} SomeResultIff(messages: seq<Message>)
    ensures ToolResultCount(messages) > 0 <==> exists i :: 0 <= i < |messages| && messages[i].role == Tool
  {
    if messages != [] {
      SomeResultIff(messages[1..]);
      assert messages == [messages[0]] + messages[1..];
    }
  }

  /**
    A run that finishes by itself on a blank reflection answers with what the tools returned, if they
    returned anything that shows.
   */
  lemma BlankIsReplaced(c: Config, p: Prose, reply: LlmResult, m: Moment) returns (before: seq<Message>)
    requires SettledBy(c, p, reply, m) && m.reason == Running && m.log[|m.log| - 1].Asked?
    requires TrimSpace(reply.content) == ""
    ensures var shown := TrimSpace(p.synthesize(before));
            if (exists i :: 0 <= i < |before| && before[i].role == Tool) && shown != "" then
              m.messages == before + [AssistantMessage(shown, [])] && FinalContent(p, m.messages, m.turns) == shown
            else m.messages == before
  {
    before :| StoodIn(p, before, m.messages);
    SomeResultIff(before);
    if m.messages != before {
      LastAssistantIs(m.messages, |before|);
    }
  }

  /** How a run ends, and what that means. */
  ghost predicate EndsWell(c: Config, p: Prose, replies: nat -> LlmResult, s: Start, m: Moment, interrupt: Interrupt,
                           r: RunResult) {
    Closes(c, p, replies, s, m, interrupt, r) && RunAnswers(c, p, replies, s, m, interrupt, r)
  }

  lemma CheckCloses(c: Config, p: Prose, replies: nat -> LlmResult, s: Start, m: Moment, n: Moment,
                    interrupt: Interrupt, r: RunResult)
    requires Underway(c, p, replies, s, m) && Checked(p, m, n, interrupt, Some(r))
    ensures EndsWell(c, p, replies, s, n, interrupt, r)
  {
    CloseAnswers(c, p, replies, s, n, interrupt, r);
  }

  lemma StepCloses(c: Config, p: Prose, replies: nat -> LlmResult, s: Start, m: Moment, n: Moment, r: RunResult)
    requires Underway(c, p, replies, s, m) && m.state != Done && Stepped(c, p, replies, m, n, Some(r))
    ensures EndsWell(c, p, replies, s, n, Go, r)
  {
    if r.Answer? {
      FewerFillers(p, replies, m.asked, m.lull, Max(1, c.idleThreshold));
    }
    CloseAnswers(c, p, replies, s, n, Go, r);
  }
}
