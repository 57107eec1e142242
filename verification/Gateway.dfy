/**
  The Discord gateway: the reconnect loop, the session's event loop and the heartbeat goroutines they
  start, as atomic steps that may be interleaved in any way. A goroutine outlives its session until it
  notices, and shares the acknowledgement flag with the next one.
 */
module Gateway {
  import opened Text

  const DISPATCH := 0
  const HEARTBEAT := 1
  const RECONNECT := 7
  const INVALID_SESSION := 9
  const HELLO := 10
  const HEARTBEAT_ACK := 11
  const DEFAULT_INTERVAL := 41250
  const MAX_BACKOFF := 60

  datatype EventName = READY | MESSAGE_CREATE | OtherEvent(name: string)

  /**
    A frame with the fields of its payload, each empty where the payload lacks it. `message` is what a
    MESSAGE_CREATE brings, unless it is malformed, a bot's, or from a guild that is not allowed.
   */
  datatype Frame = Frame(op: int, sequence: Option<int>, event: EventName, message: Option<string>,
                         sessionId: string, resumeUrl: string, resumable: bool, interval: int)

  /** What reading from the connection gives. */
  datatype Input = Received(frame: Frame) | Cancelled | Closed(code: int) | Broken

  datatype Action = Reconnect | Resume | Shutdown

  datatype Result = Failed | Ended(action: Action)

  /** While handling a frame the event loop has stored its sequence number but not acted on it yet. */
  datatype Phase =
    | Idle | Dialing(url: string) | Greeting | Greeted | Live | Handling(frame: Frame) | Over(result: Result) | Stopped

  /**
    Where a heartbeat goroutine is: waiting for its timer, past the check, past clearing the flag, holding
    the sequence number it will send, or gone.
   */
  datatype Beat = Waiting | Checked | Cleared | Loaded(sequence: Option<int>) | Gone

  datatype State = State(sequence: Option<int>, sessionId: string, resumeUrl: string, acked: bool, interval: int,
                         backoff: nat, phase: Phase, session: nat, beats: map<nat, Beat>, buffer: seq<string>)

  const INITIAL := State(None, "", "", true, DEFAULT_INTERVAL, 1, Idle, 0, map[], [])

  datatype Move =
    | Fetch(answer: Option<string>) | Dial(ok: bool) | Greet(input: Input) | Handshake(ok: bool)
    | Read(input: Input) | Handle | Settle | Cancel | Receive | Push(message: string)
    | BeatCheck(k: nat) | BeatClear(k: nat) | BeatRead(k: nat) | BeatSend(k: nat, ok: bool)

  datatype Reply = NoReply | HeartbeatReply(sequence: Option<int>)

  /** What an observer sees; sessions are numbered in the order of their connections. */
  datatype Event =
    | Silent | Dialed(url: string) | Identified | Resumed(sessionId: string, sequence: int)
    | Got(k: nat, frame: Frame) | Handled(k: nat, frame: Frame, reply: Reply)
    | Took(message: string) | Pushed(message: string)
    | Refused(input: Input) | Lost(input: Input) | Waited(seconds: nat) | Left(action: Action)
    | BeatReads(k: nat) | TimerBeat(k: nat, carried: Option<int>) | Quit

  predicate IsFatalClose(code: int) {
    code == 4004 || code == 4010 || code == 4011 || code == 4013 || code == 4014
  }

  predicate IsResumableClose(code: int) {
    (4000 <= code <= 4003) || code == 4005 || (4007 <= code <= 4009)
  }

  predicate Clears(frame: Frame) {
    frame.op == INVALID_SESSION && !frame.resumable
  }

  predicate IsReady(frame: Frame) {
    frame.op == DISPATCH && frame.event == READY
  }

  predicate Brings(frame: Frame) {
    frame.op == DISPATCH && frame.event == MESSAGE_CREATE && frame.message.Some?
  }

  // --- The steps ---

  /** How a session ends when reading fails in the event loop. */
  function Lose(input: Input): Result
    requires !input.Received?
  {
    match input
    case Cancelled => Ended(Shutdown)
    case Closed(code) =>
      if code == -1 then Failed
      else if IsFatalClose(code) then Ended(Shutdown)
      else if IsResumableClose(code) then Ended(Resume)
      else Ended(Reconnect)
    case Broken => Failed
  }

  /** What the event loop does with a frame whose sequence number it has stored. */
  function Absorb(s: State, f: Frame): State {
    if IsReady(f) then s.(phase := Live, sessionId := f.sessionId, resumeUrl := f.resumeUrl)
    else if Brings(f) then s.(phase := Live, buffer := s.buffer + [f.message.value])
    else if f.op == RECONNECT then s.(phase := Over(Ended(Resume)))
    else if f.op == INVALID_SESSION && f.resumable then s.(phase := Over(Ended(Resume)))
    else if Clears(f) then s.(sessionId := "", sequence := None, phase := Over(Ended(Reconnect)))
    else if f.op == HEARTBEAT_ACK then s.(phase := Live, acked := true)
    else s.(phase := Live)
  }

  function ReplyTo(s: State, f: Frame): Reply {
    if f.op == HEARTBEAT then HeartbeatReply(s.sequence) else NoReply
  }

  function Doubled(backoff: nat): nat {
    if 2 * backoff <= MAX_BACKOFF then 2 * backoff else MAX_BACKOFF
  }

  /** What the reconnect loop does with the result of a session. */
  function SettleWith(s: State, result: Result): (State, Event) {
    match result
    case Failed => (s.(backoff := Doubled(s.backoff), phase := Idle), Waited(s.backoff))
    case Ended(Reconnect) => (s.(sessionId := "", sequence := None, resumeUrl := "", backoff := 1, phase := Idle),
                              Left(Reconnect))
    case Ended(Resume) => (s.(backoff := 1, phase := Idle), Left(Resume))
    case Ended(Shutdown) => (s.(phase := Stopped), Left(Shutdown))
  }

  predicate IsBeatMove(move: Move) {
    move.BeatCheck? || move.BeatClear? || move.BeatRead? || move.BeatSend?
  }

  /** Whether the session's connection takes writes: it is closed only after the session's result is known. */
  predicate IsOpen(phase: Phase) {
    phase.Greeted? || phase.Live? || phase.Handling? || phase.Over?
  }

  function BeatStep(s: State, move: Move): (State, Event)
    requires IsBeatMove(move) && move.k in s.beats
  {
    var k, beat := move.k, s.beats[move.k];
    if move.BeatCheck? && beat == Waiting then (s.(beats := s.beats[k := if s.acked then Checked else Gone]), Silent)
    else if move.BeatClear? && beat == Checked then (s.(acked := false, beats := s.beats[k := Cleared]), Silent)
    else if move.BeatRead? && beat == Cleared then (s.(beats := s.beats[k := Loaded(s.sequence)]), BeatReads(k))
    else if move.BeatSend? && beat.Loaded? then
      if move.ok && k == s.session && IsOpen(s.phase) then
        (s.(beats := s.beats[k := Waiting]), TimerBeat(k, beat.sequence))
      else (s.(beats := s.beats[k := Gone]), Silent)
    else (s, Silent)
  }

  /** The steps up to a session's event loop. */
  function ConnectStep(s: State, move: Move): (State, Event) {
    if s.phase.Idle? && move.Fetch? then
      if s.resumeUrl != "" then (s.(phase := Dialing(s.resumeUrl)), Silent)
      else if move.answer.Some? then (s.(phase := Dialing(move.answer.value)), Silent)
      else (s.(phase := Over(Failed)), Silent)
    else if s.phase.Dialing? && move.Dial? then
      (s.(session := s.session + 1, phase := if move.ok then Greeting else Over(Failed)), Dialed(s.phase.url))
    else if s.phase.Greeting? && move.Greet? then
      if move.input.Received? && move.input.frame.op == HELLO then
        var interval := if move.input.frame.interval <= 0 then DEFAULT_INTERVAL else move.input.frame.interval;
        (s.(interval := interval, acked := true, phase := Greeted, beats := s.beats[s.session := Waiting]), Silent)
      else (s.(phase := Over(Failed)), Refused(move.input))
    else if s.phase.Greeted? && move.Handshake? then
      (s.(phase := if move.ok then Live else Over(Failed)),
       if s.sessionId != "" && s.sequence.Some? then Resumed(s.sessionId, s.sequence.value) else Identified)
    else (s, Silent)
  }

  /** The event loop stores a frame's sequence number first and acts on the frame later. */
  function SessionStep(s: State, move: Move): (State, Event) {
    if s.phase.Live? && move.Read? then
      if move.input.Received? then
        var f := move.input.frame;
        (s.(phase := Handling(f), sequence := if f.sequence.Some? then f.sequence else s.sequence), Got(s.session, f))
      else (s.(phase := Over(Lose(move.input))), Lost(move.input))
    else if s.phase.Handling? && move.Handle? then
      (Absorb(s, s.phase.frame), Handled(s.session, s.phase.frame, ReplyTo(s, s.phase.frame)))
    else (s, Silent)
  }

  /** One atomic step; a move whose turn it is not changes nothing. */
  function Step(s: State, move: Move): (State, Event) {
    if IsBeatMove(move) then if move.k in s.beats then BeatStep(s, move) else (s, Silent)
    else if move.Receive? then if s.buffer == [] then (s, Silent) else (s.(buffer := s.buffer[1..]), Took(s.buffer[0]))
    else if move.Push? then (s.(buffer := s.buffer + [move.message]), Pushed(move.message))
    else if move.Read? || move.Handle? then SessionStep(s, move)
    else if move.Settle? then if s.phase.Over? then SettleWith(s, s.phase.result) else (s, Silent)
    else if move.Cancel? then if s.phase.Idle? || s.phase == Over(Failed) then (s.(phase := Stopped), Quit)
      else (s, Silent)
    else ConnectStep(s, move)
  }

  // --- Runs ---

  ghost predicate BeatFollows(s: State, e: Event, t: State) {
    exists move :: IsBeatMove(move) && move.k in s.beats && BeatStep(s, move) == (t, e)
  }

  ghost predicate SessionFollows(s: State, e: Event, t: State) {
    exists move :: SessionStep(s, move) == (t, e)
  }

  ghost predicate ConnectFollows(s: State, e: Event, t: State) {
    exists move :: ConnectStep(s, move) == (t, e)
  }

  ghost predicate SettleFollows(s: State, e: Event, t: State) {
    s.phase.Over? && SettleWith(s, s.phase.result) == (t, e)
  }

  ghost predicate ReceiveFollows(s: State, e: Event, t: State) {
    s.buffer != [] && (t, e) == (s.(buffer := s.buffer[1..]), Took(s.buffer[0]))
  }

  ghost predicate PushFollows(s: State, e: Event, t: State) {
    e.Pushed? && t == s.(buffer := s.buffer + [e.message])
  }

  ghost predicate CancelFollows(s: State, e: Event, t: State) {
    || (e == Silent && t == s)
    || (e == Quit && (s.phase.Idle? || s.phase == Over(Failed)) && t == s.(phase := Stopped))
  }

  /**
    One event takes a state to another: a heartbeat goroutine's, the event loop's, the reconnect loop's
    or a caller's.
   */
  ghost predicate Follows(s: State, e: Event, t: State) {
    || BeatFollows(s, e, t) || SessionFollows(s, e, t) || ConnectFollows(s, e, t) || SettleFollows(s, e, t)
    || ReceiveFollows(s, e, t) || PushFollows(s, e, t) || CancelFollows(s, e, t)
  }

  lemma StepFollows(s: State, move: Move)
    ensures Follows(s, Step(s, move).1, Step(s, move).0)
  {
    if IsBeatMove(move) && move.k in s.beats {
      var (t, e) := BeatStep(s, move);
      assert BeatFollows(s, e, t);
    } else if move.Read? || move.Handle? {
      var (t, e) := SessionStep(s, move);
      assert SessionFollows(s, e, t);
    }
  }

  ghost predicate StepAt(states: seq<State>, log: seq<Event>, i: nat)
    requires |states| == |log| + 1 && i < |log|
  {
    Follows(states[i], log[i], states[i + 1])
  }

  /** A run under any schedule: any interleaving, any frames and any failures. */
  ghost predicate IsRun(states: seq<State>, log: seq<Event>) {
    |states| == |log| + 1 && states[0] == INITIAL && forall i :: 0 <= i < |log| ==> StepAt(states, log, i)
  }

  lemma RunExtends(states: seq<State>, log: seq<Event>, move: Move)
    requires IsRun(states, log)
    ensures var (t, e) := Step(states[|log|], move); IsRun(states + [t], log + [e])
  {
    var (t, e) := Step(states[|log|], move);
    StepFollows(states[|log|], move);
    forall i | 0 <= i < |log| + 1 ensures StepAt(states + [t], log + [e], i) {
      assert i < |log| ==> StepAt(states, log, i);
    }
  }

  // --- What one step does ---

  predicate IsClear(e: Event) {
    (e.Handled? && Clears(e.frame)) || e == Left(Reconnect)
  }

  predicate IsHandshake(e: Event) {
    e.Identified? || e.Resumed?
  }

  predicate Announces(e: Event) {
    e.Handled? && IsReady(e.frame)
  }

  predicate Numbers(e: Event) {
    e.Got? && e.frame.sequence.Some?
  }

  function SessionAfter(known: string, e: Event): string {
    if IsClear(e) then "" else if Announces(e) then e.frame.sessionId else known
  }

  function SequenceAfter(known: Option<int>, e: Event): Option<int> {
    if IsClear(e) then None else if Numbers(e) then e.frame.sequence else known
  }

  /** What a handshake, a heartbeat or a wait says, in terms of the state it is made in. */
  ghost predicate Honest(s: State, e: Event) {
    && (e.Resumed? ==> e.sessionId == s.sessionId != "" && s.sequence == Some(e.sequence))
    && (e.Identified? ==> s.sessionId == "" || s.sequence == None)
    && (e.Handled? ==> e.reply == if e.frame.op == HEARTBEAT then HeartbeatReply(s.sequence) else NoReply)
    && (e.Waited? ==> e.seconds == s.backoff)
  }

  predicate Forgotten(s: State) {
    !s.phase.Live? && !s.phase.Handling? && s.sessionId == ""
  }

  predicate Final(phase: Phase) {
    phase.Stopped? || phase == Over(Ended(Shutdown))
  }

  predicate IsFatal(input: Input) {
    input.Closed? && IsFatalClose(input.code)
  }

  function TakenBy(e: Event): seq<string> {
    if e.Took? then [e.message] else []
  }

  function BroughtBy(e: Event): seq<string> {
    if e.Handled? && Brings(e.frame) then [e.frame.message.value] else if e.Pushed? then [e.message] else []
  }

  ghost predicate Buffers(s: State, e: Event, t: State) {
    TakenBy(e) + t.buffer == s.buffer + BroughtBy(e)
  }

  /** A step learns from what it hears, says what it knows, and waits as long as it has failed. */
  ghost predicate IsSound(s: State, e: Event, t: State) {
    && t.sessionId == SessionAfter(s.sessionId, e) && t.sequence == SequenceAfter(s.sequence, e) && Honest(s, e)
    && t.backoff == if e.Waited? then Doubled(s.backoff) else if e.Left? && e.action != Shutdown then 1 else s.backoff
  }

  /** A clear forgets, until a handshake; a fatal close is final. */
  ghost predicate IsFirm(s: State, e: Event, t: State) {
    && (IsClear(e) ==> Forgotten(t)) && (Forgotten(s) && !IsHandshake(e) ==> Forgotten(t))
    && (Final(s.phase) ==> Final(t.phase) && !e.Dialed?) && (e.Lost? && IsFatal(e.input) ==> Final(t.phase))
  }

  lemma BeatIsSound(s: State, e: Event, t: State)
    requires BeatFollows(s, e, t)
    ensures IsSound(s, e, t) && IsFirm(s, e, t) && Buffers(s, e, t)
  {
  }

  lemma SessionIsSound(s: State, e: Event, t: State)
    requires SessionFollows(s, e, t)
    ensures IsSound(s, e, t) && Buffers(s, e, t)
  {
  }

  lemma SessionIsFirm(s: State, e: Event, t: State)
    requires SessionFollows(s, e, t)
    ensures IsFirm(s, e, t)
  {
  }

  lemma ConnectIsSound(s: State, e: Event, t: State)
    requires ConnectFollows(s, e, t)
    ensures IsSound(s, e, t) && Buffers(s, e, t)
  {
  }

  lemma ConnectIsFirm(s: State, e: Event, t: State)
    requires ConnectFollows(s, e, t)
    ensures IsFirm(s, e, t)
  {
  }

  lemma RestIsSound(s: State, e: Event, t: State)
    requires SettleFollows(s, e, t) || ReceiveFollows(s, e, t) || PushFollows(s, e, t) || CancelFollows(s, e, t)
    ensures IsSound(s, e, t) && IsFirm(s, e, t) && Buffers(s, e, t)
  {
    if ReceiveFollows(s, e, t) {
      assert [s.buffer[0]] + s.buffer[1..] == s.buffer;
    }
  }

  lemma StepIsSound(states: seq<State>, log: seq<Event>, i: nat)
    requires IsRun(states, log) && i < |log|
    ensures IsSound(states[i], log[i], states[i + 1]) && IsFirm(states[i], log[i], states[i + 1])
    ensures Buffers(states[i], log[i], states[i + 1])
  {
    var s, e, t := states[i], log[i], states[i + 1];
    assert StepAt(states, log, i);
    if BeatFollows(s, e, t) {
      BeatIsSound(s, e, t);
    } else if SessionFollows(s, e, t) {
      SessionIsSound(s, e, t);
      SessionIsFirm(s, e, t);
    } else if ConnectFollows(s, e, t) {
      ConnectIsSound(s, e, t);
      ConnectIsFirm(s, e, t);
    } else {
      RestIsSound(s, e, t);
    }
  }

  // --- What one step does to the heartbeat goroutines ---

  /** A heartbeat goroutine's own doings. */
  predicate IsOf(e: Event, k: nat) {
    (e.BeatReads? || e.TimerBeat?) && e.k == k
  }

  ghost predicate Holds(s: State, k: nat, q: Option<int>) {
    k in s.beats && s.beats[k] == Loaded(q)
  }

  predicate IsBeat(e: Event, k: nat) {
    e.TimerBeat? && e.k == k
  }

  predicate IsAck(e: Event, k: nat) {
    e.Handled? && e.k == k && e.frame.op == HEARTBEAT_ACK
  }

  /** No goroutine belongs to a session still to come, or to one not greeted yet. */
  predicate Fresh(s: State) {
    (forall k :: k in s.beats ==> k <= s.session) && (s.phase.Greeting? ==> s.session !in s.beats)
  }

  /** Heartbeats may be one ahead of the acknowledgements only while the flag is down and none is under way. */
  predicate Balanced(s: State, k: nat, beats: nat, acks: nat) {
    && beats <= acks + 1
    && (k > s.session ==> beats == 0)
    && (k == s.session && k !in s.beats ==> beats == 0)
    && (k == s.session && k in s.beats ==>
          match s.beats[k]
          case Waiting => s.acked ==> beats <= acks
          case Checked => beats <= acks
          case Cleared => beats <= acks && (s.acked ==> beats < acks)
          case Loaded(_) => beats <= acks && (s.acked ==> beats < acks)
          case Gone => true)
  }

  ghost predicate Loads(s: State, e: Event, t: State, k: nat, q: Option<int>) {
    && (Holds(t, k, q) ==> if e == BeatReads(k) then q == s.sequence else Holds(s, k, q) && !IsOf(e, k))
    && (e == TimerBeat(k, q) ==> Holds(s, k, q))
  }

  ghost predicate Balances(s: State, e: Event, t: State, k: nat, beats: nat, acks: nat) {
    Fresh(s) && Balanced(s, k, beats, acks) ==>
      Fresh(t) && Balanced(t, k, beats + if IsBeat(e, k) then 1 else 0, acks + if IsAck(e, k) then 1 else 0)
  }

  lemma BeatLoads(s: State, e: Event, t: State, k: nat, q: Option<int>)
    requires BeatFollows(s, e, t)
    ensures Loads(s, e, t, k, q)
  {
  }

  lemma BeatBalances(s: State, e: Event, t: State, k: nat, beats: nat, acks: nat)
    requires BeatFollows(s, e, t)
    ensures Balances(s, e, t, k, beats, acks)
  {
  }

  lemma SessionKeepsBeats(s: State, e: Event, t: State, k: nat, q: Option<int>, beats: nat, acks: nat)
    requires SessionFollows(s, e, t)
    ensures Loads(s, e, t, k, q) && Balances(s, e, t, k, beats, acks)
  {
  }

  lemma ConnectKeepsLoads(s: State, e: Event, t: State, k: nat, q: Option<int>)
    requires ConnectFollows(s, e, t)
    ensures Loads(s, e, t, k, q)
  {
  }

  lemma ConnectKeepsBalance(s: State, e: Event, t: State, k: nat, beats: nat, acks: nat)
    requires ConnectFollows(s, e, t)
    ensures Balances(s, e, t, k, beats, acks)
  {
  }

  lemma RestKeepsBeats(s: State, e: Event, t: State, k: nat, q: Option<int>, beats: nat, acks: nat)
    requires SettleFollows(s, e, t) || ReceiveFollows(s, e, t) || PushFollows(s, e, t) || CancelFollows(s, e, t)
    ensures Loads(s, e, t, k, q) && Balances(s, e, t, k, beats, acks)
  {
  }

  lemma StepKeepsBeats(states: seq<State>, log: seq<Event>, i: nat, k: nat, q: Option<int>, beats: nat, acks: nat)
    requires IsRun(states, log) && i < |log|
    ensures Loads(states[i], log[i], states[i + 1], k, q) && Balances(states[i], log[i], states[i + 1], k, beats, acks)
  {
    var s, e, t := states[i], log[i], states[i + 1];
    assert StepAt(states, log, i);
    if BeatFollows(s, e, t) {
      BeatLoads(s, e, t, k, q);
      BeatBalances(s, e, t, k, beats, acks);
    } else if SessionFollows(s, e, t) {
      SessionKeepsBeats(s, e, t, k, q, beats, acks);
    } else if ConnectFollows(s, e, t) {
      ConnectKeepsLoads(s, e, t, k, q);
      ConnectKeepsBalance(s, e, t, k, beats, acks);
    } else {
      RestKeepsBeats(s, e, t, k, q, beats, acks);
    }
  }

  // --- Sessions and sequence numbers ---

  /** The session of the latest READY, if nothing has cleared it since. */
  function SessionOf(log: seq<Event>): string {
    if log == [] then "" else SessionAfter(SessionOf(log[..|log| - 1]), log[|log| - 1])
  }

  /** The latest sequence number received since the last clear. */
  function SequenceOf(log: seq<Event>): Option<int> {
    if log == [] then None else SequenceAfter(SequenceOf(log[..|log| - 1]), log[|log| - 1])
  }

  lemma {:induction false} StateIsHistory(states: seq<State>, log: seq<Event>, i: nat)
    requires IsRun(states, log) && i <= |log|
    ensures states[i].sessionId == SessionOf(log[..i]) && states[i].sequence == SequenceOf(log[..i])
  {
    if i > 0 {
      StateIsHistory(states, log, i - 1);
      StepIsSound(states, log, i - 1);
      assert log[..i][..i - 1] == log[..i - 1];
    }
  }

  /** A session known to the history was announced by a READY, and neither another READY nor a clear came since. */
  lemma {:induction false} SessionWasAnnounced(log: seq<Event>) returns (j: nat)
    requires SessionOf(log) != ""
    ensures j < |log| && Announces(log[j]) && log[j].frame.sessionId == SessionOf(log)
    ensures forall i :: j < i < |log| ==> !IsClear(log[i]) && !Announces(log[i])
  {
    if Announces(log[|log| - 1]) {
      j := |log| - 1;
    } else {
      j := SessionWasAnnounced(log[..|log| - 1]);
    }
  }

  lemma {:induction false} SequenceWasReceived(log: seq<Event>) returns (j: nat)
    requires SequenceOf(log).Some?
    ensures j < |log| && Numbers(log[j]) && log[j].frame.sequence == SequenceOf(log) && !IsClear(log[j])
    ensures forall i :: j < i < |log| ==> !IsClear(log[i]) && !Numbers(log[i])
  {
    if Numbers(log[|log| - 1]) {
      j := |log| - 1;
    } else {
      j := SequenceWasReceived(log[..|log| - 1]);
    }
  }

  /**
    Every handshake agrees with the history: a session is resumed exactly when one is known together with a
    sequence number, and then with these. A heartbeat the server asks for is sent, with the latest number.
   */
  lemma HandshakesAreHonest(states: seq<State>, log: seq<Event>, i: nat)
    requires IsRun(states, log) && i < |log|
    ensures log[i].Resumed? ==>
              SessionOf(log[..i]) == log[i].sessionId != "" && SequenceOf(log[..i]) == Some(log[i].sequence)
    ensures log[i].Identified? ==> SessionOf(log[..i]) == "" || SequenceOf(log[..i]) == None
    ensures log[i].Handled? && log[i].frame.op == HEARTBEAT ==> log[i].reply == HeartbeatReply(SequenceOf(log[..i]))
  {
    StepIsSound(states, log, i);
    StateIsHistory(states, log, i);
  }

  /** A number a goroutine holds was the latest when it read it. */
  lemma {:induction false} LoadedWhenRead(states: seq<State>, log: seq<Event>, i: nat, k: nat, q: Option<int>)
    returns (j: nat)
    requires IsRun(states, log) && i <= |log| && Holds(states[i], k, q)
    ensures j < i && log[j] == BeatReads(k) && q == SequenceOf(log[..j]) && forall h :: j < h < i ==> !IsOf(log[h], k)
  {
    StepKeepsBeats(states, log, i - 1, k, q, 0, 0);
    if log[i - 1] == BeatReads(k) {
      j := i - 1;
      StateIsHistory(states, log, j);
    } else {
      j := LoadedWhenRead(states, log, i - 1, k, q);
    }
  }

  /**
    A timer heartbeat carries the number that was the latest when its goroutine read it, which it did
    after its previous heartbeat; the event loop may have stored newer ones since.
   */
  lemma HeartbeatCarriesItsReading(states: seq<State>, log: seq<Event>, i: nat) returns (j: nat)
    requires IsRun(states, log) && i < |log| && log[i].TimerBeat?
    ensures j < i && log[j] == BeatReads(log[i].k) && log[i].carried == SequenceOf(log[..j])
    ensures forall h :: j < h < i ==> !IsOf(log[h], log[i].k)
  {
    StepKeepsBeats(states, log, i, log[i].k, log[i].carried, 0, 0);
    j := LoadedWhenRead(states, log, i, log[i].k, log[i].carried);
  }

  /** A run in which the client waits for the greeting. */
  lemma GreetingIsReachable(url: string) returns (states: seq<State>, log: seq<Event>)
    ensures IsRun(states, log) && |log| == 2 && states[2] == INITIAL.(phase := Greeting, session := 1)
  {
    states, log := [INITIAL], [];
    RunExtends(states, log, Fetch(Some(url)));
    var s1 := Step(INITIAL, Fetch(Some(url))).0;
    states, log := states + [s1], log + [Silent];
    RunExtends(states, log, Dial(true));
    states, log := states + [Step(s1, Dial(true)).0], log + [Dialed(url)];
  }

  /** A run goes on by a move. */
  lemma MoveOn(states: seq<State>, log: seq<Event>, move: Move) returns (more: seq<State>, now: seq<Event>)
    requires IsRun(states, log)
    ensures IsRun(more, now) && now == log + [Step(states[|log|], move).1] && more[|now|] == Step(states[|log|], move).0
  {
    RunExtends(states, log, move);
    var (t, e) := Step(states[|log|], move);
    more, now := states + [t], log + [e];
  }

  /** A run in which a session is live and its goroutine has cleared the flag but not read the number. */
  lemma ClearedIsReachable(url: string, hello: Frame) returns (states: seq<State>, log: seq<Event>)
    requires hello.op == HELLO
    ensures IsRun(states, log)
    ensures var s := states[|log|];
            s.phase.Live? && s.session == 1 && s.beats == map[1 := Cleared] && s.sequence == None
  {
    states, log := GreetingIsReachable(url);
    states, log := MoveOn(states, log, Greet(Received(hello)));
    states, log := MoveOn(states, log, Handshake(true));
    states, log := MoveOn(states, log, BeatCheck(1));
    states, log := MoveOn(states, log, BeatClear(1));
  }

  /** It may be an old one: a number stored between the reading and the sending does not go out. */
  lemma HeartbeatCanBeOld(states: seq<State>, log: seq<Event>, k: nat, f: Frame) returns (more: seq<State>)
    requires IsRun(states, log) && f.sequence.Some? && f.sequence != states[|log|].sequence
    requires states[|log|].phase.Live? && states[|log|].session == k
    requires k in states[|log|].beats && states[|log|].beats[k] == Cleared
    ensures var now := log + [BeatReads(k)] + [Got(k, f)];
            && IsRun(states + more, now + [TimerBeat(k, states[|log|].sequence)])
            && SequenceOf(now) == f.sequence != states[|log|].sequence
  {
    var s := states[|log|];
    var s1, s2, s3 := Step(s, BeatRead(k)).0, Step(Step(s, BeatRead(k)).0, Read(Received(f))).0, s;
    s3 := Step(s2, BeatSend(k, true)).0;
    RunExtends(states, log, BeatRead(k));
    RunExtends(states + [s1], log + [BeatReads(k)], Read(Received(f)));
    RunExtends(states + [s1] + [s2], log + [BeatReads(k)] + [Got(k, f)], BeatSend(k, true));
    more := [s1, s2, s3];
    assert states + more == states + [s1] + [s2] + [s3];
    assert (log + [BeatReads(k)] + [Got(k, f)])[..|log| + 1] == log + [BeatReads(k)];
  }

  // --- Messages ---

  /** The messages that came in, from the gateway or from a webhook, in order. */
  function Brought(log: seq<Event>): seq<string> {
    if log == [] then [] else Brought(log[..|log| - 1]) + BroughtBy(log[|log| - 1])
  }

  /** The messages handed out, in order. */
  function Taken(log: seq<Event>): seq<string> {
    if log == [] then [] else Taken(log[..|log| - 1]) + TakenBy(log[|log| - 1])
  }

  /** No message is lost, duplicated or reordered, across sessions and reconnects. */
  lemma {:induction false} MessagesAreConserved(states: seq<State>, log: seq<Event>, i: nat)
    requires IsRun(states, log) && i <= |log|
    ensures Taken(log[..i]) + states[i].buffer == Brought(log[..i])
  {
    if i > 0 {
      var e, before := log[i - 1], log[..i - 1];
      MessagesAreConserved(states, log, i - 1);
      StepIsSound(states, log, i - 1);
      assert log[..i][..i - 1] == before;
      Associate(Taken(before), TakenBy(e), states[i].buffer);
      Associate(Taken(before), states[i - 1].buffer, BroughtBy(e));
    }
  }

  // --- Clearing ---

  /** After a clear there is neither a session nor a way to learn of one before the next handshake. */
  lemma {:induction false} ForgottenUntilHandshake(states: seq<State>, log: seq<Event>, i: nat, j: nat)
    requires IsRun(states, log) && i < j <= |log| && IsClear(log[i])
    requires forall h :: i < h < j ==> !IsHandshake(log[h])
    ensures Forgotten(states[j])
  {
    if i < j - 1 {
      ForgottenUntilHandshake(states, log, i, j - 1);
    }
    StepIsSound(states, log, j - 1);
  }

  /** The first handshake after a non-resumable invalid session or a reconnect action is an Identify. */
  lemma ClearForcesIdentify(states: seq<State>, log: seq<Event>, i: nat, j: nat)
    requires IsRun(states, log) && i < j < |log| && IsClear(log[i]) && IsHandshake(log[j])
    requires forall h :: i < h < j ==> !IsHandshake(log[h])
    ensures log[j] == Identified
  {
    ForgottenUntilHandshake(states, log, i, j);
    StepIsSound(states, log, j);
  }

  // --- Fatal closes ---

  lemma {:induction false} FinalSince(states: seq<State>, log: seq<Event>, i: nat, j: nat)
    requires IsRun(states, log) && i < j <= |log| && log[i].Lost? && IsFatal(log[i].input)
    ensures Final(states[j].phase)
  {
    if i < j - 1 {
      FinalSince(states, log, i, j - 1);
    }
    StepIsSound(states, log, j - 1);
  }

  /** A fatal close code read by the event loop is followed by no further connection. */
  lemma FatalCloseIsFinal(states: seq<State>, log: seq<Event>, i: nat, j: nat)
    requires IsRun(states, log) && i < j < |log| && log[i].Lost? && IsFatal(log[i].input)
    ensures !log[j].Dialed?
  {
    FinalSince(states, log, i, j);
    StepIsSound(states, log, j);
  }

  /** Read in place of the greeting it is a failure like any other: the loop waits and connects again. */
  lemma CloseBeforeGreetingIsRetried(states: seq<State>, log: seq<Event>, code: int, url: string)
    returns (more: seq<State>)
    requires IsRun(states, log) && states[|log|].phase.Greeting?
    ensures IsRun(states + more, log + [Refused(Closed(code))] + [Waited(states[|log|].backoff)] + [Silent]
                               + [Dialed(if states[|log|].resumeUrl != "" then states[|log|].resumeUrl else url)])
  {
    var s := states[|log|];
    var s1 := Step(s, Greet(Closed(code))).0;
    var s2 := Step(s1, Settle).0;
    var s3 := Step(s2, Fetch(Some(url))).0;
    var s4 := Step(s3, Dial(true)).0;
    RunExtends(states, log, Greet(Closed(code)));
    RunExtends(states + [s1], log + [Refused(Closed(code))], Settle);
    RunExtends(states + [s1] + [s2], log + [Refused(Closed(code))] + [Waited(s.backoff)], Fetch(Some(url)));
    RunExtends(states + [s1] + [s2] + [s3], log + [Refused(Closed(code))] + [Waited(s.backoff)] + [Silent], Dial(true));
    more := [s1, s2, s3, s4];
    assert states + more == states + [s1] + [s2] + [s3] + [s4];
  }

  // --- Backoff ---

  function FailuresAfter(failures: nat, e: Event): nat {
    if e.Waited? then failures + 1 else if e.Left? && e.action != Shutdown then 0 else failures
  }

  /** Failures since the last session that ended without one. */
  function Failures(log: seq<Event>): nat {
    if log == [] then 0 else FailuresAfter(Failures(log[..|log| - 1]), log[|log| - 1])
  }

  function Pow2(n: nat): nat {
    if n == 0 then 1 else 2 * Pow2(n - 1)
  }

  function Delay(failures: nat): nat {
    if Pow2(failures) <= MAX_BACKOFF then Pow2(failures) else MAX_BACKOFF
  }

  lemma {:induction false} BackoffIsHistory(states: seq<State>, log: seq<Event>, i: nat)
    requires IsRun(states, log) && i <= |log|
    ensures states[i].backoff == Delay(Failures(log[..i]))
  {
    if i > 0 {
      BackoffIsHistory(states, log, i - 1);
      StepIsSound(states, log, i - 1);
      assert log[..i][..i - 1] == log[..i - 1];
    }
  }

  /** The k-th failure in a row waits 2^(k-1) seconds, at most a minute. */
  lemma WaitIsExponential(states: seq<State>, log: seq<Event>, i: nat)
    requires IsRun(states, log) && i < |log| && log[i].Waited?
    ensures var k := Failures(log[..i + 1]); k >= 1 && log[i] == Waited(Delay(k - 1))
  {
    StepIsSound(states, log, i);
    BackoffIsHistory(states, log, i);
    assert log[..i + 1][..i] == log[..i];
  }

  // --- Heartbeats ---

  function Beats(log: seq<Event>, k: nat): nat {
    if log == [] then 0 else Beats(log[..|log| - 1], k) + if IsBeat(log[|log| - 1], k) then 1 else 0
  }

  /** The acknowledgements received in a session. */
  function Acks(log: seq<Event>, k: nat): nat {
    if log == [] then 0 else Acks(log[..|log| - 1], k) + if IsAck(log[|log| - 1], k) then 1 else 0
  }

  lemma {:induction false} StaysBalanced(states: seq<State>, log: seq<Event>, i: nat, k: nat)
    requires IsRun(states, log) && i <= |log|
    ensures Fresh(states[i]) && Balanced(states[i], k, Beats(log[..i], k), Acks(log[..i], k))
  {
    if i > 0 {
      StaysBalanced(states, log, i - 1, k);
      StepKeepsBeats(states, log, i - 1, k, None, Beats(log[..i - 1], k), Acks(log[..i - 1], k));
      assert log[..i][..i - 1] == log[..i - 1];
    }
  }

  /** Within a session, timer heartbeats never exceed the acknowledgements by more than one. */
  lemma HeartbeatsAreAcknowledged(states: seq<State>, log: seq<Event>, i: nat, k: nat)
    requires IsRun(states, log) && i <= |log|
    ensures Beats(log[..i], k) <= Acks(log[..i], k) + 1
  {
    StaysBalanced(states, log, i, k);
  }

  // --- The shared state, updated in place ---

  class Client {
    var sequence: Option<int>
    var sessionId: string
    var resumeUrl: string
    var acked: bool
    var interval: int
    var backoff: nat
    var phase: Phase
    var session: nat
    var beats: map<nat, Beat>
    var buffer: seq<string>

    ghost function Value(): State
      reads this
    {
      State(sequence, sessionId, resumeUrl, acked, interval, backoff, phase, session, beats, buffer)
    }

    constructor ()
      ensures Value() == INITIAL
    {
      sequence, sessionId, resumeUrl, acked, interval := None, "", "", true, DEFAULT_INTERVAL;
      backoff, phase, session, beats, buffer := 1, Idle, 0, map[], [];
    }

    /** Stores a frame's sequence number, as the first thing done with it. */
    method StoreSequence(f: Frame)
      modifies this`sequence
      ensures sequence == if f.sequence.Some? then f.sequence else old(sequence)
    {
      if f.sequence.Some? {
        sequence := f.sequence;
      }
    }

    method HandleDispatch(f: Frame)
      modifies this`sessionId, this`resumeUrl, this`buffer
      ensures if f.event == READY then sessionId == f.sessionId && resumeUrl == f.resumeUrl
              else sessionId == old(sessionId) && resumeUrl == old(resumeUrl)
      ensures buffer == old(buffer) + if f.event == MESSAGE_CREATE && f.message.Some? then [f.message.value] else []
    {
      if f.event == READY {
        sessionId, resumeUrl := f.sessionId, f.resumeUrl;
      } else if f.event == MESSAGE_CREATE && f.message.Some? {
        buffer := buffer + [f.message.value];
      }
    }

    /** Acts on a frame; an action ends the session. */
    method HandleMessage(f: Frame) returns (action: Option<Action>, reply: Reply)
      requires phase == Handling(f)
      modifies this
      ensures Value() == Absorb(old(Value()), f) && reply == ReplyTo(old(Value()), f)
      ensures phase == if action.Some? then Over(Ended(action.value)) else Live
    {
      action, reply := None, NoReply;
      if f.op == DISPATCH {
        HandleDispatch(f);
      } else if f.op == HEARTBEAT {
        reply := HeartbeatReply(sequence);
      } else if f.op == RECONNECT {
        action := Some(Resume);
      } else if f.op == INVALID_SESSION {
        if f.resumable {
          action := Some(Resume);
        } else {
          sessionId, sequence := "", None;
          action := Some(Reconnect);
        }
      } else if f.op == HEARTBEAT_ACK {
        acked := true;
      }
      phase := if action.Some? then Over(Ended(action.value)) else Live;
    }

    /** Half an iteration of the session's event loop: read a frame, or act on the one read. */
    method SessionOnce(move: Move) returns (e: Event)
      requires (phase.Live? && move.Read?) || (phase.Handling? && move.Handle?)
      modifies this
      ensures (Value(), e) == SessionStep(old(Value()), move)
    {
      if move.Handle? {
        var f := phase.frame;
        var _, reply := HandleMessage(f);
        return Handled(session, f, reply);
      }
      if move.input.Received? {
        StoreSequence(move.input.frame);
        phase := Handling(move.input.frame);
        return Got(session, move.input.frame);
      }
      phase := Over(Lose(move.input));
      return Lost(move.input);
    }

    /** Buffers a message that came by a webhook. */
    method PushMessage(message: string)
      modifies this`buffer
      ensures buffer == old(buffer) + [message]
    {
      buffer := buffer + [message];
    }

    /** Hands out the oldest buffered message. */
    method Recv() returns (message: Option<string>)
      modifies this`buffer
      ensures if old(buffer) == [] then message == None && buffer == []
              else message == Some(old(buffer)[0]) && buffer == old(buffer)[1..]
    {
      if |buffer| == 0 {
        return None;
      }
      message, buffer := Some(buffer[0]), buffer[1..];
    }

    method Connect(move: Move) returns (e: Event)
      requires (phase.Idle? && move.Fetch?) || (phase.Dialing? && move.Dial?)
      modifies this`phase, this`session
      ensures (Value(), e) == Step(old(Value()), move)
    {
      if move.Fetch? {
        phase := if resumeUrl != "" then Dialing(resumeUrl) else if move.answer.Some? then Dialing(move.answer.value)
          else Over(Failed);
        return Silent;
      }
      session := session + 1;
      var url := phase.url;
      phase := if move.ok then Greeting else Over(Failed);
      return Dialed(url);
    }

    /** Reads the greeting and starts the heartbeat goroutine. */
    method ReadHello(input: Input) returns (e: Event)
      requires phase.Greeting?
      modifies this
      ensures (Value(), e) == Step(old(Value()), Greet(input))
    {
      if input.Received? && input.frame.op == HELLO {
        interval := if input.frame.interval <= 0 then DEFAULT_INTERVAL else input.frame.interval;
        acked := true;
        beats := beats[session := Waiting];
        phase := Greeted;
        return Silent;
      }
      phase := Over(Failed);
      return Refused(input);
    }

    method SendHandshake(ok: bool) returns (e: Event)
      requires phase.Greeted?
      modifies this`phase
      ensures (Value(), e) == Step(old(Value()), Handshake(ok))
    {
      phase := if ok then Live else Over(Failed);
      if sessionId != "" && sequence.Some? {
        return Resumed(sessionId, sequence.value);
      }
      return Identified;
    }

    /** The reconnect loop's reaction to the end of a session. */
    method SettleSession() returns (e: Event)
      requires phase.Over?
      modifies this
      ensures (Value(), e) == Step(old(Value()), Settle)
    {
      match phase.result
      case Failed =>
        e := Waited(backoff);
        backoff := if 2 * backoff <= MAX_BACKOFF then 2 * backoff else MAX_BACKOFF;
        phase := Idle;
      case Ended(Reconnect) =>
        sessionId, sequence, resumeUrl, backoff, phase := "", None, "", 1, Idle;
        e := Left(Reconnect);
      case Ended(Resume) =>
        backoff, phase := 1, Idle;
        e := Left(Resume);
      case Ended(Shutdown) =>
        phase := Stopped;
        e := Left(Shutdown);
    }

    /** The heartbeat goroutine of session k, one atomic step at a time. */
    method BeatOnce(move: Move) returns (e: Event)
      requires IsBeatMove(move) && move.k in beats
      modifies this`acked, this`beats
      ensures (Value(), e) == BeatStep(old(Value()), move)
    {
      var k, beat := move.k, beats[move.k];
      if move.BeatCheck? && beat == Waiting {
        beats := beats[k := if acked then Checked else Gone];
      } else if move.BeatClear? && beat == Checked {
        acked := false;
        beats := beats[k := Cleared];
      } else if move.BeatRead? && beat == Cleared {
        beats := beats[k := Loaded(sequence)];
        return BeatReads(k);
      } else if move.BeatSend? && beat.Loaded? {
        if move.ok && k == session && IsOpen(phase) {
          beats := beats[k := Waiting];
          return TimerBeat(k, beat.sequence);
        }
        beats := beats[k := Gone];
      }
      return Silent;
    }

    method Do(move: Move) returns (e: Event)
      modifies this
      ensures (Value(), e) == Step(old(Value()), move)
    {
      e := Silent;
      if IsBeatMove(move) {
        if move.k in beats {
          e := BeatOnce(move);
        }
      } else if move.Receive? {
        var message := Recv();
        e := if message.Some? then Took(message.value) else Silent;
      } else if move.Push? {
        PushMessage(move.message);
        e := Pushed(move.message);
      } else if (phase.Live? && move.Read?) || (phase.Handling? && move.Handle?) {
        e := SessionOnce(move);
      } else if (phase.Idle? && move.Fetch?) || (phase.Dialing? && move.Dial?) {
        e := Connect(move);
      } else if phase.Greeting? && move.Greet? {
        e := ReadHello(move.input);
      } else if phase.Greeted? && move.Handshake? {
        e := SendHandshake(move.ok);
      } else if phase.Over? && move.Settle? {
        e := SettleSession();
      } else if move.Cancel? && (phase.Idle? || phase == Over(Failed)) {
        phase := Stopped;
        e := Quit;
      }
    }

    /** Whatever the schedule, what happens is a run. */
    method RunGateway(schedule: seq<Move>) returns (log: seq<Event>, ghost states: seq<State>)
      requires Value() == INITIAL
      modifies this
      ensures IsRun(states, log) && Value() == states[|log|] && |log| == |schedule|
    {
      log, states := [], [INITIAL];
      for i := 0 to |schedule|
        invariant IsRun(states, log) && Value() == states[|log|] && |log| == i
      {
        RunExtends(states, log, schedule[i]);
        var e := Do(schedule[i]);
        log, states := log + [e], states + [Value()];
      }
    }
  }
}
