/**
  What the gateway client does after each ending of a session: that it stops only for good reason, comes
  back with its session when the server allows it, and can always come back.
 */
module GatewayLaws {
  import opened Text
  import opened Gateway

  // --- How sessions end ---

  /** The server asks the client to come back and resume. */
  predicate AsksToResume(e: Event) {
    || (e.Handled? && (e.frame.op == 7 || (e.frame.op == 9 && e.frame.resumable)))
    || (e.Lost? && e.input.Closed? && e.input.code in {4000, 4001, 4002, 4003, 4005, 4007, 4008, 4009})
  }

  /** Why a client may stop for good: it is cancelled, or the server closes with a fatal code. */
  predicate StopsForGood(e: Event) {
    || (e.Lost? && e.input.Cancelled?)
    || (e.Lost? && e.input.Closed? && e.input.code in {4004, 4010, 4011, 4013, 4014})
  }

  /** The session cannot be resumed. */
  predicate VoidsSession(e: Event) {
    || (e.Handled? && e.frame.op == 9 && !e.frame.resumable)
    || (e.Lost? && e.input.Closed? && e.input.code != -1 && !AsksToResume(e) && !StopsForGood(e))
  }

  /** The connection broke, or there was none. */
  predicate BreaksOff(e: Event) {
    e.Refused? || (e.Lost? && (e.input.Broken? || e.input == Closed(-1)))
  }

  predicate EndsSession(e: Event) {
    AsksToResume(e) || StopsForGood(e) || VoidsSession(e) || BreaksOff(e)
  }

  /** What the reconnect loop makes of it. */
  predicate Follows(e: Event, next: Event) {
    && (AsksToResume(e) ==> next == Left(Resume))
    && (StopsForGood(e) ==> next == Left(Shutdown))
    && (VoidsSession(e) ==> next == Left(Reconnect))
    && (BreaksOff(e) ==> next.Waited? || next == Quit)
  }

  /** Nothing the reconnect loop or a session has done. */
  predicate IsQuiet(e: Event) {
    e.Silent? || e.Took? || e.Pushed? || e.BeatReads? || e.TimerBeat?
  }

  predicate SameSession(s: State, t: State) {
    s.sessionId == t.sessionId && s.sequence == t.sequence && s.resumeUrl == t.resumeUrl
  }

  /** A heartbeat goroutine leaves everything but the flag and itself alone. */
  lemma BeatIsQuiet(s: State, e: Event, t: State)
    requires BeatFollows(s, e, t)
    ensures IsQuiet(e) && t == s.(acked := t.acked, beats := t.beats)
  {
  }

  /** Once a session is over only the reconnect loop moves on. */
  predicate AfterOver(s: State, e: Event, t: State) {
    s.phase.Over? ==>
      || (IsQuiet(e) && t.phase == s.phase && SameSession(s, t))
      || SettleWith(s, s.phase.result) == (t, e)
      || (e == Quit && s.phase.result == Failed)
  }

  lemma OverStep(s: State, e: Event, t: State)
    requires Gateway.Follows(s, e, t)
    ensures AfterOver(s, e, t)
  {
    if BeatFollows(s, e, t) {
      BeatIsQuiet(s, e, t);
    } else if SessionFollows(s, e, t) {
    } else if ConnectFollows(s, e, t) {
    }
  }

  /** The result of a session by what ended it. */
  predicate EndedBy(e: Event, phase: Phase) {
    && phase.Over?
    && (AsksToResume(e) ==> phase.result == Ended(Resume))
    && (StopsForGood(e) ==> phase.result == Ended(Shutdown))
    && (VoidsSession(e) ==> phase.result == Ended(Reconnect))
    && (BreaksOff(e) ==> phase.result == Failed)
  }

  lemma EndStep(s: State, e: Event, t: State)
    requires Gateway.Follows(s, e, t) && EndsSession(e)
    ensures EndedBy(e, t.phase) && (AsksToResume(e) ==> SameSession(s, t))
  {
    if BeatFollows(s, e, t) {
      BeatIsQuiet(s, e, t);
    } else if SessionFollows(s, e, t) {
    } else if ConnectFollows(s, e, t) {
    }
  }

  lemma {:induction false} StaysOver(states: seq<State>, log: seq<Event>, i: nat, j: nat)
    requires IsRun(states, log) && i <= j <= |log| && states[i].phase.Over?
    requires forall h :: i <= h < j ==> IsQuiet(log[h])
    ensures states[j].phase == states[i].phase && SameSession(states[i], states[j])
  {
    if i < j {
      StaysOver(states, log, i, j - 1);
      assert StepAt(states, log, j - 1);
      OverStep(states[j - 1], log[j - 1], states[j]);
    }
  }

  /**
    In every run the next thing the reconnect loop does after the end of a session is what the ending calls
    for: it resumes when the server asks for it, gives the session up when it is void, waits when the
    connection broke, and stops only when it is cancelled or the server closes with a fatal code.
   */
  lemma EndingIsHeeded(states: seq<State>, log: seq<Event>, i: nat, j: nat)
    requires IsRun(states, log) && i < j < |log| && EndsSession(log[i]) && !IsQuiet(log[j])
    requires forall h :: i < h < j ==> IsQuiet(log[h])
    ensures Follows(log[i], log[j])
    ensures AsksToResume(log[i]) ==> SameSession(states[i], states[j + 1])
  {
    assert StepAt(states, log, i) && StepAt(states, log, j);
    EndStep(states[i], log[i], states[i + 1]);
    StaysOver(states, log, i + 1, j);
    OverStep(states[j], log[j], states[j + 1]);
  }

  // --- Resuming ---

  /** On the way from one session to the next, with the session not given up. */
  predicate OnTheWay(phase: Phase) {
    !phase.Live? && !phase.Handling? && phase != Over(Ended(Reconnect))
  }

  lemma WayStep(s: State, e: Event, t: State)
    requires Gateway.Follows(s, e, t) && OnTheWay(s.phase) && !IsHandshake(e)
    ensures OnTheWay(t.phase) && SameSession(s, t)
  {
    if BeatFollows(s, e, t) {
      BeatIsQuiet(s, e, t);
    } else if ConnectFollows(s, e, t) {
      WayConnect(s, e, t);
    }
  }

  lemma WayConnect(s: State, e: Event, t: State)
    requires ConnectFollows(s, e, t) && OnTheWay(s.phase) && !IsHandshake(e)
    ensures OnTheWay(t.phase) && SameSession(s, t)
  {
  }

  lemma {:induction false} StaysOnTheWay(states: seq<State>, log: seq<Event>, i: nat, j: nat)
    requires IsRun(states, log) && i <= j <= |log| && OnTheWay(states[i].phase)
    requires forall h :: i <= h < j ==> !IsHandshake(log[h])
    ensures OnTheWay(states[j].phase) && SameSession(states[i], states[j])
  {
    if i < j {
      StaysOnTheWay(states, log, i, j - 1);
      assert StepAt(states, log, j - 1);
      WayStep(states[j - 1], log[j - 1], states[j]);
    }
  }

  lemma HandshakeStep(s: State, e: Event, t: State)
    requires Gateway.Follows(s, e, t) && IsHandshake(e)
    ensures e == if s.sessionId != "" && s.sequence.Some? then Resumed(s.sessionId, s.sequence.value) else Identified
  {
    if BeatFollows(s, e, t) {
      BeatIsQuiet(s, e, t);
    } else if SessionFollows(s, e, t) {
    } else if ConnectFollows(s, e, t) {
    }
  }

  /** When the server has asked for it, the next handshake resumes the session with its latest number, if known. */
  lemma NextHandshakeResumes(states: seq<State>, log: seq<Event>, i: nat, j: nat)
    requires IsRun(states, log) && i < j < |log| && AsksToResume(log[i]) && IsHandshake(log[j])
    requires forall h :: i < h < j ==> !IsHandshake(log[h])
    ensures var session, number := SessionOf(log[..i]), SequenceOf(log[..i]);
            log[j] == if session != "" && number.Some? then Resumed(session, number.value) else Identified
  {
    assert StepAt(states, log, i) && StepAt(states, log, j);
    EndStep(states[i], log[i], states[i + 1]);
    StaysOnTheWay(states, log, i + 1, j);
    HandshakeStep(states[j], log[j], states[j + 1]);
    StateIsHistory(states, log, i);
  }

  /** And it can: a dial that succeeds and a greeting lead to it. */
  lemma ResumptionIsReachable(states: seq<State>, log: seq<Event>, url: string, hello: Frame)
    returns (more: seq<State>, now: seq<Event>)
    requires IsRun(states, log) && states[|log|].phase == Over(Ended(Resume)) && hello.op == HELLO
    requires states[|log|].sessionId != "" && states[|log|].sequence.Some?
    ensures IsRun(more, now) && more[|now|].phase.Live?
    ensures var s := states[|log|];
            now == log + [Left(Resume)] + [Silent] + [Dialed(if s.resumeUrl != "" then s.resumeUrl else url)] + [Silent]
                   + [Resumed(s.sessionId, s.sequence.value)]
  {
    more, now := MoveOn(states, log, Settle);
    more, now := MoveOn(more, now, Fetch(Some(url)));
    more, now := MoveOn(more, now, Dial(true));
    more, now := MoveOn(more, now, Greet(Received(hello)));
    more, now := MoveOn(more, now, Handshake(true));
  }

  // --- Stopping ---

  lemma StopStep(s: State, e: Event, t: State)
    requires Gateway.Follows(s, e, t) && Final(t.phase) && !Final(s.phase)
    ensures StopsForGood(e) || e == Quit
  {
    if BeatFollows(s, e, t) {
      BeatIsQuiet(s, e, t);
    } else if SessionFollows(s, e, t) {
      StopSession(s, e, t);
    } else if ConnectFollows(s, e, t) {
      ConnectDoesNotStop(s, e, t);
    }
  }

  lemma ConnectDoesNotStop(s: State, e: Event, t: State)
    requires ConnectFollows(s, e, t) && Final(t.phase)
    ensures Final(s.phase)
  {
  }

  lemma StopSession(s: State, e: Event, t: State)
    requires SessionFollows(s, e, t) && Final(t.phase) && !Final(s.phase)
    ensures StopsForGood(e)
  {
  }

  /** The client never stops without a cause: it has been cancelled, or the server closed with a fatal code. */
  lemma {:induction false} StopHasCause(states: seq<State>, log: seq<Event>, i: nat) returns (j: nat)
    requires IsRun(states, log) && i <= |log| && Final(states[i].phase)
    ensures j < i && (StopsForGood(log[j]) || log[j] == Quit)
  {
    assert StepAt(states, log, i - 1);
    if Final(states[i - 1].phase) {
      j := StopHasCause(states, log, i - 1);
    } else {
      j := i - 1;
      StopStep(states[j], log[j], states[i]);
    }
  }

  function Distance(phase: Phase): nat {
    match phase
    case Handling(_) => 6
    case Over(_) => 5
    case Idle => 4
    case Dialing(_) => 3
    case Greeting => 2
    case Greeted => 1
    case Live => 0
    case Stopped => 0
  }

  function MoveTowardsLive(phase: Phase, url: string, hello: Frame): Move {
    match phase
    case Handling(_) => Handle
    case Over(_) => Settle
    case Idle => Fetch(Some(url))
    case Dialing(_) => Dial(true)
    case Greeting => Greet(Received(hello))
    case _ => Handshake(true)
  }

  /** And as long as it has not stopped it can come back: whatever happened, there is a way to a live session. */
  lemma {:induction false} ComesBack(states: seq<State>, log: seq<Event>, url: string, hello: Frame)
    returns (more: seq<State>, now: seq<Event>)
    requires IsRun(states, log) && !Final(states[|log|].phase) && hello.op == HELLO
    ensures IsRun(more, now) && log <= now && more[|now|].phase.Live?
    decreases Distance(states[|log|].phase)
  {
    if states[|log|].phase.Live? {
      more, now := states, log;
    } else {
      more, now := MoveOn(states, log, MoveTowardsLive(states[|log|].phase, url, hello));
      more, now := ComesBack(more, now, url, hello);
    }
  }

  // --- Where it connects ---

  /** A connection under way goes to the resume URL, if there is one. */
  predicate Heads(s: State) {
    s.phase.Dialing? && s.resumeUrl != "" ==> s.phase.url == s.resumeUrl
  }

  /** The URL of the latest READY, unless the session has been given up since. */
  function ResumeUrlAfter(known: string, e: Event): string {
    if e.Handled? && e.frame.op == 0 && e.frame.event == READY then e.frame.resumeUrl
    else if e == Left(Reconnect) then ""
    else known
  }

  function ResumeUrlOf(log: seq<Event>): string {
    if log == [] then "" else ResumeUrlAfter(ResumeUrlOf(log[..|log| - 1]), log[|log| - 1])
  }

  lemma HeadsStep(s: State, e: Event, t: State)
    requires Gateway.Follows(s, e, t) && Heads(s)
    ensures Heads(t) && t.resumeUrl == ResumeUrlAfter(s.resumeUrl, e)
    ensures e.Dialed? && s.resumeUrl != "" ==> e.url == s.resumeUrl
  {
    if BeatFollows(s, e, t) {
      BeatIsQuiet(s, e, t);
    } else if ConnectFollows(s, e, t) {
      HeadsConnect(s, e, t);
    } else if SessionFollows(s, e, t) {
      HeadsSession(s, e, t);
    }
  }

  lemma HeadsConnect(s: State, e: Event, t: State)
    requires ConnectFollows(s, e, t) && Heads(s)
    ensures Heads(t) && t.resumeUrl == ResumeUrlAfter(s.resumeUrl, e)
    ensures e.Dialed? && s.resumeUrl != "" ==> e.url == s.resumeUrl
  {
  }

  lemma HeadsSession(s: State, e: Event, t: State)
    requires SessionFollows(s, e, t) && Heads(s)
    ensures Heads(t) && t.resumeUrl == ResumeUrlAfter(s.resumeUrl, e) && !e.Dialed?
  {
  }

  lemma {:induction false} AlwaysHeads(states: seq<State>, log: seq<Event>, i: nat)
    requires IsRun(states, log) && i <= |log|
    ensures Heads(states[i]) && states[i].resumeUrl == ResumeUrlOf(log[..i])
  {
    if i > 0 {
      AlwaysHeads(states, log, i - 1);
      assert StepAt(states, log, i - 1);
      HeadsStep(states[i - 1], log[i - 1], states[i]);
      assert log[..i][..i - 1] == log[..i - 1];
    }
  }

  /** A session that can be resumed is resumed where its READY said. */
  lemma DialsTheResumeUrl(states: seq<State>, log: seq<Event>, i: nat)
    requires IsRun(states, log) && i < |log| && log[i].Dialed?
    ensures ResumeUrlOf(log[..i]) != "" ==> log[i].url == ResumeUrlOf(log[..i])
  {
    AlwaysHeads(states, log, i);
    assert StepAt(states, log, i);
    HeadsStep(states[i], log[i], states[i + 1]);
  }

  // --- What frames do ---

  /** What acting on a frame leaves behind, by the numbers of the protocol. */
  predicate Heeds(s: State, f: Frame, t: State) {
    && (f.op == 0 && f.event == READY ==> t.sessionId == f.sessionId && t.resumeUrl == f.resumeUrl)
    && (t.buffer ==
        s.buffer + if f.op == 0 && f.event == MESSAGE_CREATE && f.message.Some? then [f.message.value] else [])
    && (t.acked <==> s.acked || f.op == 11)
    && (f.op != 7 && f.op != 9 ==> t.phase.Live?)
  }

  lemma HeedStep(s: State, e: Event, t: State)
    requires Gateway.Follows(s, e, t) && e.Handled?
    ensures Heeds(s, e.frame, t)
  {
    if BeatFollows(s, e, t) {
      BeatIsQuiet(s, e, t);
    } else if SessionFollows(s, e, t) {
    } else if ConnectFollows(s, e, t) {
    }
  }

  /** Every READY is remembered, every message buffered, every acknowledgement noted, and the session goes on. */
  lemma FramesAreHeeded(states: seq<State>, log: seq<Event>, i: nat)
    requires IsRun(states, log) && i < |log| && log[i].Handled?
    ensures Heeds(states[i], log[i].frame, states[i + 1])
  {
    assert StepAt(states, log, i);
    HeedStep(states[i], log[i], states[i + 1]);
  }

  // --- Heartbeats and waits ---

  /** A greeting sets the interval it names, or the default, and starts a goroutine for its session. */
  lemma GreetingStartsHeartbeats(s: State, hello: Frame)
    requires s.phase.Greeting? && hello.op == 10
    ensures var t := Step(s, Greet(Received(hello))).0;
            && t.interval == (if hello.interval > 0 then hello.interval else 41250)
            && t.acked && t.phase.Greeted? && t.beats == s.beats[s.session := Waiting]
  {
  }

  /** As long as its last heartbeat is acknowledged, a goroutine sends the next one; otherwise it is gone. */
  lemma HeartbeatGoesOn(states: seq<State>, log: seq<Event>) returns (more: seq<State>, now: seq<Event>)
    requires IsRun(states, log)
    requires var s := states[|log|]; s.phase.Live? && s.session in s.beats && s.beats[s.session] == Waiting
    ensures IsRun(more, now) && log <= now
    ensures var s := states[|log|];
            && s.session in more[|now|].beats
            && (if s.acked then
                  now[|now| - 1] == TimerBeat(s.session, s.sequence) && more[|now|].beats[s.session] == Waiting
                else more[|now|].beats[s.session] == Gone)
  {
    var s := states[|log|];
    var k := s.session;
    more, now := MoveOn(states, log, BeatCheck(k));
    if s.acked {
      more, now := MoveOn(more, now, BeatClear(k));
      more, now := MoveOn(more, now, BeatRead(k));
      more, now := MoveOn(more, now, BeatSend(k, true));
    }
  }

  /** The waits in a row: 1, 2, 4, 8, 16 and 32 seconds, then a minute each. */
  lemma WaitsAre(failures: nat)
    ensures Delay(0) == 1 && Delay(1) == 2 && Delay(2) == 4 && Delay(3) == 8 && Delay(4) == 16 && Delay(5) == 32
    ensures failures >= 6 ==> Delay(failures) == 60
  {
    assert Pow2(4) == 16 && Pow2(5) == 32 && Pow2(6) == 64;
    if failures >= 6 {
      Pow2Grows(6, failures);
    }
  }

  lemma {:induction false} Pow2Grows(a: nat, b: nat)
    requires a <= b
    ensures Pow2(a) <= Pow2(b)
  {
    if a < b {
      Pow2Grows(a, b - 1);
    }
  }
}
