/**
  The delivery queue as a step system over values: what each queue operation does to the pending,
  in-flight, delivered and dead-lettered items and to the persisted rows, and what every run of
  those operations, crashes included, keeps.
 */
module DeliveryModel {
  import opened DeliveryHeap
  import opened Text

  type Id = string

  const SECOND := 1_000_000_000
  const MINUTE := 60 * SECOND

  /** The retry delay after the given number of attempts, in nanoseconds. */
  function BackoffDelay(attempt: int): (d: int) {
    if attempt == 0 then 0
    else if attempt == 1 then 1 * SECOND
    else if attempt == 2 then 5 * SECOND
    else if attempt == 3 then 30 * SECOND
    else if attempt == 4 then 5 * MINUTE
    else 15 * MINUTE
  }

  /** A time survives formatting at whole-second precision only up to its second. */
  function FloorSecond(t: int): (f: int)
    ensures f <= t < f + SECOND
    ensures f % SECOND == 0
  {
    t / SECOND * SECOND
  }

  lemma FloorSecondMonotone(a: int, b: int)
    requires a <= b
    ensures FloorSecond(a) <= FloorSecond(b) && FloorSecond(FloorSecond(a)) == FloorSecond(a)
  {
  }

  const PERMANENT_ERRORS: seq<string> := [
    "403 forbidden", "401 unauthorized", "400 bad request",
    "blocked by the user", "bot was blocked", "chat not found",
    "user is deactivated", "bot was kicked", "peer_id_invalid"
  ]

  predicate ContainsAny(s: string, patterns: seq<string>) {
    exists i :: 0 <= i < |patterns| && Contains(s, patterns[i])
  }

  predicate IsPermanentError(message: string) {
    ContainsAny(ToLower(message), PERMANENT_ERRORS)
  }

  datatype Payload = Payload(channel: string, recipientId: string, content: string)

  /** Where an accepted item is; `Archived` items were dead-lettered in an earlier process life. */
  datatype Phase = Waiting | Sending | Done | Dead | Archived

  /**
    An accepted item. `sends`, `lost`, `sentAt` and `early` are bookkeeping since it was accepted or last
    replayed: how often it was dispatched, how often a crash hit it in flight, when it was last dispatched
    (unless a crash hit it then), and whether its retry time has been read back from its row since.
   */
  datatype Entry = Entry(phase: Phase, payload: Payload, key: string, attempts: int, maxAttempts: int,
                         nextRetryAt: int, lastError: string,
                         sends: nat, lost: nat, sentAt: Option<int>, early: bool)

  datatype Row = Row(payload: Payload, maxAttempts: int, status: Status,
                     attempts: int, nextRetryAt: int, lastError: string)

  datatype State = State(persistent: bool, clock: int, items: map<Id, Entry>, store: map<Id, Row>)

  datatype Op =
    | Enqueue(id: Id, payload: Payload, key: string, maxAttempts: int, now: int)
    | Drain(now: int)
    | Deliver(id: Id)
    | Fail(id: Id, error: string, now: int)
    | Replay(id: Id, now: int)
    | Crash

  function Init(persistent: bool, clock: int): State {
    State(persistent, clock, map[], map[])
  }

  predicate Is(s: State, id: Id, phase: Phase) {
    id in s.items && s.items[id].phase == phase
  }

  // --- Operations ---

  function NewEntry(payload: Payload, key: string, maxAttempts: int, now: int): Entry {
    Entry(Waiting, payload, key, 0, maxAttempts, now, "", 0, 0, None, false)
  }

  function NewRow(e: Entry): Row {
    Row(e.payload, e.maxAttempts, StatusOf(e.phase), e.attempts, FloorSecond(e.nextRetryAt), e.lastError)
  }

  function StatusOf(phase: Phase): Status {
    match phase
    case Waiting => Pending
    case Sending => InFlight
    case Done => Delivered
    case Dead => DeadLetter
    case Archived => DeadLetter
  }

  /** Writes the mutable columns of an existing row, as the status update does. */
  function Updated(s: State, id: Id, e: Entry): map<Id, Row> {
    if s.persistent && id in s.store then
      s.store[id := s.store[id].(status := StatusOf(e.phase), attempts := e.attempts,
                                 nextRetryAt := FloorSecond(e.nextRetryAt), lastError := e.lastError)]
    else s.store
  }

  function Saved(s: State, id: Id, e: Entry): State {
    s.(items := s.items[id := e], store := Updated(s, id, e))
  }

  predicate KeyPending(s: State, key: string) {
    key != "" && exists id :: id in s.items && s.items[id].phase == Waiting && s.items[id].key == key
  }

  function StepEnqueue(s: State, id: Id, payload: Payload, key: string, maxAttempts: int, now: int): State {
    if KeyPending(s, key) then s.(clock := now)
    else
      var e := NewEntry(payload, key, maxAttempts, now);
      s.(clock := now, items := s.items[id := e], store := if s.persistent then s.store[id := NewRow(e)] else s.store)
  }

  predicate IsDue(e: Entry, now: int) {
    e.phase == Waiting && e.nextRetryAt <= now
  }

  function Dispatched(e: Entry, now: int): Entry {
    if IsDue(e, now) then e.(phase := Sending, sends := e.sends + 1, sentAt := Some(now), early := false) else e
  }

  /** Dispatches every due item; the rows are left alone. */
  function StepDrain(s: State, now: int): State {
    s.(clock := now, items := map id | id in s.items :: Dispatched(s.items[id], now))
  }

  function StepDeliver(s: State, id: Id): State
    requires Is(s, id, Sending)
  {
    Saved(s, id, s.items[id].(phase := Done))
  }

  predicate GivesUp(e: Entry, error: string) {
    IsPermanentError(error) || e.attempts + 1 >= e.maxAttempts
  }

  function AfterFailure(e: Entry, error: string, now: int): Entry {
    var failed := e.(attempts := e.attempts + 1, lastError := error);
    if GivesUp(e, error) then failed.(phase := Dead)
    else failed.(phase := Waiting, early := false, nextRetryAt := now + BackoffDelay(failed.attempts))
  }

  function StepFail(s: State, id: Id, error: string, now: int): State
    requires Is(s, id, Sending)
  {
    Saved(s.(clock := now), id, AfterFailure(s.items[id], error, now))
  }

  function Revived(e: Entry, now: int): Entry {
    e.(phase := Waiting, attempts := 0, nextRetryAt := now, lastError := "", sends := 0, lost := 0, sentAt := None,
       early := false)
  }

  predicate DeadInStore(s: State, id: Id) {
    s.persistent && id in s.store && s.store[id].status == DeadLetter
  }

  /** Replays from memory when the process holds the item, otherwise from its row. */
  function StepReplay(s: State, id: Id, now: int): State {
    if Is(s, id, Dead) then
      Saved(s.(clock := now), id, Revived(s.items[id], now))
    else if DeadInStore(s, id) then
      Saved(s.(clock := now), id, NewEntry(s.store[id].payload, "", s.store[id].maxAttempts, now))
    else s.(clock := now)
  }

  /** The rows a restarted process reads back. */
  function Live(store: map<Id, Row>): set<Id> {
    set id | id in store && store[id].status in {Pending, InFlight}
  }

  function Recovered(row: Row, sends: nat, lost: nat, sentAt: Option<int>): Entry {
    Entry(Waiting, row.payload, "", row.attempts, row.maxAttempts, row.nextRetryAt, row.lastError, sends, lost,
          sentAt, true)
  }

  /** An item read back from a row; the bookkeeping is its own. */
  predicate IsRecovered(e: Entry, row: Row) {
    e == Recovered(row, e.sends, e.lost, e.sentAt)
  }

  function Resumed(s: State, id: Id): Entry
    requires id in s.store
  {
    if !(id in s.items) then Recovered(s.store[id], 0, 0, None)
    else
      var e := s.items[id];
      if e.phase == Sending then Recovered(s.store[id], e.sends, e.lost + 1, None)
      else Recovered(s.store[id], e.sends, e.lost, e.sentAt)
  }

  function Settled(s: State): set<Id> {
    set id | id in s.items && s.items[id].phase in {Done, Dead, Archived}
  }

  /** A crash forgets everything but the store; the next process rebuilds its queue from the live rows. */
  function StepCrash(s: State): State {
    s.(items := map id | id in Live(s.store) + Settled(s) ::
         if id in Live(s.store) then Resumed(s, id)
         else if s.items[id].phase == Dead then s.items[id].(phase := Archived)
         else s.items[id])
  }

  // --- Runs ---

  const RECOVERY_LIMIT := 2000

  /** What callers owe: fresh ids, outcomes only for dispatched items, a clock that never runs back. */
  predicate Enabled(s: State, op: Op) {
    match op
    case Enqueue(id, _, _, _, now) => id !in s.items && s.clock <= now
    case Drain(now) => s.clock <= now
    case Deliver(id) => Is(s, id, Sending)
    case Fail(id, _, now) => Is(s, id, Sending) && s.clock <= now
    case Replay(_, now) => s.clock <= now
    case Crash => s.persistent && |Live(s.store)| <= RECOVERY_LIMIT
  }

  function Step(s: State, op: Op): State
    requires Enabled(s, op)
  {
    match op
    case Enqueue(id, payload, key, maxAttempts, now) => StepEnqueue(s, id, payload, key, maxAttempts, now)
    case Drain(now) => StepDrain(s, now)
    case Deliver(id) => StepDeliver(s, id)
    case Fail(id, error, now) => StepFail(s, id, error, now)
    case Replay(id, now) => StepReplay(s, id, now)
    case Crash => StepCrash(s)
  }

  predicate Legal(s: State, ops: seq<Op>)
    decreases |ops|
  {
    ops == [] || (Enabled(s, ops[0]) && Legal(Step(s, ops[0]), ops[1..]))
  }

  function Exec(s: State, ops: seq<Op>): State
    requires Legal(s, ops)
    decreases |ops|
  {
    if ops == [] then s else Exec(Step(s, ops[0]), ops[1..])
  }

  lemma {:induction false} ExecAppend(s: State, ops: seq<Op>, op: Op)
    requires Legal(s, ops) && Enabled(Exec(s, ops), op)
    ensures Legal(s, ops + [op]) && Exec(s, ops + [op]) == Step(Exec(s, ops), op)
    decreases |ops|
  {
    assert (ops + [op])[1..] == if ops == [] then [] else ops[1..] + [op];
    if ops != [] {
      ExecAppend(Step(s, ops[0]), ops[1..], op);
    }
  }

  // --- The invariant ---

  /**
    The earliest a waiting item is due again; a retry time read back from its row has lost its fraction
    of a second.
   */
  function RetryFloor(e: Entry): int
    requires e.sentAt.Some?
  {
    var due := e.sentAt.value + BackoffDelay(e.attempts);
    if e.early then FloorSecond(due) else due
  }

  /** The dispatch account: every dispatch is a recorded attempt, the current one, or one a crash lost. */
  ghost predicate EntryOk(e: Entry, clock: int) {
    match e.phase
    case Waiting =>
      && (e.attempts == 0 || 0 < e.attempts < e.maxAttempts) && e.sends == e.attempts + e.lost
      && (e.sentAt.Some? ==> 0 < e.attempts && RetryFloor(e) <= e.nextRetryAt)
    case Sending =>
      && (e.attempts == 0 || 0 < e.attempts < e.maxAttempts) && e.sends == e.attempts + 1 + e.lost
      && e.sentAt.Some? && e.sentAt.value <= clock
    case Done => (e.attempts == 0 || 0 < e.attempts < e.maxAttempts) && e.sends == e.attempts + 1 + e.lost
    case _ => 0 < e.attempts <= Max(1, e.maxAttempts) && e.sends == e.attempts + e.lost
  }

  /** The row shadows the item; dispatching an item leaves its row pending. */
  ghost predicate RowOk(row: Row, e: Entry) {
    && row.status == (if e.phase == Sending then Pending else StatusOf(e.phase))
    && row.payload == e.payload && row.maxAttempts == e.maxAttempts && row.attempts == e.attempts
    && row.nextRetryAt == FloorSecond(e.nextRetryAt) && row.lastError == e.lastError
  }

  ghost predicate Inv(s: State) {
    && (forall id :: id in s.items ==> EntryOk(s.items[id], s.clock))
    && (if s.persistent then
          s.store.Keys == s.items.Keys && forall id :: id in s.items ==> RowOk(s.store[id], s.items[id])
        else
          s.store == map[] && forall id :: id in s.items ==> s.items[id].phase != Archived)
  }

  lemma SavedKeepsInv(s: State, id: Id, e: Entry)
    requires Inv(s) && id in s.items && EntryOk(e, s.clock) && e.phase != Sending
    requires s.persistent || e.phase != Archived
    requires e.payload == s.items[id].payload && e.maxAttempts == s.items[id].maxAttempts
    ensures Inv(Saved(s, id, e))
  {
  }

  lemma TickKeepsInv(s: State, now: int)
    requires Inv(s) && s.clock <= now
    ensures Inv(s.(clock := now))
  {
  }

  lemma EnqueueKeepsInv(s: State, id: Id, payload: Payload, key: string, maxAttempts: int, now: int)
    requires Inv(s) && id !in s.items && s.clock <= now
    ensures Inv(StepEnqueue(s, id, payload, key, maxAttempts, now))
  {
  }

  lemma DrainKeepsInv(s: State, now: int)
    requires Inv(s) && s.clock <= now
    ensures Inv(StepDrain(s, now))
  {
  }

  lemma FailKeepsInv(s: State, id: Id, error: string, now: int)
    requires Inv(s) && Is(s, id, Sending) && s.clock <= now
    ensures Inv(StepFail(s, id, error, now))
  {
    TickKeepsInv(s, now);
    SavedKeepsInv(s.(clock := now), id, AfterFailure(s.items[id], error, now));
  }

  lemma ReplayKeepsInv(s: State, id: Id, now: int)
    requires Inv(s) && s.clock <= now
    ensures Inv(StepReplay(s, id, now))
  {
    TickKeepsInv(s, now);
    if Is(s, id, Dead) {
      SavedKeepsInv(s.(clock := now), id, Revived(s.items[id], now));
    } else if DeadInStore(s, id) {
      SavedKeepsInv(s.(clock := now), id, NewEntry(s.store[id].payload, "", s.store[id].maxAttempts, now));
    }
  }

  lemma ResumedIsOk(s: State, id: Id)
    requires id in s.items && id in s.store && EntryOk(s.items[id], s.clock) && RowOk(s.store[id], s.items[id])
    requires s.items[id].phase == Waiting || s.items[id].phase == Sending
    ensures EntryOk(Resumed(s, id), s.clock) && RowOk(s.store[id], Resumed(s, id))
  {
    var e := s.items[id];
    if e.sentAt.Some? && e.phase == Waiting {
      FloorSecondMonotone(e.sentAt.value + BackoffDelay(e.attempts), e.sentAt.value + BackoffDelay(e.attempts));
      FloorSecondMonotone(RetryFloor(e), e.nextRetryAt);
    }
    FloorSecondMonotone(e.nextRetryAt, e.nextRetryAt);
  }

  /** What a crash makes of one item. */
  lemma CrashedIsOk(s: State, id: Id)
    requires Inv(s) && s.persistent && id in s.items
    ensures id in StepCrash(s).items
    ensures EntryOk(StepCrash(s).items[id], s.clock) && RowOk(s.store[id], StepCrash(s).items[id])
  {
    assert RowOk(s.store[id], s.items[id]) && EntryOk(s.items[id], s.clock);
    if s.items[id].phase == Waiting || s.items[id].phase == Sending {
      ResumedIsOk(s, id);
    }
  }

  lemma CrashKeepsInv(s: State)
    requires Inv(s) && s.persistent
    ensures Inv(StepCrash(s))
    ensures StepCrash(s).items.Keys == s.items.Keys
  {
    forall id | id in s.items
      ensures id in StepCrash(s).items
      ensures EntryOk(StepCrash(s).items[id], s.clock) && RowOk(s.store[id], StepCrash(s).items[id])
    {
      CrashedIsOk(s, id);
    }
  }

  lemma StepKeepsInv(s: State, op: Op)
    requires Inv(s) && Enabled(s, op)
    ensures Inv(Step(s, op))
  {
    match op
    case Enqueue(id, payload, key, maxAttempts, now) => EnqueueKeepsInv(s, id, payload, key, maxAttempts, now);
    case Drain(now) => DrainKeepsInv(s, now);
    case Deliver(id) => SavedKeepsInv(s, id, s.items[id].(phase := Done));
    case Fail(id, error, now) => FailKeepsInv(s, id, error, now);
    case Replay(id, now) => ReplayKeepsInv(s, id, now);
    case Crash => CrashKeepsInv(s);
  }

  lemma {:induction false} RunKeepsInv(s: State, ops: seq<Op>)
    requires Inv(s) && Legal(s, ops)
    ensures Inv(Exec(s, ops))
    decreases |ops|
  {
    if ops != [] {
      StepKeepsInv(s, ops[0]);
      RunKeepsInv(Step(s, ops[0]), ops[1..]);
    }
  }

  // --- What every run keeps ---

  /** An enqueue is accepted unless a pending item with the same idempotency key swallows it. */
  function Accepts(s: State, op: Op): set<Id> {
    if op.Enqueue? && !KeyPending(s, op.key) then {op.id} else {}
  }

  function AcceptedIn(s: State, ops: seq<Op>): set<Id>
    requires Legal(s, ops)
    decreases |ops|
  {
    if ops == [] then {} else Accepts(s, ops[0]) + AcceptedIn(Step(s, ops[0]), ops[1..])
  }

  lemma StepKeepsIds(s: State, op: Op)
    requires Inv(s) && Enabled(s, op)
    ensures Step(s, op).items.Keys == s.items.Keys + Accepts(s, op)
  {
    match op
    case Enqueue(_, _, _, _, _) =>
    case Drain(_) =>
    case Deliver(_) =>
    case Fail(_, _, _) =>
    case Replay(_, _) =>
    case Crash => CrashKeepsInv(s);
  }

  /** No run loses an accepted item or invents one. */
  lemma {:induction false} Conservation(s: State, ops: seq<Op>)
    requires Inv(s) && Legal(s, ops)
    ensures Exec(s, ops).items.Keys == s.items.Keys + AcceptedIn(s, ops)
    decreases |ops|
  {
    if ops != [] {
      StepKeepsInv(s, ops[0]);
      StepKeepsIds(s, ops[0]);
      Conservation(Step(s, ops[0]), ops[1..]);
    }
  }

  predicate Dispatches(s: State, op: Op, id: Id) {
    op.Drain? && id in s.items && IsDue(s.items[id], op.now)
  }

  function DispatchCount(s: State, ops: seq<Op>, id: Id): nat
    requires Legal(s, ops)
    decreases |ops|
  {
    if ops == [] then 0
    else (if Dispatches(s, ops[0], id) then 1 else 0) + DispatchCount(Step(s, ops[0]), ops[1..], id)
  }

  /** How many crashes of the run caught the item in flight. */
  function LossCount(s: State, ops: seq<Op>, id: Id): nat
    requires Legal(s, ops)
    decreases |ops|
  {
    if ops == [] then 0
    else (if ops[0] == Crash && Is(s, id, Sending) then 1 else 0) + LossCount(Step(s, ops[0]), ops[1..], id)
  }

  predicate Replays(op: Op, id: Id) {
    op.Replay? && op.id == id
  }

  /** What a step adds to an item's account. */
  ghost predicate Accounted(s: State, op: Op, t: State, id: Id)
    requires id in s.items
  {
    && id in t.items && t.items[id].maxAttempts == s.items[id].maxAttempts
    && t.items[id].sends == s.items[id].sends + (if Dispatches(s, op, id) then 1 else 0)
    && t.items[id].lost == s.items[id].lost + (if op == Crash && Is(s, id, Sending) then 1 else 0)
  }

  lemma CrashAccount(s: State, id: Id)
    requires Inv(s) && s.persistent && id in s.items
    ensures Accounted(s, Crash, StepCrash(s), id)
  {
    assert RowOk(s.store[id], s.items[id]) && EntryOk(s.items[id], s.clock);
  }

  lemma StepAccount(s: State, op: Op, id: Id)
    requires Inv(s) && Enabled(s, op) && id in s.items && !Replays(op, id)
    ensures Accounted(s, op, Step(s, op), id)
  {
    if op == Crash {
      CrashAccount(s, id);
    }
  }

  lemma {:induction false} RunAccount(s: State, ops: seq<Op>, id: Id)
    requires Inv(s) && Legal(s, ops) && id in s.items
    requires forall i :: 0 <= i < |ops| ==> !Replays(ops[i], id)
    ensures id in Exec(s, ops).items
    ensures Exec(s, ops).items[id].maxAttempts == s.items[id].maxAttempts
    ensures Exec(s, ops).items[id].sends == s.items[id].sends + DispatchCount(s, ops, id)
    ensures Exec(s, ops).items[id].lost == s.items[id].lost + LossCount(s, ops, id)
    decreases |ops|
  {
    if ops != [] {
      StepKeepsInv(s, ops[0]);
      StepAccount(s, ops[0], id);
      RunAccount(Step(s, ops[0]), ops[1..], id);
    }
  }

  /**
    Between replays an item that has not been dispatched yet is dispatched at most
    max(1, maxAttempts) times, plus once for every crash that caught it in flight.
   */
  lemma DispatchBound(s: State, ops: seq<Op>, id: Id)
    requires Inv(s) && Legal(s, ops) && id in s.items
    requires forall i :: 0 <= i < |ops| ==> !Replays(ops[i], id)
    requires s.items[id].sends == 0
    ensures DispatchCount(s, ops, id) <= Max(1, s.items[id].maxAttempts) + LossCount(s, ops, id)
  {
    RunKeepsInv(s, ops);
    RunAccount(s, ops, id);
  }

  predicate Over(phase: Phase) {
    phase in {Done, Dead, Archived}
  }

  ghost predicate StaysOver(s: State, t: State, id: Id)
    requires id in s.items
  {
    id in t.items && Over(t.items[id].phase) && (t.items[id].phase == Done <==> s.items[id].phase == Done)
  }

  lemma CrashKeepsOver(s: State, id: Id)
    requires Inv(s) && s.persistent && id in s.items && Over(s.items[id].phase)
    ensures StaysOver(s, StepCrash(s), id)
  {
    assert RowOk(s.store[id], s.items[id]);
  }

  lemma ReplayKeepsOver(s: State, id: Id, other: Id, now: int)
    requires Inv(s) && id in s.items && Over(s.items[id].phase) && (s.items[id].phase == Done || id != other)
    ensures StaysOver(s, StepReplay(s, other, now), id)
  {
    if s.persistent {
      assert RowOk(s.store[id], s.items[id]);
    }
  }

  lemma StepKeepsOver(s: State, op: Op, id: Id)
    requires Inv(s) && Enabled(s, op) && id in s.items && Over(s.items[id].phase)
    requires s.items[id].phase == Done || !Replays(op, id)
    ensures StaysOver(s, Step(s, op), id)
  {
    if op == Crash {
      CrashKeepsOver(s, id);
    } else if op.Replay? {
      ReplayKeepsOver(s, id, op.id, op.now);
    }
  }

  /**
    A delivered item is never dispatched again, whatever happens; a dead-lettered one is not
    dispatched again until it is replayed, not even across crashes.
   */
  lemma {:induction false} OverIsOver(s: State, ops: seq<Op>, id: Id)
    requires Inv(s) && Legal(s, ops) && id in s.items && Over(s.items[id].phase)
    requires s.items[id].phase == Done || forall i :: 0 <= i < |ops| ==> !Replays(ops[i], id)
    ensures id in Exec(s, ops).items && Over(Exec(s, ops).items[id].phase)
    ensures DispatchCount(s, ops, id) == 0
    decreases |ops|
  {
    if ops != [] {
      StepKeepsInv(s, ops[0]);
      StepKeepsOver(s, ops[0], id);
      OverIsOver(Step(s, ops[0]), ops[1..], id);
    }
  }

  /** A permanent error ends the deliveries of an item, however many attempts it had left. */
  lemma PermanentErrorIsFinal(s: State, id: Id, error: string, now: int, ops: seq<Op>)
    requires Inv(s) && Enabled(s, Fail(id, error, now)) && IsPermanentError(error)
    requires Legal(Step(s, Fail(id, error, now)), ops)
    requires forall i :: 0 <= i < |ops| ==> !Replays(ops[i], id)
    ensures DispatchCount(Step(s, Fail(id, error, now)), ops, id) == 0
    ensures !Is(Exec(Step(s, Fail(id, error, now)), ops), id, Waiting)
  {
    StepKeepsInv(s, Fail(id, error, now));
    OverIsOver(Step(s, Fail(id, error, now)), ops, id);
  }

  lemma StepKeepsLastDispatch(s: State, op: Op, id: Id)
    requires Inv(s) && Enabled(s, op) && id in s.items && !Replays(op, id)
    requires !Dispatches(s, op, id) && (op == Crash ==> !Is(s, id, Sending))
    ensures id in Step(s, op).items && Step(s, op).items[id].sentAt == s.items[id].sentAt
    ensures op != Crash && !s.items[id].early ==> !Step(s, op).items[id].early
  {
    match op
    case Enqueue(_, _, _, _, _) =>
    case Drain(_) =>
    case Deliver(_) =>
    case Fail(_, _, _) =>
    case Replay(_, _) =>
    case Crash => CrashedIsOk(s, id);
  }

  lemma {:induction false} LastDispatchRemembered(s: State, ops: seq<Op>, id: Id, sentAt: int)
    requires Inv(s) && Legal(s, ops) && id in s.items && s.items[id].sentAt == Some(sentAt)
    requires forall i :: 0 <= i < |ops| ==> !Replays(ops[i], id)
    requires DispatchCount(s, ops, id) == 0 && LossCount(s, ops, id) == 0
    ensures id in Exec(s, ops).items && Exec(s, ops).items[id].sentAt == Some(sentAt)
    ensures !s.items[id].early && Crash !in ops ==> !Exec(s, ops).items[id].early
    decreases |ops|
  {
    if ops != [] {
      StepKeepsInv(s, ops[0]);
      StepKeepsLastDispatch(s, ops[0], id);
      LastDispatchRemembered(Step(s, ops[0]), ops[1..], id, sentAt);
      assert ops == [ops[0]] + ops[1..];
    }
  }

  /**
    Two consecutive dispatches of an item, with no replay between and no crash that caught it in flight,
    are more than the backoff delay less one second apart, and at least the delay if there was no crash.
   */
  lemma DispatchesAreSpaced(s: State, first: int, ops: seq<Op>, second: int, id: Id)
    requires Inv(s) && Enabled(s, Drain(first)) && Dispatches(s, Drain(first), id)
    requires Legal(Step(s, Drain(first)), ops)
    requires DispatchCount(Step(s, Drain(first)), ops, id) == 0 && LossCount(Step(s, Drain(first)), ops, id) == 0
    requires forall i :: 0 <= i < |ops| ==> !Replays(ops[i], id)
    requires Dispatches(Exec(Step(s, Drain(first)), ops), Drain(second), id)
    ensures 0 < Exec(Step(s, Drain(first)), ops).items[id].attempts
    ensures var due := first + BackoffDelay(Exec(Step(s, Drain(first)), ops).items[id].attempts);
            due - SECOND < second && (Crash !in ops ==> due <= second)
  {
    var t := Step(s, Drain(first));
    StepKeepsInv(s, Drain(first));
    LastDispatchRemembered(t, ops, id, first);
    RunKeepsInv(t, ops);
    assert EntryOk(Exec(t, ops).items[id], Exec(t, ops).clock);
  }

  // --- Crash recovery ---

  /** What a restart makes of one item: waiting or in flight becomes waiting, a little early; the rest stays settled. */
  ghost predicate Restarted(s: State, t: State, id: Id) {
    && (Is(t, id, Waiting) <==> Is(s, id, Waiting) || Is(s, id, Sending))
    && !Is(t, id, Sending) && (Is(t, id, Done) <==> Is(s, id, Done))
    && (Is(t, id, Waiting) ==>
          var before, after := s.items[id], t.items[id];
          && before.payload == after.payload && before.maxAttempts == after.maxAttempts
          && before.attempts == after.attempts && before.lastError == after.lastError
          && before.nextRetryAt - SECOND < after.nextRetryAt <= before.nextRetryAt)
  }

  lemma CrashRestarts(s: State, id: Id)
    requires Inv(s) && s.persistent
    ensures Restarted(s, StepCrash(s), id)
  {
    CrashKeepsInv(s);
    if id in s.items {
      assert RowOk(s.store[id], s.items[id]) && EntryOk(s.items[id], s.clock);
    }
  }

  lemma InitKeepsInv(clock: int, ops: seq<Op>)
    requires Legal(Init(true, clock), ops)
    ensures Inv(Exec(Init(true, clock), ops)) && Exec(Init(true, clock), ops).persistent
  {
    RunKeepsInv(Init(true, clock), ops);
    StaysPersistent(Init(true, clock), ops);
  }

  lemma {:induction false} StaysPersistent(s: State, ops: seq<Op>)
    requires Legal(s, ops)
    ensures Exec(s, ops).persistent == s.persistent
    decreases |ops|
  {
    if ops != [] {
      StaysPersistent(Step(s, ops[0]), ops[1..]);
    }
  }

  /**
    After any run from an empty queue, earlier crashes included, a restart brings back exactly the items
    that were waiting or in flight, as they were, with retry times at most a second earlier; nothing
    delivered or dead-lettered comes back.
   */
  lemma CrashRefinement(clock: int, ops: seq<Op>, id: Id)
    requires Legal(Init(true, clock), ops + [Crash])
    ensures Legal(Init(true, clock), ops)
    ensures Restarted(Exec(Init(true, clock), ops), Exec(Init(true, clock), ops + [Crash]), id)
  {
    LegalPrefix(Init(true, clock), ops, Crash);
    ExecAppend(Init(true, clock), ops, Crash);
    InitKeepsInv(clock, ops);
    CrashRestarts(Exec(Init(true, clock), ops), id);
  }

  lemma {:induction false} LegalPrefix(s: State, ops: seq<Op>, op: Op)
    requires Legal(s, ops + [op])
    ensures Legal(s, ops) && Enabled(Exec(s, ops), op)
    decreases |ops|
  {
    if ops != [] {
      assert (ops + [op])[1..] == ops[1..] + [op];
      LegalPrefix(Step(s, ops[0]), ops[1..], op);
    }
  }

  /** After any run the store calls an item dead-lettered exactly when no part of the queue will send it. */
  lemma ReplayCannotDuplicate(clock: int, ops: seq<Op>, id: Id)
    requires Legal(Init(true, clock), ops)
    ensures var s := Exec(Init(true, clock), ops);
            && (DeadInStore(s, id) <==> Is(s, id, Dead) || Is(s, id, Archived))
            && (DeadInStore(s, id) ==> !Is(s, id, Waiting) && !Is(s, id, Sending) && !Is(s, id, Done))
  {
    InitKeepsInv(clock, ops);
    var s := Exec(Init(true, clock), ops);
    if id in s.items {
      assert RowOk(s.store[id], s.items[id]) && EntryOk(s.items[id], s.clock);
    }
  }
}
