/** The bound on dispatches is reached: runs in which crashes catch an item in flight, and attempts fail. */
module DeliveryBounds {
  import opened Text
  import opened DeliveryModel

  /** A queue that holds one item, waiting and due at the given time. */
  ghost predicate Lone(s: State, id: Id, now: int) {
    Inv(s) && s.persistent && s.items.Keys == {id} && s.clock <= now && IsDue(s.items[id], now)
  }

  ghost predicate NeverReplays(ops: seq<Op>, id: Id) {
    forall i :: 0 <= i < |ops| ==> !Replays(ops[i], id)
  }

  function One(holds: bool): nat {
    if holds then 1 else 0
  }

  /** What an operation and a run after it come to. */
  lemma CountsCons(s: State, op: Op, rest: seq<Op>, id: Id)
    requires Enabled(s, op)
    ensures var ops, t := [op] + rest, Step(s, op);
            && (Legal(s, ops) <==> Legal(t, rest)) && (Legal(t, rest) ==> Exec(s, ops) == Exec(t, rest))
            && (Legal(t, rest) ==>
                  && DispatchCount(s, ops, id) == One(Dispatches(s, op, id)) + DispatchCount(t, rest, id)
                  && LossCount(s, ops, id) == One(op == Crash && Is(s, id, Sending)) + LossCount(t, rest, id))
  {
    assert ([op] + rest)[1..] == rest;
  }

  /** What two operations and a run after them come to. */
  lemma TwoThen(s: State, a: Op, b: Op, rest: seq<Op>, id: Id)
    requires Enabled(s, a) && Enabled(Step(s, a), b) && Legal(Step(Step(s, a), b), rest)
    requires NeverReplays(rest, id) && !Replays(a, id) && !Replays(b, id)
    ensures var ops, t := [a, b] + rest, Step(s, a);
            && Legal(s, ops) && Exec(s, ops) == Exec(Step(t, b), rest) && NeverReplays(ops, id)
            && DispatchCount(s, ops, id) ==
               One(Dispatches(s, a, id)) + One(Dispatches(t, b, id)) + DispatchCount(Step(t, b), rest, id)
            && LossCount(s, ops, id) ==
               One(a == Crash && Is(s, id, Sending)) + One(b == Crash && Is(t, id, Sending))
                 + LossCount(Step(t, b), rest, id)
  {
    CountsCons(Step(s, a), b, rest, id);
    CountsCons(s, a, [b] + rest, id);
    Associate([a], [b], rest);
  }

  lemma OneRow(s: State, id: Id)
    requires Inv(s) && s.persistent && s.items.Keys == {id}
    ensures Enabled(s, Crash)
  {
    assert Live(s.store) == {} || Live(s.store) == {id};
  }

  /** A crash in flight costs a dispatch and leaves the item as it was. */
  lemma LoseOnce(s: State, id: Id, now: int)
    requires Lone(s, id, now)
    ensures var t := StepDrain(s, now);
            && Enabled(t, Crash) && Is(t, id, Sending) && Lone(StepCrash(t), id, now)
            && StepCrash(t).items[id].attempts == s.items[id].attempts
            && StepCrash(t).items[id].maxAttempts == s.items[id].maxAttempts
  {
    var t := StepDrain(s, now);
    DrainKeepsInv(s, now);
    OneRow(t, id);
    CrashKeepsInv(t);
    assert RowOk(t.store[id], t.items[id]);
  }

  /** A run goes on from one state to another, dispatching and losing an item so often. */
  ghost predicate Comes(s: State, ops: seq<Op>, id: Id, dispatched: nat, lost: nat) {
    Legal(s, ops) && NeverReplays(ops, id) && DispatchCount(s, ops, id) == dispatched && LossCount(s, ops, id) == lost
  }

  lemma LoseThen(s: State, id: Id, now: int, rest: seq<Op>, dispatched: nat, lost: nat)
    requires Lone(s, id, now) && Comes(StepCrash(StepDrain(s, now)), rest, id, dispatched, lost)
    ensures Comes(s, [Drain(now), Crash] + rest, id, dispatched + 1, lost + 1)
    ensures Exec(s, [Drain(now), Crash] + rest) == Exec(StepCrash(StepDrain(s, now)), rest)
  {
    LoseOnce(s, id, now);
    TwoThen(s, Drain(now), Crash, rest, id);
  }

  lemma {:induction false} LoseOften(s: State, id: Id, now: int, n: nat) returns (ops: seq<Op>)
    requires Lone(s, id, now)
    ensures Comes(s, ops, id, n, n)
    ensures var t := Exec(s, ops);
            && Lone(t, id, now) && t.items[id].attempts == s.items[id].attempts
            && t.items[id].maxAttempts == s.items[id].maxAttempts
    decreases n
  {
    ops := [];
    if n > 0 {
      LoseOnce(s, id, now);
      var rest := LoseOften(StepCrash(StepDrain(s, now)), id, now, n - 1);
      LoseThen(s, id, now, rest, n - 1, n - 1);
      ops := [Drain(now), Crash] + rest;
    }
  }

  lemma EmptyContainsNone(patterns: seq<string>)
    requires forall i :: 0 <= i < |patterns| ==> |patterns[i]| > 0
    ensures !ContainsAny("", patterns)
  {
  }

  lemma NoErrorIsTemporary()
    ensures !IsPermanentError("")
  {
    assert ToLower("") == "";
    EmptyContainsNone(PERMANENT_ERRORS);
  }

  /** The state after a dispatch and a temporary failure. */
  ghost predicate Failed(s: State, id: Id, now: int, u: State) {
    Is(StepDrain(s, now), id, Sending) && u == StepFail(StepDrain(s, now), id, "", now)
  }

  /** A temporary failure costs a dispatch and an attempt, and the item is due again in time. */
  lemma FailOnce(s: State, id: Id, now: int) returns (u: State)
    requires Lone(s, id, now) && s.items[id].attempts + 1 < s.items[id].maxAttempts
    ensures Failed(s, id, now, u)
    ensures Lone(u, id, now + 15 * MINUTE) && u.items[id].attempts == s.items[id].attempts + 1
            && u.items[id].maxAttempts == s.items[id].maxAttempts
  {
    NoErrorIsTemporary();
    DrainKeepsInv(s, now);
    FailKeepsInv(StepDrain(s, now), id, "", now);
    u := StepFail(StepDrain(s, now), id, "", now);
  }

  lemma FailThen(s: State, id: Id, now: int, u: State, rest: seq<Op>, dispatched: nat) returns (ops: seq<Op>)
    requires Lone(s, id, now) && Failed(s, id, now, u) && Comes(u, rest, id, dispatched, 0)
    ensures Comes(s, ops, id, dispatched + 1, 0)
  {
    TwoThen(s, Drain(now), Fail(id, "", now), rest, id);
    ops := [Drain(now), Fail(id, "", now)] + rest;
  }

  lemma LastDispatch(s: State, id: Id, now: int)
    requires Lone(s, id, now)
    ensures Comes(s, [Drain(now)], id, 1, 0)
  {
    assert [Drain(now)][1..] == [];
  }

  lemma {:induction false} UseUp(s: State, id: Id, now: int) returns (ops: seq<Op>)
    requires Lone(s, id, now)
    ensures Comes(s, ops, id, Max(1, s.items[id].maxAttempts - s.items[id].attempts), 0)
    decreases Max(1, s.items[id].maxAttempts - s.items[id].attempts)
  {
    if s.items[id].attempts + 1 < s.items[id].maxAttempts {
      var u := FailOnce(s, id, now);
      var rest := UseUp(u, id, now + 15 * MINUTE);
      ops := FailThen(s, id, now, u, rest, s.items[id].maxAttempts - s.items[id].attempts - 1);
    } else {
      LastDispatch(s, id, now);
      ops := [Drain(now)];
    }
  }

  lemma {:induction false} CountsConcat(s: State, a: seq<Op>, b: seq<Op>, id: Id)
    requires Legal(s, a) && Legal(Exec(s, a), b)
    ensures Legal(s, a + b)
    ensures DispatchCount(s, a + b, id) == DispatchCount(s, a, id) + DispatchCount(Exec(s, a), b, id)
    ensures LossCount(s, a + b, id) == LossCount(s, a, id) + LossCount(Exec(s, a), b, id)
    decreases |a|
  {
    if a == [] {
      assert a + b == b;
    } else {
      CountsConcat(Step(s, a[0]), a[1..], b, id);
      CountsCons(s, a[0], a[1..], id);
      CountsCons(s, a[0], a[1..] + b, id);
      assert a == [a[0]] + a[1..];
      Associate([a[0]], a[1..], b);
    }
  }

  lemma AcceptedIsLone(id: Id, payload: Payload, maxAttempts: int, clock: int)
    ensures var s := StepEnqueue(Init(true, clock), id, payload, "", maxAttempts, clock);
            Lone(s, id, clock) && s.items[id].sends == 0 == s.items[id].attempts
              && s.items[id].maxAttempts == maxAttempts
  {
    EnqueueKeepsInv(Init(true, clock), id, payload, "", maxAttempts, clock);
  }

  /**
    The bound on dispatches is exact: for every limit on attempts and every number of crashes in flight
    there is a run, from the moment an item is accepted, that dispatches it max(1, maxAttempts) times and
    once more for each of the crashes.
   */
  lemma DispatchBoundIsReached(id: Id, payload: Payload, maxAttempts: int, n: nat, clock: int) returns (ops: seq<Op>)
    ensures Enabled(Init(true, clock), Enqueue(id, payload, "", maxAttempts, clock))
    ensures var s := Step(Init(true, clock), Enqueue(id, payload, "", maxAttempts, clock));
            && id in s.items && s.items[id].sends == 0 && s.items[id].maxAttempts == maxAttempts
            && Comes(s, ops, id, Max(1, maxAttempts) + n, n)
  {
    var s := StepEnqueue(Init(true, clock), id, payload, "", maxAttempts, clock);
    AcceptedIsLone(id, payload, maxAttempts, clock);
    var lost := LoseOften(s, id, clock, n);
    var used := UseUp(Exec(s, lost), id, clock);
    CountsConcat(s, lost, used, id);
    ops := lost + used;
  }
}
