/**
  The delivery queue itself: a heap of mutable items, a dead-letter list and a persisted table,
  each operation of which is one step of the value-level model.
 */
module DeliveryQueue {
  import opened DeliveryHeap
  import opened DeliveryModel
  import opened Text

  class Queue {
    const persistent: bool
    const pending: Heap
    var deadLetters: seq<DeliveryItem>
    var store: map<string, Row>

    /** The abstract state, and the object this process holds for each item it holds. */
    ghost var model: State
    ghost var held: map<string, DeliveryItem>

    ghost predicate Matches(item: DeliveryItem, e: Entry)
      reads item
    {
      && Payload(item.channel, item.recipientId, item.content) == e.payload
      && item.idempotencyKey == e.key && item.maxAttempts == e.maxAttempts
      && item.attempts == e.attempts && item.nextRetryAt == e.nextRetryAt && item.lastError == e.lastError
    }

    /**
      The process holds one object per item that is waiting, in flight or dead; a waiting item is on
      the heap, a dead one on the dead-letter list, and neither is anywhere else.
     */
    ghost predicate Placed(id: string)
      reads this, pending, pending.items, deadLetters, held.Values
    {
      && (id in held <==> id in model.items && model.items[id].phase in {Waiting, Sending, Dead})
      && (id in held ==>
            var x := held[id];
            && Matches(x, model.items[id])
            && (x in pending.items <==> model.items[id].phase == Waiting)
            && (x in deadLetters <==> model.items[id].phase == Dead))
    }

    /** The objects agree with the model, except perhaps about the item `skip`. */
    ghost predicate CoupledBut(skip: string)
      reads this, pending, pending.items, deadLetters, held.Values
    {
      && (forall id :: id != skip ==> Placed(id)) && pending.Valid()
      && (forall id :: id in held ==> held[id].id == id)
      && (forall x :: x in pending.items ==> x.id in held && held[x.id] == x)
      && (forall x :: x in deadLetters ==> x.id in held && held[x.id] == x)
      && (forall i, j :: 0 <= i < j < |deadLetters| ==> deadLetters[i] != deadLetters[j])
    }

    ghost predicate Coupled()
      reads this, pending, pending.items, deadLetters, held.Values
    {
      CoupledBut("") && Placed("")
    }

    /** The item was handed out by a drain and its outcome is still open. */
    ghost predicate IsInFlight(item: DeliveryItem)
      reads this
    {
      Is(model, item.id, Sending) && item.id in held && held[item.id] == item
    }

    ghost predicate Valid()
      reads this, pending, pending.items, deadLetters, held.Values
    {
      Coupled() && Inv(model) && model.persistent == persistent && model.store == store
    }

    /** An empty queue over the given rows; `settled` is what the rows say is over and done with. */
    constructor (persistent: bool, rows: map<string, Row>, ghost settled: State)
      requires forall id :: id in settled.items ==> settled.items[id].phase in {Done, Archived}
      ensures this.persistent == persistent && store == rows && model == settled && deadLetters == []
      ensures Coupled() && held == map[] && pending.items == [] && fresh(pending)
    {
      this.persistent := persistent;
      pending := new Heap();
      deadLetters, store, held, model := [], rows, map[], settled;
    }

    /**
      Starts a process over the rows left by `before` (an initial state for a first start), which the
      recovery query lists in any order. What its limit cuts off is missing from the queue; nothing else is.
     */
    static method Open(persistent: bool, rows: map<string, Row>, listing: seq<string>, ghost before: State)
      returns (q: Queue)
      requires Inv(before) && before.persistent == persistent && before.store == rows && Lists(listing, Live(rows))
      requires !persistent ==> before.items == map[]
      ensures fresh(q) && fresh(q.pending) && q.persistent == persistent && q.store == rows && q.deadLetters == []
      ensures q.Coupled()
      ensures q.model == StepCrash(before).(items := Without(StepCrash(before).items, listing[Cut(listing)..]))
      ensures |listing| <= RECOVERY_LIMIT ==> q.Valid() && q.model == StepCrash(before)
    {
      ghost var after := StepCrash(before);
      OpenedState(before);
      q := new Queue(persistent, rows, after.(items := after.items - Live(rows)));
      q.RecoverFromStore(listing, after.items);
      AllListed(after.items, listing);
    }

    static lemma OpenedState(before: State)
      requires Inv(before) && (!before.persistent ==> before.items == map[])
      ensures Inv(StepCrash(before))
      ensures forall id :: id in StepCrash(before).items - Live(before.store) ==>
                             StepCrash(before).items[id].phase in {Done, Archived}
      ensures forall id :: id in Live(before.store) ==>
                             id in StepCrash(before).items &&
                             IsRecovered(StepCrash(before).items[id], before.store[id])
    {
      if before.persistent {
        CrashKeepsInv(before);
      }
      forall id | id in before.items ensures EntryOk(before.items[id], before.clock) {}
    }

    /** Makes an item of a live row and puts it on the heap. */
    method Restore(id: string, row: Row, ghost e: Entry)
      requires Coupled() && id !in model.items && IsRecovered(e, row)
      modifies this`held, this`model, pending, (set x <- pending.items)`index
      ensures Coupled() && model == old(model).(items := old(model).items[id := e])
      ensures held.Keys == old(held).Keys + {id}
      ensures forall x :: x in pending.items ==> x in old(pending.items) || fresh(x)
    {
      var item := new DeliveryItem(id, row.payload.channel, row.payload.recipientId, row.payload.content, "",
                                   row.maxAttempts, row.attempts, row.nextRetryAt, row.lastError);
      assert Placed(id);
      Schedule(item, row.attempts, row.nextRetryAt, row.lastError, model.items[id := e]);
    }

    /** Reloads the rows a recovery query yields; `all` is what the model's items become. */
    method RecoverFromStore(listing: seq<string>, ghost all: map<string, Entry>)
      requires Coupled() && pending.items == [] && Lists(listing, Live(store)) && model.items == all - Live(store)
      requires forall id :: id in listing ==> id in all && IsRecovered(all[id], store[id])
      modifies this`held, this`model, pending
      ensures Coupled() && model == old(model).(items := Without(all, listing[Cut(listing)..]))
    {
      WithoutListed(all, listing, Live(store));
      for i := 0 to Cut(listing)
        invariant Coupled() && forall x :: x in pending.items ==> fresh(x)
        invariant model == old(model).(items := Without(all, listing[i..]))
      {
        assert listing[i] in Live(store);
        OneRestored(all, listing, i);
        Restore(listing[i], store[listing[i]], all[listing[i]]);
      }
    }

    static function Cut(listing: seq<string>): nat {
      if |listing| <= RECOVERY_LIMIT then |listing| else RECOVERY_LIMIT
    }

    static ghost function Without(all: map<string, Entry>, ids: seq<string>): map<string, Entry> {
      all - set id <- ids
    }

    static lemma AllListed(all: map<string, Entry>, listing: seq<string>)
      ensures |listing| <= RECOVERY_LIMIT ==> Without(all, listing[Cut(listing)..]) == all
    {
      if |listing| <= RECOVERY_LIMIT {
        assert listing[Cut(listing)..] == [];
      }
    }

    static lemma WithoutListed(all: map<string, Entry>, listing: seq<string>, ids: set<string>)
      requires Lists(listing, ids)
      ensures Without(all, listing[0..]) == all - ids
    {
    }

    /** One row fewer is left to come. */
    static lemma OneRestored(all: map<string, Entry>, listing: seq<string>, i: nat)
      requires i < |listing| && listing[i] in all
      requires forall j, k :: 0 <= j < k < |listing| ==> listing[j] != listing[k]
      ensures var left, still := Without(all, listing[i..]), Without(all, listing[i + 1..]);
              listing[i] !in left && still == left[listing[i] := all[listing[i]]]
    {
      assert listing[i..] == [listing[i]] + listing[i + 1..];
    }

    /** Puts an item on the heap with the given schedule; `items` is what the model's items become. */
    method Schedule(item: DeliveryItem, attempts: int, nextRetryAt: int, lastError: string,
                    ghost items: map<string, Entry>)
      requires CoupledBut(item.id) && item.id in items && items == model.items[item.id := items[item.id]]
      requires item !in pending.items && item !in deadLetters
      requires forall x :: x in pending.items || x in deadLetters ==> x.id != item.id
      requires var e := items[item.id];
               && e.phase == Waiting && e.attempts == attempts
               && e.nextRetryAt == nextRetryAt && e.lastError == lastError
               && Payload(item.channel, item.recipientId, item.content) == e.payload
               && item.idempotencyKey == e.key && item.maxAttempts == e.maxAttempts
      modifies this`held, this`model, pending, (set x <- pending.items)`index, item
      ensures Coupled() && model == old(model).(items := items) && held == old(held)[item.id := item]
      ensures forall x :: x in pending.items <==> x in old(pending.items) || x == item
      ensures item.status == Pending && item.attempts == attempts
      ensures item.nextRetryAt == nextRetryAt && item.lastError == lastError
    {
      item.status, item.attempts, item.nextRetryAt, item.lastError := Pending, attempts, nextRetryAt, lastError;
      pending.Push(item);
      held := held[item.id := item];
      model := model.(items := items);
      forall id ensures Placed(id) {
        assert id != item.id ==> old(Placed(id));
      }
    }

    method FindKey(key: string) returns (id: Option<string>)
      requires Valid()
      ensures id.Some? ==> key != "" && Is(model, id.value, Waiting) && model.items[id.value].key == key
      ensures id.Some? <==> KeyPending(model, key)
    {
      if key != "" {
        for i := 0 to |pending.items|
          invariant forall k :: 0 <= k < i ==> pending.items[k].idempotencyKey != key
        {
          if pending.items[i].idempotencyKey == key {
            assert Placed(pending.items[i].id);
            return Some(pending.items[i].id);
          }
        }
      }
      forall other | key != "" && Is(model, other, Waiting) ensures model.items[other].key != key {
        assert Placed(other);
      }
      id := None;
    }

    /** Replaces the table and whatever else of the model does not concern the objects. */
    method Commit(rows: map<string, Row>, ghost next: State)
      requires Coupled() && next.items == model.items
      modifies this`store, this`model
      ensures Coupled() && store == rows && model == next
    {
      store := rows;
      model := next;
      assert forall id :: old(Placed(id)) ==> Placed(id);
    }

    /** The table with the mutable columns of the item's row rewritten, if there is such a row. */
    method RowsWith(item: DeliveryItem, ghost s: State, ghost e: Entry) returns (rows: map<string, Row>)
      requires s.persistent == persistent && s.store == store && item.status == StatusOf(e.phase)
      requires item.attempts == e.attempts && item.nextRetryAt == e.nextRetryAt && item.lastError == e.lastError
      ensures rows == Updated(s, item.id, e)
    {
      rows := store;
      if persistent && item.id in store {
        rows := store[item.id := store[item.id].(status := item.status, attempts := item.attempts,
                                nextRetryAt := FloorSecond(item.nextRetryAt), lastError := item.lastError)];
      }
    }

    method EnqueueWithOptions(channel: string, recipientId: string, content: string,
                              key: string, maxAttempts: int, newId: string, now: int) returns (id: string)
      requires Valid() && Enabled(model, Enqueue(newId, Payload(channel, recipientId, content), key, maxAttempts, now))
      modifies this, pending, (set x <- pending.items)`index
      ensures Valid()
      ensures model == Step(old(model), Enqueue(newId, Payload(channel, recipientId, content), key, maxAttempts, now))
      ensures if KeyPending(old(model), key) then Is(old(model), id, Waiting) && old(model).items[id].key == key
              else id == newId
    {
      ghost var payload := Payload(channel, recipientId, content);
      ghost var next := StepEnqueue(model, newId, payload, key, maxAttempts, now);
      EnqueueKeepsInv(model, newId, payload, key, maxAttempts, now);
      var existing := FindKey(key);
      if existing.Some? {
        Commit(store, next);
        return existing.value;
      }
      var item := new DeliveryItem(newId, channel, recipientId, content, key, maxAttempts, 0, now, "");
      assert Placed(newId);
      Schedule(item, 0, now, "", next.items);
      var rows := store;
      if persistent {
        var row := Row(Payload(channel, recipientId, content), maxAttempts, Pending, 0, FloorSecond(now), "");
        rows := store[newId := row];
      }
      Commit(rows, next);
      id := newId;
    }

    /** Lets go of an in-flight item that was delivered; `items` is what the model's items become. */
    method Release(item: DeliveryItem, ghost items: map<string, Entry>)
      requires Coupled() && IsInFlight(item) && items == model.items[item.id := model.items[item.id].(phase := Done)]
      modifies this`held, this`model, item`status
      ensures Coupled() && model == old(model).(items := items) && held == old(held) - {item.id}
      ensures item.status == Delivered
    {
      assert Placed(item.id);
      item.status := Delivered;
      held := held - {item.id};
      model := model.(items := items);
      forall id ensures Placed(id) {
        assert old(Placed(id));
      }
    }

    /** Records the outcome of a successful send. */
    method MarkDelivered(item: DeliveryItem)
      requires Valid() && IsInFlight(item)
      modifies this, item`status
      ensures Valid() && model == Step(old(model), Deliver(item.id))
      ensures deadLetters == old(deadLetters) && item.status == Delivered && held == old(held) - {item.id}
    {
      ghost var before, e := model, model.items[item.id].(phase := Done);
      SavedKeepsInv(model, item.id, e);
      assert Placed(item.id);
      Release(item, model.items[item.id := e]);
      var rows := RowsWith(item, before, e);
      Commit(rows, Saved(before, item.id, e));
    }

    /** Moves an in-flight item to the dead letters; `items` is what the model's items become. */
    method Bury(item: DeliveryItem, attempts: int, error: string, ghost items: map<string, Entry>)
      requires Coupled() && IsInFlight(item)
      requires items == model.items[item.id := model.items[item.id].(phase := Dead, attempts := attempts,
                                                                     lastError := error)]
      modifies this`deadLetters, this`model, item`status, item`attempts, item`lastError
      ensures Coupled() && model == old(model).(items := items) && deadLetters == old(deadLetters) + [item]
      ensures item.status == DeadLetter && item.attempts == attempts && item.lastError == error
    {
      assert Placed(item.id);
      item.attempts, item.lastError, item.status := attempts, error, DeadLetter;
      deadLetters := deadLetters + [item];
      model := model.(items := items);
      forall id ensures Placed(id) {
        assert old(Placed(id));
      }
    }

    /** Counts a failed attempt: back to the heap with a delay, or to the dead letters. */
    method CountFailure(item: DeliveryItem, error: string, now: int)
      requires Valid() && IsInFlight(item)
      modifies this`deadLetters, this`held, this`model, pending, (set x <- pending.items)`index, item
      ensures var e := AfterFailure(old(model).items[item.id], error, now);
              && Coupled() && model == old(model).(items := old(model).items[item.id := e])
              && item.status == StatusOf(e.phase) && item.attempts == e.attempts
              && item.nextRetryAt == e.nextRetryAt && item.lastError == e.lastError
      ensures deadLetters == if GivesUp(old(model).items[item.id], error) then old(deadLetters) + [item]
              else old(deadLetters)
      ensures held == old(held)
    {
      ghost var items := model.items[item.id := AfterFailure(model.items[item.id], error, now)];
      assert Placed(item.id);
      var attempts := item.attempts + 1;
      if IsPermanentError(error) || attempts >= item.maxAttempts {
        Bury(item, attempts, error, items);
      } else {
        Schedule(item, attempts, now + BackoffDelay(attempts), error, items);
      }
    }

    /** Records the outcome of a failed send. */
    method RequeueFailed(item: DeliveryItem, error: string, now: int)
      requires Valid() && IsInFlight(item) && model.clock <= now
      modifies this, pending, (set x <- pending.items)`index, item
      ensures Valid() && model == Step(old(model), Fail(item.id, error, now))
      ensures deadLetters == if GivesUp(old(model).items[item.id], error) then old(deadLetters) + [item]
              else old(deadLetters)
      ensures held == old(held)
    {
      ghost var before, entry := model.(clock := now), AfterFailure(model.items[item.id], error, now);
      FailKeepsInv(model, item.id, error, now);
      CountFailure(item, error, now);
      var rows := RowsWith(item, before, entry);
      Commit(rows, Saved(before, item.id, entry));
    }

    /** Takes the due items off the heap; the model follows. */
    method TakeDue(now: int) returns (ready: seq<DeliveryItem>)
      requires Valid() && model.clock <= now
      modifies this`model, pending, (set x <- pending.items)`index, (set x <- pending.items)`status
      ensures Valid() && model == StepDrain(old(model), now)
      ensures forall x :: x in old(pending.items) <==> x in pending.items || x in ready
      ensures forall x :: x in ready ==> x !in pending.items && x.nextRetryAt <= now
      ensures forall i, j :: 0 <= i < j < |ready| ==>
                ready[i] != ready[j] && ready[i].nextRetryAt <= ready[j].nextRetryAt
      ensures forall x :: x in pending.items ==> now < x.nextRetryAt
    {
      ready := pending.PopDue(now);
      DrainKeepsInv(model, now);
      model := StepDrain(model, now);
      forall id ensures Placed(id) {
        assert old(Placed(id));
      }
    }

    /** Hands out every item whose retry time has passed, earliest first. */
    method DrainReady(now: int) returns (ready: seq<DeliveryItem>)
      requires Valid() && model.clock <= now
      modifies this`model, pending, (set x <- pending.items)`index, (set x <- pending.items)`status
      ensures Valid() && model == Step(old(model), Drain(now))
      ensures forall x :: x in ready ==> IsInFlight(x) && IsDue(old(model).items[x.id], now)
      ensures forall id :: id in old(model).items && IsDue(old(model).items[id], now) ==>
              id in held && held[id] in ready
      ensures forall i, j :: 0 <= i < j < |ready| ==>
                ready[i] != ready[j] && ready[i].nextRetryAt <= ready[j].nextRetryAt
      ensures forall x :: x in pending.items ==> now < x.nextRetryAt
    {
      ready := TakeDue(now);
      forall x | x in ready ensures IsInFlight(x) && IsDue(old(model).items[x.id], now) {
        assert old(Placed(x.id));
      }
      forall id | id in old(model).items && IsDue(old(model).items[id], now) ensures id in held && held[id] in ready {
        assert old(Placed(id));
      }
    }

    method FindDead(id: string) returns (i: nat)
      requires Valid()
      ensures i <= |deadLetters| && (i < |deadLetters| ==> deadLetters[i].id == id)
      ensures i < |deadLetters| <==> Is(model, id, Dead)
    {
      i := 0;
      while i < |deadLetters|
        invariant i <= |deadLetters| && forall k :: 0 <= k < i ==> deadLetters[k].id != id
      {
        if deadLetters[i].id == id {
          assert Placed(id);
          return;
        }
        i := i + 1;
      }
      assert Placed(id);
    }

    /** Takes a dead letter off the list and puts it back on the heap with a clean record. */
    method Revive(i: nat, now: int, ghost items: map<string, Entry>) returns (item: DeliveryItem)
      requires Coupled() && i < |deadLetters| && Is(model, deadLetters[i].id, Dead)
      requires items == model.items[deadLetters[i].id := Revived(model.items[deadLetters[i].id], now)]
      modifies this`held, this`model, this`deadLetters, pending, (set x <- pending.items)`index, deadLetters[i]
      ensures Coupled() && model == old(model).(items := items) && item == old(deadLetters[i])
      ensures deadLetters == old(deadLetters)[..i] + old(deadLetters)[i + 1..]
      ensures item.status == Pending && item.attempts == 0 && item.nextRetryAt == now && item.lastError == ""
    {
      item := deadLetters[i];
      assert Placed(item.id);
      deadLetters := deadLetters[..i] + deadLetters[i + 1..];
      forall id | id != item.id ensures Placed(id) {
        assert old(Placed(id));
      }
      Schedule(item, 0, now, "", items);
    }

    /** Makes an item of a dead row and puts it on the heap; `items` is what the model's items become. */
    method Rebuild(id: string, now: int, ghost items: map<string, Entry>) returns (item: DeliveryItem)
      requires Valid() && persistent && !Is(model, id, Dead) && DeadInStore(model, id)
      requires items == StepReplay(model, id, now).items
      modifies this`held, this`model, pending, (set x <- pending.items)`index
      ensures Coupled() && model == old(model).(items := items)
      ensures item.id == id && id in items && item.status == Pending == StatusOf(items[id].phase)
      ensures item.attempts == items[id].attempts && item.nextRetryAt == items[id].nextRetryAt
              && item.lastError == items[id].lastError
    {
      var row := store[id];
      item := new DeliveryItem(id, row.payload.channel, row.payload.recipientId, row.payload.content, "",
                               row.maxAttempts, 0, now, "");
      assert Placed(id) && RowOk(store[id], model.items[id]);
      Schedule(item, 0, now, "", items);
    }

    /** Replays from the item's row, for an item this process does not hold. */
    method ReplayDeadLetterFromStore(id: string, now: int) returns (ok: bool)
      requires Valid() && model.clock <= now && persistent && !Is(model, id, Dead)
      modifies this`held, this`model, this`store, pending, (set x <- pending.items)`index
      ensures Valid() && model == StepReplay(old(model), id, now)
      ensures ok <==> DeadInStore(old(model), id)
    {
      ghost var next := StepReplay(model, id, now);
      ReplayKeepsInv(model, id, now);
      ok := id in store && store[id].status == DeadLetter;
      var rows := store;
      if ok {
        var item := Rebuild(id, now, next.items);
        rows := RowsWith(item, old(model), next.items[id]);
      }
      Commit(rows, next);
    }

    /** Moves a dead-lettered item back to the heap, from memory if it is there, else from its row. */
    method ReplayDeadLetter(id: string, now: int) returns (ok: bool)
      requires Valid() && model.clock <= now
      modifies this, pending, (set x <- pending.items)`index, deadLetters
      ensures Valid() && model == Step(old(model), Replay(id, now))
      ensures ok <==> Is(old(model), id, Dead) || DeadInStore(old(model), id)
    {
      var i := FindDead(id);
      if i == |deadLetters| && persistent {
        ok := ReplayDeadLetterFromStore(id, now);
        return;
      }
      ghost var next := StepReplay(model, id, now);
      ReplayKeepsInv(model, id, now);
      ok := i < |deadLetters|;
      var rows := store;
      if ok {
        var item := Revive(i, now, next.items);
        rows := RowsWith(item, old(model), next.items[id]);
      }
      Commit(rows, next);
    }
  }

  /** What the worker reports of one send: nothing, or an error message. */
  function Outcome(known: bool, channel: string, sent: Option<string>): Option<string> {
    if known then sent else Some("unknown channel: " + channel)
  }

  function ReportOp(id: string, error: Option<string>, now: int): Op {
    if error.Some? then Fail(id, error.value, now) else Deliver(id)
  }

  /** Reports the outcome of one send to the queue. */
  method Report(q: Queue, item: DeliveryItem, error: Option<string>, now: int)
    requires q.Valid() && q.IsInFlight(item) && q.model.clock <= now
    modifies q, q.pending, (set x <- q.pending.items)`index, item
    ensures q.Valid() && q.model == Step(old(q.model), ReportOp(item.id, error, now)) && q.model.clock <= now
    ensures q.held == old(q.held) || q.held == old(q.held) - {item.id}
    ensures item.id in q.model.items && q.model.items[item.id].phase != Sending
    ensures q.model.items == old(q.model).items[item.id := q.model.items[item.id]]
  {
    if error.Some? {
      q.RequeueFailed(item, error.value, now);
    } else {
      q.MarkDelivered(item);
    }
  }

  /** The operations by which a worker reports its sends, in order. */
  function Reports(ready: seq<DeliveryItem>, adapters: set<string>, send: nat -> Option<string>,
                   clock: nat -> int): seq<Op> {
    seq(|ready|, k requires 0 <= k < |ready| =>
      ReportOp(ready[k].id, Outcome(ready[k].channel in adapters, ready[k].channel, send(k)), clock(k + 1)))
  }

  lemma ReportsNext(ready: seq<DeliveryItem>, adapters: set<string>, send: nat -> Option<string>, clock: nat -> int,
                    k: nat)
    requires k < |ready|
    ensures var ops, error := Reports(ready, adapters, send, clock),
              Outcome(ready[k].channel in adapters, ready[k].channel, send(k));
            ops[..k + 1] == ops[..k] + [ReportOp(ready[k].id, error, clock(k + 1))]
  {
  }

  method SendNext(q: Queue, ready: seq<DeliveryItem>, k: nat, error: Option<string>, now: int,
                  ghost held: map<string, DeliveryItem>, ghost start: State, ghost done: seq<Op>)
    requires k < |ready| && q.Valid() && q.model.clock <= now && Reported(q, ready, k, held)
    requires Legal(start, done) && q.model == Exec(start, done)
    modifies q, q.pending, held.Values
    ensures q.Valid() && q.model.clock <= now && Reported(q, ready, k + 1, held)
    ensures var all := done + [ReportOp(ready[k].id, error, now)]; Legal(start, all) && q.model == Exec(start, all)
  {
    ExecAppend(start, done, ReportOp(ready[k].id, error, now));
    SendOne(q, ready, k, error, now, held);
  }

  /** The first `k` outcomes of a batch are reported, the others still open. */
  ghost predicate Reported(q: Queue, ready: seq<DeliveryItem>, k: nat, held: map<string, DeliveryItem>)
    requires k <= |ready|
    reads q
  {
    && (forall id :: id in q.held ==> id in held && q.held[id] == held[id])
    && (forall j :: k <= j < |ready| ==> q.IsInFlight(ready[j]))
    && (forall j :: 0 <= j < k ==> !Is(q.model, ready[j].id, Sending))
    && (forall i, j :: 0 <= i < j < |ready| ==> ready[i].id != ready[j].id)
  }

  method SendOne(q: Queue, ready: seq<DeliveryItem>, k: nat, error: Option<string>, now: int,
                 ghost held: map<string, DeliveryItem>)
    requires k < |ready| && q.Valid() && q.model.clock <= now && Reported(q, ready, k, held)
    modifies q, q.pending, held.Values
    ensures q.Valid() && q.model.clock <= now && Reported(q, ready, k + 1, held)
    ensures q.model == Step(old(q.model), ReportOp(ready[k].id, error, now))
  {
    Report(q, ready[k], error, now);
  }

  method SendAll(q: Queue, ready: seq<DeliveryItem>, adapters: set<string>, send: nat -> Option<string>,
                 clock: nat -> int)
    requires q.Valid() && q.model.clock <= clock(0) && forall i: nat, j: nat :: i <= j ==> clock(i) <= clock(j)
    requires Reported(q, ready, 0, q.held)
    modifies q, q.pending, q.held.Values
    ensures q.Valid() && Legal(old(q.model), Reports(ready, adapters, send, clock))
    ensures q.model == Exec(old(q.model), Reports(ready, adapters, send, clock))
    ensures forall i :: 0 <= i < |ready| ==> !Is(q.model, ready[i].id, Sending)
  {
    ghost var start, held, ops := q.model, q.held, Reports(ready, adapters, send, clock);
    for k := 0 to |ready|
      invariant q.Valid() && q.model.clock <= clock(k) && Reported(q, ready, k, held)
      invariant Legal(start, ops[..k]) && q.model == Exec(start, ops[..k])
    {
      var error := Outcome(ready[k].channel in adapters, ready[k].channel, send(k));
      ReportsNext(ready, adapters, send, clock, k);
      SendNext(q, ready, k, error, clock(k + 1), held, start, ops[..k]);
    }
    assert ops[..|ready|] == ops;
  }

  /**
    One poll of the delivery worker: drain, then send the items one by one. `send` and `clock` stand
    for the adapters and the wall clock. The poll is a run of queue operations that leaves no item it
    took in flight.
   */
  method WorkerDrain(q: Queue, adapters: set<string>, send: nat -> Option<string>, clock: nat -> int)
    returns (ready: seq<DeliveryItem>)
    requires q.Valid() && q.model.clock <= clock(0) && forall i: nat, j: nat :: i <= j ==> clock(i) <= clock(j)
    modifies q, q.pending, q.held.Values
    ensures q.Valid()
    ensures var ops := [Drain(clock(0))] + Reports(ready, adapters, send, clock);
            Legal(old(q.model), ops) && q.model == Exec(old(q.model), ops)
    ensures forall id :: id in old(q.model).items && IsDue(old(q.model).items[id], clock(0)) ==>
            !Is(q.model, id, Sending)
  {
    ready := q.DrainReady(clock(0));
    SendAll(q, ready, adapters, send, clock);
    assert ([Drain(clock(0))] + Reports(ready, adapters, send, clock))[1..] == Reports(ready, adapters, send, clock);
  }

  /** What a poll reports: failures of unknown channels and of sends with an error, deliveries otherwise. */
  lemma ReportsAre(ready: seq<DeliveryItem>, adapters: set<string>, send: nat -> Option<string>, clock: nat -> int,
                   k: nat)
    requires k < |ready|
    ensures Reports(ready, adapters, send, clock)[k] ==
            if ready[k].channel !in adapters then
              Fail(ready[k].id, "unknown channel: " + ready[k].channel, clock(k + 1))
            else if send(k).Some? then Fail(ready[k].id, send(k).value, clock(k + 1))
            else Deliver(ready[k].id)
  {
    var error := Outcome(ready[k].channel in adapters, ready[k].channel, send(k));
    assert Reports(ready, adapters, send, clock)[k] == ReportOp(ready[k].id, error, clock(k + 1));
  }
}
