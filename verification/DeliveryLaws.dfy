/**
  The delivery queue's promises in plain figures: the retry schedule, what counts as permanent, and what
  each operation does to an item as its users see it.
 */
module DeliveryLaws {
  import opened DeliveryHeap
  import opened Text
  import opened DeliveryModel

  // --- The schedule ---

  /** How long an item waits after so many failures: 1 s, 5 s, 30 s, 5 min, and 15 min from then on. */
  ghost predicate WaitsFor(failures: int, wait: int) {
    && (failures == 1 ==> wait == 1_000_000_000)
    && (failures == 2 ==> wait == 5_000_000_000)
    && (failures == 3 ==> wait == 30_000_000_000)
    && (failures == 4 ==> wait == 300_000_000_000)
    && (failures >= 5 ==> wait == 900_000_000_000)
  }

  /** A failure that does not bury an item makes it due again exactly so long after it. */
  lemma FailureSchedules(s: State, id: Id, error: string, now: int)
    requires Inv(s) && Enabled(s, Fail(id, error, now))
    ensures var t := Step(s, Fail(id, error, now));
            var before, after := s.items[id], t.items[id];
            && after.attempts == before.attempts + 1 && after.lastError == error
            && (after.phase == Dead <==> IsPermanentError(error) || after.attempts >= before.maxAttempts)
            && (after.phase != Dead ==> after.phase == Waiting && WaitsFor(after.attempts, after.nextRetryAt - now))
            && t.items - {id} == s.items - {id}
  {
    assert EntryOk(s.items[id], s.clock);
  }

  /**
    After its first, second, third, fourth and any later failure, an item is dispatched again no sooner than
    1 s, 5 s, 30 s, 5 min and 15 min after the dispatch before, and less than a second earlier than that if
    the process crashed while it waited.
   */
  lemma RetriesKeepTheSchedule(s: State, first: int, ops: seq<Op>, second: int, id: Id) returns (wait: int)
    requires Inv(s) && Enabled(s, Drain(first)) && Dispatches(s, Drain(first), id)
    requires Legal(Step(s, Drain(first)), ops)
    requires DispatchCount(Step(s, Drain(first)), ops, id) == 0 && LossCount(Step(s, Drain(first)), ops, id) == 0
    requires forall i :: 0 <= i < |ops| ==> !Replays(ops[i], id)
    requires Dispatches(Exec(Step(s, Drain(first)), ops), Drain(second), id)
    ensures var failures := Exec(Step(s, Drain(first)), ops).items[id].attempts;
            failures >= 1 && WaitsFor(failures, wait) && wait >= 1_000_000_000
    ensures first + wait - 1_000_000_000 < second && (Crash !in ops ==> first + wait <= second)
  {
    DispatchesAreSpaced(s, first, ops, second, id);
    wait := BackoffDelay(Exec(Step(s, Drain(first)), ops).items[id].attempts);
  }

  // --- Permanent errors ---

  lemma ContainsAround(a: string, m: string, b: string)
    ensures Contains(a + m + b, m)
  {
    assert m <= (a + m + b)[|a|..];
  }

  lemma LowerConcat(a: string, m: string, b: string)
    ensures ToLower(a + m + b) == ToLower(a) + ToLower(m) + ToLower(b)
  {
  }

  /** An error is permanent if one of these stands anywhere in it, in upper or lower case. */
  lemma PermanentAnywhere(a: string, m: string, b: string)
    requires ToLower(m) in {"403 forbidden", "401 unauthorized", "400 bad request", "blocked by the user",
                            "bot was blocked", "chat not found", "user is deactivated", "bot was kicked",
                            "peer_id_invalid"}
    ensures IsPermanentError(a + m + b)
  {
    LowerConcat(a, m, b);
    ContainsAround(ToLower(a), ToLower(m), ToLower(b));
    assert PERMANENT_ERRORS[0] == "403 forbidden" && PERMANENT_ERRORS[1] == "401 unauthorized"
           && PERMANENT_ERRORS[2] == "400 bad request" && PERMANENT_ERRORS[3] == "blocked by the user"
           && PERMANENT_ERRORS[4] == "bot was blocked" && PERMANENT_ERRORS[5] == "chat not found"
           && PERMANENT_ERRORS[6] == "user is deactivated" && PERMANENT_ERRORS[7] == "bot was kicked"
           && PERMANENT_ERRORS[8] == "peer_id_invalid";
    var k :| 0 <= k < |PERMANENT_ERRORS| && PERMANENT_ERRORS[k] == ToLower(m);
  }

  lemma AnyCaseIsPermanent()
    ensures IsPermanentError("HTTP 403 FORBIDDEN") && IsPermanentError("Forbidden: bot was BLOCKED by the user")
  {
    assert ToLower("403 FORBIDDEN") == "403 forbidden" && ToLower("bot was BLOCKED") == "bot was blocked";
    assert "HTTP 403 FORBIDDEN" == "HTTP " + "403 FORBIDDEN" + "";
    assert "Forbidden: bot was BLOCKED by the user" == "Forbidden: " + "bot was BLOCKED" + " by the user";
    PermanentAnywhere("HTTP ", "403 FORBIDDEN", "");
    PermanentAnywhere("Forbidden: ", "bot was BLOCKED", " by the user");
  }

  /** And nothing shorter than the shortest of them is. */
  lemma ShortIsTemporary(error: string)
    requires |error| < 13
    ensures !IsPermanentError(error)
  {
    var lower := ToLower(error);
    forall k | 0 <= k < |PERMANENT_ERRORS| ensures !Contains(lower, PERMANENT_ERRORS[k]) {
    }
  }

  // --- What the operations do ---

  ghost predicate OthersSame(s: State, t: State, id: Id) {
    t.items - {id} == s.items - {id}
  }

  /** A key that is pending swallows the item; otherwise it waits, due at once, and is written down. */
  lemma EnqueueIsIdempotent(s: State, id: Id, payload: Payload, key: string, maxAttempts: int, now: int)
    requires Enabled(s, Enqueue(id, payload, key, maxAttempts, now))
    ensures var t := Step(s, Enqueue(id, payload, key, maxAttempts, now));
            var swallowed :=
              key != "" && exists x :: x in s.items && s.items[x].phase == Waiting && s.items[x].key == key;
            if swallowed then t.items == s.items && t.store == s.store
            else
              && id in t.items && OthersSame(s, t, id)
              && t.items[id].phase == Waiting && t.items[id].payload == payload && t.items[id].key == key
              && t.items[id].attempts == 0 && t.items[id].maxAttempts == maxAttempts && t.items[id].nextRetryAt == now
              && (s.persistent ==> id in t.store && t.store[id].payload == payload && t.store[id].status == Pending
                                   && t.store[id].attempts == 0 && t.store[id].maxAttempts == maxAttempts)
  {
  }

  /** A drain sends exactly what waits and whose time has come, and touches nothing else. */
  lemma DrainTakesTheDue(s: State, now: int, id: Id)
    requires Enabled(s, Drain(now)) && id in s.items
    ensures var t := Step(s, Drain(now));
            && t.store == s.store && t.items.Keys == s.items.Keys
            && (if s.items[id].phase == Waiting && s.items[id].nextRetryAt <= now then
                  t.items[id].phase == Sending && t.items[id].attempts == s.items[id].attempts
                  && t.items[id].payload == s.items[id].payload
                else t.items[id] == s.items[id])
  {
  }

  lemma DeliveryEnds(s: State, id: Id)
    requires Enabled(s, Deliver(id))
    ensures var t := Step(s, Deliver(id));
            && t.items[id].phase == Done && OthersSame(s, t, id)
            && (s.persistent && id in s.store ==> t.store[id].status == Delivered)
  {
  }

  /** A replay gives a dead item a new start: no attempts, no error, due at once; of another it changes nothing. */
  lemma ReplayStartsOver(s: State, id: Id, now: int)
    requires Enabled(s, Replay(id, now))
    ensures var t := Step(s, Replay(id, now));
            var inStore := s.persistent && id in s.store && s.store[id].status == DeadLetter;
            if (id in s.items && s.items[id].phase == Dead) || inStore
              then
              && id in t.items && OthersSame(s, t, id) && t.items[id].phase == Waiting
              && t.items[id].attempts == 0 && t.items[id].lastError == "" && t.items[id].nextRetryAt == now
            else t.items == s.items && t.store == s.store
  {
  }
}
