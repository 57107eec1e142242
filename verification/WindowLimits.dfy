/**
  What the fixed-window limiter of the HTTP API admits over whole histories of requests, and when its
  background cleanup can be noticed.
 */
module WindowLimits {
  import opened Text

  const ACTOR_LIMIT: nat := 5000

  datatype Bucket = Bucket(count: nat, start: int)

  /** A bucket after one more check: a new window if there is none or it is over. */
  function Touched(b: Option<Bucket>, now: int, window: int): Bucket {
    if b.None? || now - b.value.start >= window then Bucket(1, now) else Bucket(b.value.count + 1, b.value.start)
  }

  // --- One key ---

  predicate Chronological(times: seq<int>) {
    forall i, j :: 0 <= i < j < |times| ==> times[i] <= times[j]
  }

  function AfterChecks(times: seq<int>, window: int): Option<Bucket> {
    if times == [] then None else Some(Touched(AfterChecks(times[..|times| - 1], window), times[|times| - 1], window))
  }

  /** The times of the checks that stayed within the limit. */
  function Admitted(times: seq<int>, window: int, limit: nat): seq<int> {
    if times == [] then []
    else
      var before, now := times[..|times| - 1], times[|times| - 1];
      var earlier := Admitted(before, window, limit);
      if Touched(AfterChecks(before, window), now, window).count <= limit then earlier + [now] else earlier
  }

  /** How many of the times lie in a half-open interval. */
  function Count(times: seq<int>, from: int, to: int): nat {
    if times == [] then 0
    else Count(times[..|times| - 1], from, to) + if from <= times[|times| - 1] < to then 1 else 0
  }

  lemma CountSnoc(times: seq<int>, t: int, from: int, to: int)
    ensures Count(times + [t], from, to) == Count(times, from, to) + if from <= t < to then 1 else 0
  {
    assert (times + [t])[..|times|] == times;
  }

  lemma {:induction false} CountSplit(times: seq<int>, from: int, middle: int, to: int)
    requires from <= middle
    ensures Count(times, from, to) <= Count(times, from, middle) + Count(times, middle, to)
  {
    if times != [] {
      CountSplit(times[..|times| - 1], from, middle, to);
    }
  }

  lemma {:induction false} CountShrinks(times: seq<int>, from: int, later: int, to: int)
    requires from <= later
    ensures Count(times, later, to) <= Count(times, from, to)
  {
    if times != [] {
      CountShrinks(times[..|times| - 1], from, later, to);
    }
  }

  function Capped(count: nat, limit: nat): nat {
    if count <= limit then count else limit
  }

  /**
    What a bucket says about the admitted times: none is past its window; those since the window began are
    no more than its count, and one of them came exactly then; and an interval that reaches from before
    the window into it holds fewer than the limit of the earlier ones.
   */
  predicate Accounts(b: Bucket, admitted: seq<int>, window: int, limit: nat, from: int, to: int) {
    && 1 <= b.count && Count(admitted, b.start + window, to) == 0
    && Count(admitted, b.start, to) <= Capped(b.count, limit)
    && Count(admitted, b.start + 1, to) <= Capped(b.count, limit) - 1
    && (from > b.start - window ==> Count(admitted, from, b.start) <= limit - 1)
  }

  lemma NewWindow(b: Bucket, admitted: seq<int>, window: int, limit: nat, now: int, from: int, to: int)
    requires limit >= 1 && window >= 1 && now - b.start >= window
    requires Accounts(b, admitted, window, limit, from, now) && Accounts(b, admitted, window, limit, from, to)
    ensures Accounts(Bucket(1, now), admitted + [now], window, limit, from, to)
  {
    CountSnoc(admitted, now, now, to);
    CountSnoc(admitted, now, now + 1, to);
    CountSnoc(admitted, now, now + window, to);
    CountSnoc(admitted, now, from, now);
    CountShrinks(admitted, b.start + window, now, to);
    CountShrinks(admitted, b.start + window, now + 1, to);
    CountShrinks(admitted, b.start + window, now + window, to);
    if from > now - window {
      CountShrinks(admitted, b.start + 1, from, now);
    }
  }

  lemma SameWindow(b: Bucket, admitted: seq<int>, window: int, limit: nat, now: int, from: int, to: int)
    requires limit >= 1 && b.start <= now < b.start + window && Accounts(b, admitted, window, limit, from, to)
    ensures Accounts(b.(count := b.count + 1), if b.count < limit then admitted + [now] else admitted, window, limit,
                     from, to)
  {
    if b.count < limit {
      CountSnoc(admitted, now, b.start, to);
      CountSnoc(admitted, now, b.start + 1, to);
      CountSnoc(admitted, now, b.start + window, to);
      CountSnoc(admitted, now, from, b.start);
    }
  }

  lemma FirstWindow(window: int, limit: nat, now: int, from: int, to: int)
    requires limit >= 1 && window >= 1
    ensures Accounts(Bucket(1, now), [now], window, limit, from, to)
  {
    assert [now][..0] == [];
  }

  lemma {:induction false} StartIsPast(times: seq<int>, window: int, now: int)
    requires Chronological(times) && times != [] && times[|times| - 1] <= now
    ensures AfterChecks(times, window).value.start <= now
  {
    if |times| > 1 {
      StartIsPast(times[..|times| - 1], window, now);
    }
  }

  lemma {:induction false} BucketAccounts(times: seq<int>, window: int, limit: nat, from: int, to: int)
    requires Chronological(times) && times != [] && limit >= 1 && window >= 1
    ensures Accounts(AfterChecks(times, window).value, Admitted(times, window, limit), window, limit, from, to)
  {
    var before, now := times[..|times| - 1], times[|times| - 1];
    if before == [] {
      FirstWindow(window, limit, now, from, to);
    } else {
      BucketAccounts(before, window, limit, from, to);
      var b, admitted := AfterChecks(before, window).value, Admitted(before, window, limit);
      StartIsPast(before, window, now);
      if now - b.start >= window {
        BucketAccounts(before, window, limit, from, now);
        NewWindow(b, admitted, window, limit, now, from, to);
      } else {
        SameWindow(b, admitted, window, limit, now, from, to);
      }
    }
  }

  /** No interval of one window's length admits twice the limit. */
  lemma {:induction false} WindowIsBounded(times: seq<int>, window: int, limit: nat, from: int)
    requires Chronological(times) && limit >= 1 && window >= 1
    ensures Count(Admitted(times, window, limit), from, from + window) <= 2 * limit - 1
  {
    if times != [] {
      var before, now := times[..|times| - 1], times[|times| - 1];
      var admitted, earlier := Admitted(times, window, limit), Admitted(before, window, limit);
      WindowIsBounded(before, window, limit, from);
      if from <= now < from + window {
        var b := AfterChecks(times, window).value;
        BucketAccounts(times, window, limit, from, from + window);
        StartIsPast(times, window, now);
        if from <= b.start {
          CountSplit(admitted, from, b.start, from + window);
        } else {
          CountShrinks(admitted, b.start, from, from + window);
        }
      } else {
        CountSnoc(earlier, now, from, from + window);
      }
    }
  }

  function Repeated(n: nat, t: int): seq<int> {
    seq(n, _ => t)
  }

  lemma {:induction false} RepeatedCounts(times: seq<int>, n: nat, now: int, window: int)
    requires AfterChecks(times, window).Some? && now - AfterChecks(times, window).value.start < window
    ensures var b := AfterChecks(times, window).value;
            AfterChecks(times + Repeated(n, now), window) == Some(Bucket(b.count + n, b.start))
  {
    if n == 0 {
      assert times + Repeated(0, now) == times;
    } else {
      RepeatedCounts(times, n - 1, now, window);
      RepeatedSnoc(times, n, now);
      AdmittedSnoc(times + Repeated(n - 1, now), now, window, 0);
    }
  }

  lemma {:induction false} RepeatedChecks(times: seq<int>, n: nat, now: int, window: int, limit: nat)
    requires AfterChecks(times, window).Some? && now - AfterChecks(times, window).value.start < window
    requires AfterChecks(times, window).value.count + n <= limit
    ensures Admitted(times + Repeated(n, now), window, limit) == Admitted(times, window, limit) + Repeated(n, now)
  {
    var admitted := Admitted(times, window, limit);
    if n == 0 {
      assert times + Repeated(0, now) == times && admitted + Repeated(0, now) == admitted;
    } else {
      RepeatedChecks(times, n - 1, now, window, limit);
      RepeatedCounts(times, n - 1, now, window);
      AdmittedOne(times + Repeated(n - 1, now), now, window, limit);
      RepeatedSnoc(times, n, now);
      RepeatedSnoc(admitted, n, now);
    }
  }

  lemma AdmittedOne(past: seq<int>, now: int, window: int, limit: nat)
    requires Touched(AfterChecks(past, window), now, window).count <= limit
    ensures Admitted(past + [now], window, limit) == Admitted(past, window, limit) + [now]
  {
    AdmittedSnoc(past, now, window, limit);
  }

  lemma RepeatedSnoc(times: seq<int>, n: nat, t: int)
    requires n > 0
    ensures times + Repeated(n, t) == times + Repeated(n - 1, t) + [t]
  {
    assert Repeated(n, t) == Repeated(n - 1, t) + [t];
  }

  lemma {:induction false} CountRepeated(times: seq<int>, n: nat, t: int, from: int, to: int)
    requires from <= t < to
    ensures Count(times + Repeated(n, t), from, to) == Count(times, from, to) + n
  {
    if n == 0 {
      assert times + Repeated(0, t) == times;
    } else {
      CountRepeated(times, n - 1, t, from, to);
      assert times + Repeated(n, t) == times + Repeated(n - 1, t) + [t];
      CountSnoc(times + Repeated(n - 1, t), t, from, to);
    }
  }

  lemma OneCheck(now: int, window: int, limit: nat)
    requires limit >= 1
    ensures AfterChecks([now], window) == Some(Bucket(1, now)) && Admitted([now], window, limit) == [now]
  {
    assert [now][..0] == [];
  }

  lemma CountOne(t: int, from: int, to: int)
    ensures Count([t], from, to) == if from <= t < to then 1 else 0
  {
    assert [t][..0] == [];
  }

  lemma FirstBurst(window: int, limit: nat, start: int)
    requires limit >= 1 && window >= 2
    ensures var first := [start] + Repeated(limit - 1, start + window - 1);
            AfterChecks(first, window) == Some(Bucket(limit, start)) && Admitted(first, window, limit) == first
  {
    OneCheck(start, window, limit);
    RepeatedCounts([start], limit - 1, start + window - 1, window);
    RepeatedChecks([start], limit - 1, start + window - 1, window, limit);
  }

  lemma FirstBurstCount(window: int, limit: nat, start: int)
    requires limit >= 1 && window >= 2
    ensures Count([start] + Repeated(limit - 1, start + window - 1), start + 1, start + 1 + window) == limit - 1
  {
    CountOne(start, start + 1, start + 1 + window);
    CountRepeated([start], limit - 1, start + window - 1, start + 1, start + 1 + window);
  }

  /** A check past the window opens another, which admits as many again. */
  lemma NextBurst(times: seq<int>, window: int, limit: nat, now: int, from: int)
    requires limit >= 1 && window >= 1 && from <= now < from + window
    requires AfterChecks(times, window).Some? && now - AfterChecks(times, window).value.start >= window
    ensures Count(Admitted(times + [now] + Repeated(limit - 1, now), window, limit), from, from + window)
            == Count(Admitted(times, window, limit), from, from + window) + limit
  {
    BurstIsAdmitted(times, window, limit, now);
    CountSnoc(Admitted(times, window, limit), now, from, from + window);
    CountRepeated(Admitted(times, window, limit) + [now], limit - 1, now, from, from + window);
  }

  lemma BurstIsAdmitted(times: seq<int>, window: int, limit: nat, now: int)
    requires limit >= 1 && window >= 1
    requires AfterChecks(times, window).Some? && now - AfterChecks(times, window).value.start >= window
    ensures Admitted(times + [now] + Repeated(limit - 1, now), window, limit)
            == Admitted(times, window, limit) + [now] + Repeated(limit - 1, now)
  {
    OpensWindow(times, window, limit, now);
    RepeatedChecks(times + [now], limit - 1, now, window, limit);
  }

  lemma OpensWindow(times: seq<int>, window: int, limit: nat, now: int)
    requires limit >= 1 && AfterChecks(times, window).Some? && now - AfterChecks(times, window).value.start >= window
    ensures AfterChecks(times + [now], window) == Some(Bucket(1, now))
    ensures Admitted(times + [now], window, limit) == Admitted(times, window, limit) + [now]
  {
    assert (times + [now])[..|times|] == times;
  }

  /** A check opens a window, the others of its limit come at its end, and the next window is used up at once. */
  function Bursts(window: int, limit: nat, start: int): seq<int>
    requires limit >= 1
  {
    [start] + Repeated(limit - 1, start + window - 1) + [start + window] + Repeated(limit - 1, start + window)
  }

  lemma BurstsInOrder(window: int, limit: nat, start: int)
    requires limit >= 1 && window >= 2
    ensures Chronological(Bursts(window, limit, start))
    ensures forall i :: 0 <= i < |Bursts(window, limit, start)| ==>
                          start <= Bursts(window, limit, start)[i] <= start + window
  {
  }

  lemma BurstsReach(window: int, limit: nat, start: int)
    requires limit >= 1 && window >= 2
    ensures Count(Admitted(Bursts(window, limit, start), window, limit), start + 1, start + 1 + window) == 2 * limit - 1
  {
    FirstBurst(window, limit, start);
    FirstBurstCount(window, limit, start);
    NextBurst([start] + Repeated(limit - 1, start + window - 1), window, limit, start + window, start + 1);
  }

  /** The bound is reached, by checks in order. */
  lemma BoundIsReached(window: int, limit: nat, start: int)
    requires limit >= 1 && window >= 2
    ensures var times := Bursts(window, limit, start);
            && Chronological(times)
            && Count(Admitted(times, window, limit), start + 1, start + 1 + window) == 2 * limit - 1
  {
    BurstsInOrder(window, limit, start);
    BurstsReach(window, limit, start);
  }

  // --- Requests and cleanups ---

  type Table = map<string, Bucket>

  datatype Op = Request(actor: Option<string>, ip: string, now: int) | Clean(now: int)

  datatype Decision = Passed | ActorLimited | IpLimited | Cleaned

  datatype Tables = Tables(ip: Table, actor: Table)

  datatype Config = Config(limit: nat, window: int)

  function Get(m: Table, key: string): Option<Bucket> {
    if key in m then Some(m[key]) else None
  }

  predicate Stale(m: Table, key: string, now: int, window: int) {
    key in m && m[key].start < now - 2 * window
  }

  /** The bucket of a key, if its window is not over. */
  function Current(m: Table, key: string, now: int, window: int): Option<Bucket> {
    if key in m && now - m[key].start < window then Some(m[key]) else None
  }

  /** A key stale in either table goes from both. */
  function Swept(t: Tables, now: int, window: int): Tables {
    Tables(map k | k in t.ip && !Stale(t.ip, k, now, window) && !Stale(t.actor, k, now, window) :: t.ip[k],
           map k | k in t.actor && !Stale(t.ip, k, now, window) && !Stale(t.actor, k, now, window) :: t.actor[k])
  }

  function Checked(m: Table, key: string, now: int, window: int): Table {
    m[key := Touched(Get(m, key), now, window)]
  }

  function IpStep(c: Config, t: Tables, ip: string, now: int): (Tables, Decision) {
    var after := t.(ip := Checked(t.ip, ip, now, c.window));
    (after, if after.ip[ip].count > c.limit then IpLimited else Passed)
  }

  function Step(c: Config, t: Tables, op: Op): (Tables, Decision) {
    match op
    case Clean(now) => (Swept(t, now, c.window), Cleaned)
    case Request(None, ip, now) => IpStep(c, t, ip, now)
    case Request(Some(actor), ip, now) =>
      var after := t.(actor := Checked(t.actor, actor, now, c.window));
      if after.actor[actor].count > ACTOR_LIMIT then (after, ActorLimited) else IpStep(c, after, ip, now)
  }

  function After(c: Config, t: Tables, ops: seq<Op>): Tables
    decreases |ops|
  {
    if ops == [] then t else After(c, Step(c, t, ops[0]).0, ops[1..])
  }

  /** The decisions on the requests of a history, in order. */
  function Decisions(c: Config, t: Tables, ops: seq<Op>): (r: seq<Decision>)
    ensures |r| == |WithoutCleanups(ops)|
    decreases |ops|
  {
    if ops == [] then []
    else
      var (after, decision) := Step(c, t, ops[0]);
      var rest := Decisions(c, after, ops[1..]);
      if ops[0].Clean? then rest else [decision] + rest
  }

  function WithoutCleanups(ops: seq<Op>): seq<Op> {
    if ops == [] then [] else if ops[0].Clean? then WithoutCleanups(ops[1..]) else [ops[0]] + WithoutCleanups(ops[1..])
  }

  ghost predicate InOrder(ops: seq<Op>, now: int) {
    (forall i :: 0 <= i < |ops| ==> now <= ops[i].now) && forall i, j :: 0 <= i < j < |ops| ==> ops[i].now <= ops[j].now
  }

  /** No key is stale in one table while its window in the other is still running. */
  ghost predicate Harmless(t: Tables, now: int, window: int) {
    forall k :: (Stale(t.ip, k, now, window) ==> Current(t.actor, k, now, window).None?)
                && (Stale(t.actor, k, now, window) ==> Current(t.ip, k, now, window).None?)
  }

  ghost predicate AllHarmless(c: Config, t: Tables, ops: seq<Op>)
    decreases |ops|
  {
    ops == [] || ((ops[0].Clean? ==> Harmless(t, ops[0].now, c.window))
                  && AllHarmless(c, Step(c, t, ops[0]).0, ops[1..]))
  }

  /** The same as far as any later check can tell. */
  ghost predicate SameTable(m: Table, r: Table, now: int, window: int) {
    forall k :: Current(m, k, now, window) == Current(r, k, now, window)
  }

  ghost predicate Same(t: Tables, u: Tables, now: int, window: int) {
    SameTable(t.ip, u.ip, now, window) && SameTable(t.actor, u.actor, now, window)
  }

  lemma StaysSame(m: Table, r: Table, now: int, later: int, window: int)
    requires SameTable(m, r, now, window) && now <= later
    ensures SameTable(m, r, later, window)
  {
    forall k ensures Current(m, k, later, window) == Current(r, k, later, window) {
      assert Current(m, k, now, window) == Current(r, k, now, window);
    }
  }

  lemma SameCheck(m: Table, r: Table, key: string, now: int, window: int)
    requires SameTable(m, r, now, window)
    ensures Checked(m, key, now, window)[key] == Checked(r, key, now, window)[key]
    ensures SameTable(Checked(m, key, now, window), Checked(r, key, now, window), now, window)
  {
    assert Current(m, key, now, window) == Current(r, key, now, window);
    forall k ensures Current(Checked(m, key, now, window), k, now, window) ==
      Current(Checked(r, key, now, window), k, now, window) {
      assert Current(m, k, now, window) == Current(r, k, now, window);
    }
  }

  lemma SameRequest(c: Config, t: Tables, u: Tables, op: Op)
    requires op.Request? && Same(t, u, op.now, c.window)
    ensures Step(c, t, op).1 == Step(c, u, op).1 && Same(Step(c, t, op).0, Step(c, u, op).0, op.now, c.window)
  {
    SameCheck(t.ip, u.ip, op.ip, op.now, c.window);
    if op.actor.Some? {
      SameCheck(t.actor, u.actor, op.actor.value, op.now, c.window);
    }
  }

  lemma SweptIsSame(t: Tables, u: Tables, now: int, window: int)
    requires Same(t, u, now, window) && Harmless(t, now, window) && window >= 1
    ensures Same(Swept(t, now, window), u, now, window)
  {
    var s := Swept(t, now, window);
    forall k ensures Current(s.ip, k, now, window) == Current(u.ip, k, now, window) {
      assert Current(t.ip, k, now, window) == Current(u.ip, k, now, window);
    }
    forall k ensures Current(s.actor, k, now, window) == Current(u.actor, k, now, window) {
      assert Current(t.actor, k, now, window) == Current(u.actor, k, now, window);
    }
  }

  lemma InOrderTail(ops: seq<Op>, now: int)
    requires ops != [] && InOrder(ops, now)
    ensures InOrder(ops[1..], ops[0].now) && now <= ops[0].now
  {
    assert forall i :: 0 <= i < |ops[1..]| ==> ops[1..][i] == ops[i + 1];
  }

  lemma {:induction false} SameDecisions(c: Config, t: Tables, u: Tables, ops: seq<Op>, now: int)
    requires c.window >= 1 && InOrder(ops, now) && Same(t, u, now, c.window) && AllHarmless(c, t, ops)
    ensures Decisions(c, t, ops) == Decisions(c, u, WithoutCleanups(ops))
    decreases |ops|
  {
    if ops != [] {
      var op, rest := ops[0], ops[1..];
      InOrderTail(ops, now);
      StaysSame(t.ip, u.ip, now, op.now, c.window);
      StaysSame(t.actor, u.actor, now, op.now, c.window);
      if op.Clean? {
        SweptIsSame(t, u, op.now, c.window);
        SameDecisions(c, Swept(t, op.now, c.window), u, rest, op.now);
      } else {
        SameRequest(c, t, u, op);
        SameDecisions(c, Step(c, t, op).0, Step(c, u, op).0, rest, op.now);
        assert ([op] + WithoutCleanups(rest))[1..] == WithoutCleanups(rest);
      }
    }
  }

  /**
    Cleanups, wherever they come, change no decision, as long as none finds a key stale in one table and
    running in the other.
   */
  lemma CleanupIsInvisible(c: Config, t: Tables, ops: seq<Op>, now: int)
    requires c.window >= 1 && InOrder(ops, now) && AllHarmless(c, t, ops)
    ensures Decisions(c, t, ops) == Decisions(c, t, WithoutCleanups(ops))
  {
    SameDecisions(c, t, t, ops, now);
  }

  // --- When no cleanup can be noticed ---

  predicate Separated(t: Tables, isActor: string -> bool) {
    (forall k :: k in t.ip ==> !isActor(k)) && forall k :: k in t.actor ==> isActor(k)
  }

  ghost predicate AllSeparated(ops: seq<Op>, isActor: string -> bool) {
    forall i :: 0 <= i < |ops| && ops[i].Request? ==>
                  !isActor(ops[i].ip) && (ops[i].actor.Some? ==> isActor(ops[i].actor.value))
  }

  lemma {:induction false} SeparatedIsHarmless(c: Config, t: Tables, ops: seq<Op>, isActor: string -> bool)
    requires Separated(t, isActor) && AllSeparated(ops, isActor)
    ensures AllHarmless(c, t, ops)
    decreases |ops|
  {
    if ops != [] {
      assert forall i :: 0 <= i < |ops[1..]| ==> ops[1..][i] == ops[i + 1];
      SeparatedIsHarmless(c, Step(c, t, ops[0]).0, ops[1..], isActor);
    }
  }

  /** If no address is also an actor's key, cleanups anywhere in a run change no decision. */
  lemma SeparateKeysHideCleanups(c: Config, ops: seq<Op>, isActor: string -> bool, now: int)
    requires c.window >= 1 && InOrder(ops, now) && AllSeparated(ops, isActor)
    ensures Decisions(c, Tables(map[], map[]), ops) == Decisions(c, Tables(map[], map[]), WithoutCleanups(ops))
  {
    SeparatedIsHarmless(c, Tables(map[], map[]), ops, isActor);
    CleanupIsInvisible(c, Tables(map[], map[]), ops, now);
  }

  predicate OnlyRequests(ops: seq<Op>) {
    forall i :: 0 <= i < |ops| ==> ops[i].Request?
  }

  lemma {:induction false} NothingToClean(c: Config, t: Tables, ops: seq<Op>)
    requires OnlyRequests(ops)
    ensures WithoutCleanups(ops) == ops && AllHarmless(c, t, ops)
    decreases |ops|
  {
    if ops != [] {
      NothingToClean(c, Step(c, t, ops[0]).0, ops[1..]);
    }
  }

  /** What a running window has counted. */
  function Base(m: Table, key: string, now: int, window: int): nat {
    if Current(m, key, now, window).Some? then m[key].count else 0
  }

  function Repeat(n: nat, op: Op): seq<Op> {
    seq(n, _ => op)
  }

  lemma {:induction false} ActorRunsOut(c: Config, t: Tables, key: string, ip: string, now: int, n: nat)
    requires c.window >= 1 && n >= 1
    ensures var decisions := Decisions(c, t, Repeat(n, Request(Some(key), ip, now)));
            |decisions| == n && (decisions[n - 1] == ActorLimited <==>
                                 Base(t.actor, key, now, c.window) + n > ACTOR_LIMIT)
    decreases n
  {
    var op := Request(Some(key), ip, now);
    var ops, after := Repeat(n, op), Step(c, t, op).0;
    assert ops[0] == op && ops[1..] == Repeat(n - 1, op);
    assert Base(after.actor, key, now, c.window) == Base(t.actor, key, now, c.window) + 1;
    if n > 1 {
      ActorRunsOut(c, after, key, ip, now, n - 1);
    }
  }

  lemma {:induction false} AddressRunsOut(c: Config, t: Tables, ip: string, now: int, n: nat)
    requires c.window >= 1 && n >= 1
    ensures var decisions := Decisions(c, t, Repeat(n, Request(None, ip, now)));
            |decisions| == n && (decisions[n - 1] == IpLimited <==> Base(t.ip, ip, now, c.window) + n > c.limit)
    decreases n
  {
    var op := Request(None, ip, now);
    var ops, after := Repeat(n, op), Step(c, t, op).0;
    assert ops[0] == op && ops[1..] == Repeat(n - 1, op);
    assert Base(after.ip, ip, now, c.window) == Base(t.ip, ip, now, c.window) + 1;
    if n > 1 {
      AddressRunsOut(c, after, ip, now, n - 1);
    }
  }

  /** Every bucket has counted the check that made it. */
  predicate Counted(t: Tables) {
    (forall k :: k in t.ip ==> t.ip[k].count >= 1) && forall k :: k in t.actor ==> t.actor[k].count >= 1
  }

  lemma {:induction false} AlwaysCounted(c: Config, t: Tables, ops: seq<Op>)
    requires Counted(t)
    ensures Counted(After(c, t, ops))
    decreases |ops|
  {
    if ops != [] {
      AlwaysCounted(c, Step(c, t, ops[0]).0, ops[1..]);
    }
  }

  /** How many requests use up what a window has left. */
  function Enough(base: nat, limit: nat): (n: nat)
    requires base >= 1 && limit >= 1
    ensures 1 <= n <= limit < base + n
  {
    if base >= limit then 1 else limit + 1 - base
  }

  /** A cleanup that finds a key stale in one table and running in the other is noticed by later requests. */
  lemma HarmIsVisible(c: Config, t: Tables, now: int) returns (ops: seq<Op>)
    requires c.window >= 1 && c.limit >= 1 && Counted(t) && !Harmless(t, now, c.window)
    ensures InOrder(ops, now) && OnlyRequests(ops) && Decisions(c, Swept(t, now, c.window), ops) != Decisions(c, t, ops)
  {
    var s := Swept(t, now, c.window);
    if k :| Stale(t.ip, k, now, c.window) && Current(t.actor, k, now, c.window).Some? {
      var n := Enough(Base(t.actor, k, now, c.window), ACTOR_LIMIT);
      ops := Repeat(n, Request(Some(k), k, now));
      assert Base(s.actor, k, now, c.window) == 0;
      ActorRunsOut(c, t, k, k, now, n);
      ActorRunsOut(c, s, k, k, now, n);
    } else {
      var k :| Stale(t.actor, k, now, c.window) && Current(t.ip, k, now, c.window).Some?;
      var n := Enough(Base(t.ip, k, now, c.window), c.limit);
      ops := Repeat(n, Request(None, k, now));
      assert Base(s.ip, k, now, c.window) == 0;
      AddressRunsOut(c, t, k, now, n);
      AddressRunsOut(c, s, k, now, n);
    }
  }

  /** It takes one string used as an address and, two windows later, as an actor's key. */
  lemma HarmIsReachable(c: Config, key: string, other: string)
    requires c.window >= 1 && c.limit >= 1 && key != other
    ensures var ops := [Request(None, key, 0), Request(Some(key), other, 3 * c.window)];
            var t := After(c, Tables(map[], map[]), ops);
            InOrder(ops, 0) && Counted(t) && !Harmless(t, 3 * c.window, c.window)
  {
    var first, second := Request(None, key, 0), Request(Some(key), other, 3 * c.window);
    var ops := [first, second];
    var t0 := Tables(map[], map[]);
    var t1 := Step(c, t0, first).0;
    var t2 := Step(c, t1, second).0;
    assert ops[1..] == [second] && [second][1..] == [];
    assert After(c, t1, [second]) == After(c, t2, []) == t2;
    assert Stale(t2.ip, key, 3 * c.window, c.window) && Current(t2.actor, key, 3 * c.window, c.window).Some?;
  }

  ghost predicate Unnoticed(c: Config, t: Tables, now: int) {
    forall ops :: InOrder(ops, now) && OnlyRequests(ops) ==>
      Decisions(c, Swept(t, now, c.window), ops) == Decisions(c, t, ops)
  }

  /** No later request notices a cleanup exactly when it is harmless. */
  lemma UnnoticedIffHarmless(c: Config, t: Tables, now: int)
    requires c.window >= 1 && c.limit >= 1 && Counted(t)
    ensures Unnoticed(c, t, now) <==> Harmless(t, now, c.window)
  {
    if Harmless(t, now, c.window) {
      var s := Swept(t, now, c.window);
      SweptIsSame(t, t, now, c.window);
      forall ops | InOrder(ops, now) && OnlyRequests(ops) ensures Decisions(c, s, ops) == Decisions(c, t, ops) {
        NothingToClean(c, s, ops);
        SameDecisions(c, s, t, ops, now);
      }
    } else {
      var ops := HarmIsVisible(c, t, now);
    }
  }

  // --- The bound, over requests ---

  datatype Which = Ip | Actor

  function TableOf(t: Tables, which: Which): Table {
    if which == Ip then t.ip else t.actor
  }

  function LimitOf(c: Config, which: Which): nat {
    if which == Ip then c.limit else ACTOR_LIMIT
  }

  /** Whether a request's key was checked in a table. */
  predicate Checks(op: Op, decision: Decision, which: Which, key: string) {
    op.Request? && if which == Ip then op.ip == key && decision != ActorLimited else op.actor == Some(key)
  }

  predicate Passes(decision: Decision, which: Which) {
    if which == Ip then decision == Passed else decision != ActorLimited
  }

  /** The times at which a key was checked, or checked and admitted, given the decisions. */
  function TimesOf(requests: seq<Op>, decisions: seq<Decision>, which: Which, key: string, admittedOnly: bool): seq<int>
    requires |requests| == |decisions|
  {
    if requests == [] then []
    else
      var rest := TimesOf(requests[1..], decisions[1..], which, key, admittedOnly);
      if Checks(requests[0], decisions[0], which, key) && (admittedOnly ==> Passes(decisions[0], which))
        then [requests[0].now] + rest
      else rest
  }

  /** The times at which a key was admitted in a run, cleanups or not. */
  function PassedTimes(c: Config, t: Tables, ops: seq<Op>, which: Which, key: string): seq<int> {
    TimesOf(WithoutCleanups(ops), Decisions(c, t, ops), which, key, true)
  }

  lemma StepTouches(c: Config, t: Tables, op: Op, which: Which, key: string)
    requires op.Request?
    ensures var (after, decision) := Step(c, t, op);
            var bucket := Get(TableOf(t, which), key);
            if Checks(op, decision, which, key) then
              && Get(TableOf(after, which), key) == Some(Touched(bucket, op.now, c.window))
              && (Passes(decision, which) <==> Touched(bucket, op.now, c.window).count <= LimitOf(c, which))
            else Get(TableOf(after, which), key) == bucket
  {
  }

  lemma AdmittedSnoc(past: seq<int>, now: int, window: int, limit: nat)
    ensures AfterChecks(past + [now], window) == Some(Touched(AfterChecks(past, window), now, window))
    ensures Admitted(past + [now], window, limit) ==
            if Touched(AfterChecks(past, window), now, window).count <= limit then Admitted(past, window, limit) + [now]
            else Admitted(past, window, limit)
  {
    assert (past + [now])[..|past|] == past;
  }

  /** What passes for a key is what its own bucket admits of its own checks. */
  lemma {:induction false} KeysAreIndependent(c: Config, t: Tables, ops: seq<Op>, which: Which, key: string,
                                              past: seq<int>)
    requires OnlyRequests(ops) && Get(TableOf(t, which), key) == AfterChecks(past, c.window)
    requires |Decisions(c, t, ops)| == |ops|
    ensures var decisions := Decisions(c, t, ops);
            Admitted(past + TimesOf(ops, decisions, which, key, false), c.window, LimitOf(c, which))
            == Admitted(past, c.window, LimitOf(c, which)) + TimesOf(ops, decisions, which, key, true)
    decreases |ops|
  {
    if ops == [] {
      assert past + [] == past;
    } else {
      var (after, decision) := Step(c, t, ops[0]);
      var rest := Decisions(c, after, ops[1..]);
      assert Decisions(c, t, ops)[1..] == rest;
      StepTouches(c, t, ops[0], which, key);
      var now, checks, passes := ops[0].now, TimesOf(ops[1..], rest, which, key, false),
        TimesOf(ops[1..], rest, which, key, true);
      if Checks(ops[0], decision, which, key) {
        AdmittedSnoc(past, now, c.window, LimitOf(c, which));
        KeysAreIndependent(c, after, ops[1..], which, key, past + [now]);
        Associate(past, [now], checks);
        Associate(Admitted(past, c.window, LimitOf(c, which)), [now], passes);
      } else {
        KeysAreIndependent(c, after, ops[1..], which, key, past);
      }
    }
  }

  lemma {:induction false} TimesAreChronological(requests: seq<Op>, decisions: seq<Decision>, which: Which,
                                                 key: string, now: int)
    requires |requests| == |decisions| && InOrder(requests, now)
    ensures var times := TimesOf(requests, decisions, which, key, false);
            Chronological(times) && forall i :: 0 <= i < |times| ==> now <= times[i]
  {
    if requests != [] {
      InOrderTail(requests, now);
      TimesAreChronological(requests[1..], decisions[1..], which, key, requests[0].now);
    }
  }

  lemma {:induction false} WithoutCleanupsInOrder(ops: seq<Op>, now: int)
    requires InOrder(ops, now)
    ensures InOrder(WithoutCleanups(ops), now) && OnlyRequests(WithoutCleanups(ops))
  {
    if ops != [] {
      InOrderTail(ops, now);
      WithoutCleanupsInOrder(ops[1..], ops[0].now);
    }
  }

  lemma NothingBefore(times: seq<int>)
    ensures [] + times == times
  {
  }

  lemma PassedIsAdmitted(c: Config, t: Tables, requests: seq<Op>, which: Which, key: string)
    requires OnlyRequests(requests) && |Decisions(c, t, requests)| == |requests| && key !in TableOf(t, which)
    ensures var decisions := Decisions(c, t, requests);
            TimesOf(requests, decisions, which, key, true) ==
            Admitted(TimesOf(requests, decisions, which, key, false), c.window, LimitOf(c, which))
  {
    var decisions := Decisions(c, t, requests);
    KeysAreIndependent(c, t, requests, which, key, []);
    NothingBefore(TimesOf(requests, decisions, which, key, false));
    NothingBefore(TimesOf(requests, decisions, which, key, true));
  }

  lemma AdmittedIsBounded(requests: seq<Op>, decisions: seq<Decision>, which: Which, key: string, now: int,
                          window: int, limit: nat, from: int)
    requires |requests| == |decisions| && InOrder(requests, now) && window >= 1 && limit >= 1
    ensures Count(Admitted(TimesOf(requests, decisions, which, key, false), window, limit), from,
                  from + window) <= 2 * limit - 1
  {
    TimesAreChronological(requests, decisions, which, key, now);
    WindowIsBounded(TimesOf(requests, decisions, which, key, false), window, limit, from);
  }

  /**
    In a run with cleanups anywhere, none of them harmful, no interval of one window's length lets through
    twice the limit for an address, or for an actor.
   */
  lemma RequestsAreBounded(c: Config, ops: seq<Op>, which: Which, key: string, now: int, from: int)
    requires c.window >= 1 && c.limit >= 1 && InOrder(ops, now) && AllHarmless(c, Tables(map[], map[]), ops)
    ensures Count(PassedTimes(c, Tables(map[], map[]), ops, which, key), from, from + c.window)
            <= 2 * LimitOf(c, which) - 1
  {
    var start := Tables(map[], map[]);
    CleanupIsInvisible(c, start, ops, now);
    WithoutCleanupsInOrder(ops, now);
    PassedIsAdmitted(c, start, WithoutCleanups(ops), which, key);
    AdmittedIsBounded(WithoutCleanups(ops), Decisions(c, start, ops), which, key, now, c.window, LimitOf(c, which),
                      from);
  }

  // --- In plain figures ---

  /** At one moment an actor with no running window gets five thousand requests through, and no more. */
  lemma ActorsGetFiveThousand(c: Config, t: Tables, key: string, ip: string, now: int, n: nat)
    requires c.window >= 1 && n >= 1 && Current(t.actor, key, now, c.window).None?
    ensures var decisions := Decisions(c, t, Repeat(n, Request(Some(key), ip, now)));
            |decisions| == n && (decisions[n - 1] == ActorLimited <==> n > 5000)
  {
    ActorRunsOut(c, t, key, ip, now, n);
  }

  /** An address with no running window gets as many as configured. */
  lemma AddressesGetTheLimit(c: Config, t: Tables, ip: string, now: int, n: nat)
    requires c.window >= 1 && n >= 1 && Current(t.ip, ip, now, c.window).None?
    ensures var decisions := Decisions(c, t, Repeat(n, Request(None, ip, now)));
            |decisions| == n && (decisions[n - 1] == IpLimited <==> n > c.limit)
  {
    AddressRunsOut(c, t, ip, now, n);
  }

  /** The actor's limit is looked at first: a request it stops does not count for the address. */
  lemma ActorStopsFirst(c: Config, t: Tables, actor: string, ip: string, now: int)
    ensures var (after, decision) := Step(c, t, Request(Some(actor), ip, now));
            decision == ActorLimited ==> after.ip == t.ip
  {
  }
}
