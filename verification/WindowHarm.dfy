/**
  What the limiter admits in runs with any cleanups, harmful ones too: one that deletes a running bucket
  gives its key a new window, but not twice within two windows.
 */
module WindowHarm {
  import opened Text
  import opened WindowLimits

  function Alive(b: Option<Bucket>, now: int, window: int): Option<Bucket> {
    if b.Some? && now - b.value.start < window then b else None
  }

  function Other(which: Which): Which {
    if which == Ip then Actor else Ip
  }

  // --- The ledger of a key ---

  /** What a key has been admitted before its last harmful cleanup, its checks since, and when that was. */
  datatype Ledger = Ledger(before: seq<int>, checks: seq<int>, since: int)

  function PassedIn(l: Ledger, window: int, limit: nat): seq<int> {
    l.before + Admitted(l.checks, window, limit)
  }

  ghost predicate AllBetween(times: seq<int>, from: int, to: int) {
    forall i :: 0 <= i < |times| ==> from <= times[i] <= to
  }

  ghost predicate NoneAfter(times: seq<int>, to: int) {
    forall i :: 0 <= i < |times| ==> times[i] <= to
  }

  /** A ledger's times are in order, and its earlier ones within the bound of an interval. */
  ghost predicate InBounds(l: Ledger, now: int, window: int, limit: nat, from: int) {
    && Chronological(l.checks) && AllBetween(l.checks, l.since, now) && l.since <= now && NoneAfter(l.before, l.since)
    && Count(l.before, from, from + window) <= if l.since < from + window then 2 * limit - 1 else 3 * limit - 1
  }

  lemma {:induction false} CountConcat(a: seq<int>, b: seq<int>, from: int, to: int)
    ensures Count(a + b, from, to) == Count(a, from, to) + Count(b, from, to)
  {
    if b == [] {
      assert a + b == a;
    } else {
      var before, last := b[..|b| - 1], b[|b| - 1];
      CountConcat(a, before, from, to);
      CountSnoc(a + before, last, from, to);
      assert a + b == a + before + [last];
    }
  }

  lemma {:induction false} NoneCounted(times: seq<int>, from: int, to: int)
    requires forall i :: 0 <= i < |times| ==> !(from <= times[i] < to)
    ensures Count(times, from, to) == 0
  {
    if times != [] {
      NoneCounted(times[..|times| - 1], from, to);
    }
  }

  lemma {:induction false} AdmittedAreChecks(checks: seq<int>, window: int, limit: nat)
    ensures forall t :: t in Admitted(checks, window, limit) ==> t in checks
  {
    if checks != [] {
      var before, now := checks[..|checks| - 1], checks[|checks| - 1];
      AdmittedAreChecks(before, window, limit);
      assert checks == before + [now];
    }
  }

  lemma AdmittedBetween(checks: seq<int>, window: int, limit: nat, from: int, to: int)
    requires AllBetween(checks, from, to)
    ensures AllBetween(Admitted(checks, window, limit), from, to)
  {
    var admitted := Admitted(checks, window, limit);
    AdmittedAreChecks(checks, window, limit);
    forall i | 0 <= i < |admitted| ensures from <= admitted[i] <= to {
      assert admitted[i] in checks;
    }
  }

  /** Checks within one window's length are all of the first window. */
  lemma {:induction false} OneWindowOnly(checks: seq<int>, window: int, limit: nat, from: int)
    requires Chronological(checks) && checks != [] && AllBetween(checks, from, from + window - 1)
    ensures AfterChecks(checks, window) == Some(Bucket(|checks|, checks[0]))
    ensures |Admitted(checks, window, limit)| <= limit && |Admitted(checks, window, limit)| <= |checks|
  {
    var before := checks[..|checks| - 1];
    if before != [] {
      OneWindowOnly(before, window, limit, from);
    }
  }

  lemma {:induction false} CountAtMostAll(times: seq<int>, from: int, to: int)
    ensures Count(times, from, to) <= |times|
  {
    if times != [] {
      CountAtMostAll(times[..|times| - 1], from, to);
    }
  }

  /** A key without a bucket is admitted at most the limit within one window's length. */
  lemma {:induction false} FreshIsBounded(checks: seq<int>, window: int, limit: nat, from: int, now: int)
    requires Chronological(checks) && AllBetween(checks, from, now)
    ensures Count(Admitted(checks, window, limit), from, from + window) <= limit
  {
    if checks != [] {
      var before, last := checks[..|checks| - 1], checks[|checks| - 1];
      if last < from + window {
        OneWindowOnly(checks, window, limit, from);
        CountAtMostAll(Admitted(checks, window, limit), from, from + window);
      } else {
        FreshIsBounded(before, window, limit, from, now);
        CountSnoc(Admitted(before, window, limit), last, from, from + window);
      }
    }
  }

  lemma EarlierIsNotCounted(l: Ledger, now: int, window: int, limit: nat, from: int)
    requires InBounds(l, now, window, limit, from) && l.since < from
    ensures Count(l.before, from, from + window) == 0
  {
    NoneCounted(l.before, from, from + window);
  }

  lemma LaterIsNotCounted(l: Ledger, now: int, window: int, limit: nat, from: int)
    requires InBounds(l, now, window, limit, from) && l.since >= from + window
    ensures Count(Admitted(l.checks, window, limit), from, from + window) == 0
  {
    AdmittedBetween(l.checks, window, limit, l.since, now);
    NoneCounted(Admitted(l.checks, window, limit), from, from + window);
  }

  /** With one harmful cleanup in the interval there is room for one more window's limit. */
  lemma LedgerIsBounded(l: Ledger, now: int, window: int, limit: nat, from: int)
    requires InBounds(l, now, window, limit, from) && window >= 1 && limit >= 1
    ensures Count(PassedIn(l, window, limit), from, from + window) <= 3 * limit - 1
    ensures l.since < from ==> Count(PassedIn(l, window, limit), from, from + window) <= 2 * limit - 1
  {
    CountConcat(l.before, Admitted(l.checks, window, limit), from, from + window);
    if l.since < from {
      EarlierIsNotCounted(l, now, window, limit, from);
      WindowIsBounded(l.checks, window, limit, from);
    } else if l.since < from + window {
      assert AllBetween(l.checks, from, now);
      FreshIsBounded(l.checks, window, limit, from, now);
    } else {
      LaterIsNotCounted(l, now, window, limit, from);
    }
  }

  /** A harmful cleanup comes more than two windows after the last. */
  lemma ResetInBounds(l: Ledger, now: int, window: int, limit: nat, from: int)
    requires InBounds(l, now, window, limit, from) && window >= 1 && limit >= 1 && now > l.since + 2 * window
    ensures InBounds(Ledger(PassedIn(l, window, limit), [], now), now, window, limit, from)
  {
    LedgerIsBounded(l, now, window, limit, from);
    AdmittedBetween(l.checks, window, limit, l.since, now);
  }

  lemma CheckInBounds(l: Ledger, now: int, window: int, limit: nat, from: int)
    requires InBounds(l, now, window, limit, from)
    ensures InBounds(l.(checks := l.checks + [now]), now, window, limit, from)
  {
  }

  // --- The ledger and the tables ---

  ghost predicate StartsSince(b: Option<Bucket>, since: int) {
    b.Some? ==> b.value.start >= since
  }

  /** A key's two buckets know of its checks since the last harmful cleanup, and of nothing earlier. */
  ghost predicate Mirrors(own: Option<Bucket>, other: Option<Bucket>, l: Ledger, now: int, window: int) {
    && Alive(own, now, window) == Alive(AfterChecks(l.checks, window), now, window)
    && StartsSince(own, l.since) && StartsSince(other, l.since)
  }

  ghost predicate Reflects(t: Tables, which: Which, key: string, l: Ledger, now: int, window: int) {
    Mirrors(Get(TableOf(t, which), key), Get(TableOf(t, Other(which)), key), l, now, window)
  }

  lemma ReflectsLater(t: Tables, which: Which, key: string, l: Ledger, now: int, later: int, window: int)
    requires Reflects(t, which, key, l, now, window) && now <= later
    ensures Reflects(t, which, key, l, later, window)
  {
  }

  /** Whether a cleanup deletes the key's running bucket. */
  predicate Harms(t: Tables, which: Which, key: string, now: int, window: int) {
    Current(TableOf(t, which), key, now, window).Some? && Stale(TableOf(t, Other(which)), key, now, window)
  }

  lemma CleanReflects(t: Tables, which: Which, key: string, l: Ledger, now: int, window: int)
    requires Reflects(t, which, key, l, now, window) && window >= 1
    ensures var s := Swept(t, now, window);
            if Harms(t, which, key, now, window) then
              && now > l.since + 2 * window
              && forall before :: Reflects(s, which, key, Ledger(before, [], now), now, window)
            else Reflects(s, which, key, l, now, window)
  {
  }

  /** The ledger after one more check, if there is one. */
  function Noted(l: Ledger, checked: bool, now: int): Ledger {
    if checked then l.(checks := l.checks + [now]) else l
  }

  /** A bucket after a request, which may have checked it. */
  ghost predicate MaybeTouched(b: Option<Bucket>, checked: bool, now: int, window: int, after: Option<Bucket>) {
    after == if checked then Some(Touched(b, now, window)) else b
  }

  lemma SameTouch(a: Option<Bucket>, b: Option<Bucket>, now: int, window: int)
    requires Alive(a, now, window) == Alive(b, now, window)
    ensures Touched(a, now, window) == Touched(b, now, window)
  {
  }

  lemma MirrorsRequest(own: Option<Bucket>, other: Option<Bucket>, ownAfter: Option<Bucket>, otherAfter: Option<Bucket>,
                       l: Ledger, checked: bool, otherChecked: bool, now: int, window: int)
    requires Mirrors(own, other, l, now, window) && l.since <= now
    requires MaybeTouched(own, checked, now, window, ownAfter)
    requires MaybeTouched(other, otherChecked, now, window, otherAfter)
    ensures Mirrors(ownAfter, otherAfter, Noted(l, checked, now), now, window)
  {
    SameTouch(own, AfterChecks(l.checks, window), now, window);
    AdmittedSnoc(l.checks, now, window, 0);
  }

  lemma RequestReflects(c: Config, t: Tables, op: Op, which: Which, key: string, l: Ledger)
    requires op.Request? && c.window >= 1 && Reflects(t, which, key, l, op.now, c.window) && l.since <= op.now
    ensures var (after, decision) := Step(c, t, op);
            Reflects(after, which, key, Noted(l, Checks(op, decision, which, key), op.now), op.now, c.window)
  {
    var (after, decision) := Step(c, t, op);
    StepTouches(c, t, op, which, key);
    StepTouches(c, t, op, Other(which), key);
    MirrorsRequest(Get(TableOf(t, which), key), Get(TableOf(t, Other(which)), key),
                   Get(TableOf(after, which), key), Get(TableOf(after, Other(which)), key),
                   l, Checks(op, decision, which, key), Checks(op, decision, Other(which), key), op.now, c.window);
  }

  /** What one operation adds to the admitted times. */
  function PassedNow(c: Config, t: Tables, op: Op, which: Which, key: string): seq<int> {
    if op.Request? && Checks(op, Step(c, t, op).1, which, key) && Passes(Step(c, t, op).1, which) then [op.now] else []
  }

  lemma RequestPasses(c: Config, t: Tables, op: Op, which: Which, key: string, l: Ledger)
    requires op.Request? && c.window >= 1 && Reflects(t, which, key, l, op.now, c.window)
    ensures PassedIn(Noted(l, Checks(op, Step(c, t, op).1, which, key), op.now), c.window, LimitOf(c, which)) ==
            PassedIn(l, c.window, LimitOf(c, which)) + PassedNow(c, t, op, which, key)
  {
    StepTouches(c, t, op, which, key);
    SameTouch(Get(TableOf(t, which), key), AfterChecks(l.checks, c.window), op.now, c.window);
    AdmittedSnoc(l.checks, op.now, c.window, LimitOf(c, which));
    Associate(l.before, Admitted(l.checks, c.window, LimitOf(c, which)), [op.now]);
    var passed := PassedIn(l, c.window, LimitOf(c, which));
    assert passed + [] == passed;
  }

  lemma PassedCons(c: Config, t: Tables, ops: seq<Op>, which: Which, key: string)
    requires ops != []
    ensures PassedTimes(c, t, ops, which, key) ==
            PassedNow(c, t, ops[0], which, key) + PassedTimes(c, Step(c, t, ops[0]).0, ops[1..], which, key)
  {
    if ops[0].Request? {
      var after := Step(c, t, ops[0]).0;
      assert WithoutCleanups(ops)[1..] == WithoutCleanups(ops[1..]);
      assert Decisions(c, t, ops)[1..] == Decisions(c, after, ops[1..]);
    }
  }

  /** A ledger stands for the tables and is within its bounds. */
  ghost predicate Holds(c: Config, t: Tables, which: Which, key: string, l: Ledger, now: int, from: int) {
    Reflects(t, which, key, l, now, c.window) && InBounds(l, now, c.window, LimitOf(c, which), from)
  }

  lemma HoldsLater(c: Config, t: Tables, which: Which, key: string, l: Ledger, now: int, later: int, from: int)
    requires Holds(c, t, which, key, l, now, from) && now <= later
    ensures Holds(c, t, which, key, l, later, from)
  {
    ReflectsLater(t, which, key, l, now, later, c.window);
  }

  lemma CleanupKeepsLedger(c: Config, t: Tables, which: Which, key: string, l: Ledger, now: int, from: int)
    returns (next: Ledger)
    requires c.window >= 1 && c.limit >= 1 && Holds(c, t, which, key, l, now, from)
    ensures Holds(c, Swept(t, now, c.window), which, key, next, now, from)
    ensures PassedIn(next, c.window, LimitOf(c, which)) == PassedIn(l, c.window, LimitOf(c, which))
  {
    CleanReflects(t, which, key, l, now, c.window);
    if Harms(t, which, key, now, c.window) {
      next := Ledger(PassedIn(l, c.window, LimitOf(c, which)), [], now);
      ResetInBounds(l, now, c.window, LimitOf(c, which), from);
    } else {
      next := l;
    }
  }

  /** One operation of the run: the ledger goes on and stays within its bounds. */
  lemma OpKeepsLedger(c: Config, t: Tables, op: Op, which: Which, key: string, l: Ledger, from: int)
    returns (next: Ledger)
    requires c.window >= 1 && c.limit >= 1 && Holds(c, t, which, key, l, op.now, from)
    ensures Holds(c, Step(c, t, op).0, which, key, next, op.now, from)
    ensures PassedIn(next, c.window, LimitOf(c, which)) ==
            PassedIn(l, c.window, LimitOf(c, which)) + PassedNow(c, t, op, which, key)
  {
    if op.Request? {
      next := Noted(l, Checks(op, Step(c, t, op).1, which, key), op.now);
      RequestReflects(c, t, op, which, key, l);
      RequestPasses(c, t, op, which, key, l);
      CheckInBounds(l, op.now, c.window, LimitOf(c, which), from);
    } else {
      next := CleanupKeepsLedger(c, t, which, key, l, op.now, from);
      var passed := PassedIn(l, c.window, LimitOf(c, which));
      assert passed + [] == passed;
    }
  }

  lemma {:induction false} RunIsBounded(c: Config, t: Tables, ops: seq<Op>, which: Which, key: string, l: Ledger,
                                        now: int, from: int)
    requires c.window >= 1 && c.limit >= 1 && InOrder(ops, now) && Holds(c, t, which, key, l, now, from)
    ensures Count(PassedIn(l, c.window, LimitOf(c, which)) + PassedTimes(c, t, ops, which, key), from, from + c.window)
            <= 3 * LimitOf(c, which) - 1
    decreases |ops|
  {
    var passed := PassedIn(l, c.window, LimitOf(c, which));
    if ops == [] {
      assert passed + [] == passed;
      LedgerIsBounded(l, now, c.window, LimitOf(c, which), from);
    } else {
      InOrderTail(ops, now);
      HoldsLater(c, t, which, key, l, now, ops[0].now, from);
      var next := OpKeepsLedger(c, t, ops[0], which, key, l, from);
      RunIsBounded(c, Step(c, t, ops[0]).0, ops[1..], which, key, next, ops[0].now, from);
      PassedCons(c, t, ops, which, key);
      Associate(passed, PassedNow(c, t, ops[0], which, key),
                PassedTimes(c, Step(c, t, ops[0]).0, ops[1..], which, key));
    }
  }

  /**
    Whatever cleanups come, harmful ones too, no interval of one window's length lets through three times
    the limit for an address, or for an actor.
   */
  lemma EveryRunIsBounded(c: Config, ops: seq<Op>, which: Which, key: string, now: int, from: int)
    requires c.window >= 1 && c.limit >= 1 && InOrder(ops, now)
    ensures Count(PassedTimes(c, Tables(map[], map[]), ops, which, key), from, from + c.window)
            <= 3 * LimitOf(c, which) - 1
  {
    var start, l := Tables(map[], map[]), Ledger([], [], now);
    RunIsBounded(c, start, ops, which, key, l, now, from);
    var passed := PassedTimes(c, start, ops, which, key);
    assert PassedIn(l, c.window, LimitOf(c, which)) + passed == passed;
  }

  // --- The bound is reached ---

  /** A request that checks the key as an address or as an actor. */
  function RequestFor(which: Which, key: string, other: string, now: int): Op {
    if which == Ip then Request(None, key, now) else Request(Some(key), other, now)
  }

  function RequestsFor(which: Which, key: string, other: string, times: seq<int>): (ops: seq<Op>)
    ensures |ops| == |times| && forall i :: 0 <= i < |times| ==> ops[i] == RequestFor(which, key, other, times[i])
  {
    seq(|times|, i requires 0 <= i < |times| => RequestFor(which, key, other, times[i]))
  }

  lemma RequestsTail(which: Which, key: string, other: string, times: seq<int>)
    requires times != []
    ensures RequestsFor(which, key, other, times)[1..] == RequestsFor(which, key, other, times[1..])
  {
  }

  /** Requests for a key are all checks of it, and leave the other table's bucket of the key alone. */
  lemma {:induction false} RequestsCheck(c: Config, t: Tables, which: Which, key: string, other: string,
                                         times: seq<int>)
    requires key != other
    ensures var ops := RequestsFor(which, key, other, times);
            && OnlyRequests(ops) && WithoutCleanups(ops) == ops
            && TimesOf(ops, Decisions(c, t, ops), which, key, false) == times
            && Get(TableOf(After(c, t, ops), Other(which)), key) == Get(TableOf(t, Other(which)), key)
    decreases |times|
  {
    var ops := RequestsFor(which, key, other, times);
    NothingToClean(c, t, ops);
    if times != [] {
      var after := Step(c, t, ops[0]).0;
      RequestsTail(which, key, other, times);
      RequestsCheck(c, after, which, key, other, times[1..]);
      StepTouches(c, t, ops[0], which, key);
      StepTouches(c, t, ops[0], Other(which), key);
      assert Decisions(c, t, ops)[1..] == Decisions(c, after, ops[1..]);
      assert times == [times[0]] + times[1..];
    }
  }

  /** So a key without a bucket is admitted what its own window admits. */
  lemma FreshRequestsPass(c: Config, t: Tables, which: Which, key: string, other: string, times: seq<int>)
    requires key != other && key !in TableOf(t, which)
    ensures PassedTimes(c, t, RequestsFor(which, key, other, times), which, key) ==
            Admitted(times, c.window, LimitOf(c, which))
  {
    RequestsCheck(c, t, which, key, other, times);
    PassedIsAdmitted(c, t, RequestsFor(which, key, other, times), which, key);
  }

  lemma {:induction false} PassedConcat(c: Config, t: Tables, a: seq<Op>, b: seq<Op>, which: Which, key: string)
    ensures PassedTimes(c, t, a + b, which, key) ==
            PassedTimes(c, t, a, which, key) + PassedTimes(c, After(c, t, a), b, which, key)
    decreases |a|
  {
    if a == [] {
      assert a + b == b;
    } else {
      var after := Step(c, t, a[0]).0;
      PassedConcat(c, after, a[1..], b, which, key);
      assert (a + b)[0] == a[0] && (a + b)[1..] == a[1..] + b;
      PassedCons(c, t, a + b, which, key);
      PassedCons(c, t, a, which, key);
      Associate(PassedNow(c, t, a[0], which, key), PassedTimes(c, after, a[1..], which, key),
                PassedTimes(c, After(c, t, a), b, which, key));
    }
  }

  lemma SweptAway(c: Config, t: Tables, which: Which, key: string, now: int)
    requires Stale(TableOf(t, Other(which)), key, now, c.window)
    ensures key !in TableOf(Swept(t, now, c.window), which)
  {
  }

  /** An old check of the key in the other table, and checks in its own. */
  function OldThen(which: Which, key: string, other: string, times: seq<int>): seq<Op> {
    [RequestFor(Other(which), key, other, 0)] + RequestsFor(which, key, other, times)
  }

  function BeforeHarm(c: Config, which: Which, key: string, other: string): seq<Op>
    requires c.limit >= 1
  {
    OldThen(which, key, other, Bursts(c.window, LimitOf(c, which), 3 * c.window))
  }

  /** A cleanup, and as many checks again. */
  function FromHarm(c: Config, which: Which, key: string, other: string): seq<Op> {
    [Clean(4 * c.window)] + RequestsFor(which, key, other, Repeated(LimitOf(c, which), 4 * c.window))
  }

  lemma PassedAfter(c: Config, t: Tables, op: Op, rest: seq<Op>, which: Which, key: string)
    requires PassedNow(c, t, op, which, key) == []
    ensures PassedTimes(c, t, [op] + rest, which, key) == PassedTimes(c, Step(c, t, op).0, rest, which, key)
    ensures After(c, t, [op] + rest) == After(c, Step(c, t, op).0, rest)
  {
    assert ([op] + rest)[1..] == rest;
    PassedCons(c, t, [op] + rest, which, key);
    var passed := PassedTimes(c, Step(c, t, op).0, rest, which, key);
    assert [] + passed == passed;
  }

  lemma OldIsStale(c: Config, which: Which, key: string, other: string, times: seq<int>)
    requires c.window >= 1 && key != other
    ensures var ops, empty := OldThen(which, key, other, times), Tables(map[], map[]);
            && PassedTimes(c, empty, ops, which, key) == Admitted(times, c.window, LimitOf(c, which))
            && Stale(TableOf(After(c, empty, ops), Other(which)), key, 4 * c.window, c.window)
  {
    var empty, first := Tables(map[], map[]), RequestFor(Other(which), key, other, 0);
    var t := Step(c, empty, first).0;
    StepTouches(c, empty, first, which, key);
    StepTouches(c, empty, first, Other(which), key);
    RequestsCheck(c, t, which, key, other, times);
    FreshRequestsPass(c, t, which, key, other, times);
    PassedAfter(c, empty, first, RequestsFor(which, key, other, times), which, key);
  }

  lemma FreshBurst(window: int, limit: nat, now: int, from: int)
    requires window >= 1 && limit >= 1 && from <= now < from + window
    ensures Count(Admitted(Repeated(limit, now), window, limit), from, from + window) == limit
  {
    OneCheck(now, window, limit);
    assert Repeated(limit, now) == [now] + Repeated(limit - 1, now);
    RepeatedChecks([now], limit - 1, now, window, limit);
    CountRepeated([now], limit - 1, now, from, from + window);
    CountSnoc([], now, from, from + window);
    assert [] + [now] == [now];
  }

  lemma CleanThenBurst(c: Config, t: Tables, which: Which, key: string, other: string, from: int)
    requires c.window >= 2 && c.limit >= 1 && key != other && from <= 4 * c.window < from + c.window
    requires Stale(TableOf(t, Other(which)), key, 4 * c.window, c.window)
    ensures Count(PassedTimes(c, t, FromHarm(c, which, key, other), which, key), from, from + c.window)
            == LimitOf(c, which)
  {
    var limit, now := LimitOf(c, which), 4 * c.window;
    var times := Repeated(limit, now);
    SweptAway(c, t, which, key, now);
    FreshRequestsPass(c, Swept(t, now, c.window), which, key, other, times);
    PassedAfter(c, t, Clean(now), RequestsFor(which, key, other, times), which, key);
    FreshBurst(c.window, limit, now, from);
  }

  lemma OldCounts(c: Config, which: Which, key: string, other: string, times: seq<int>, n: nat)
    requires c.window >= 1 && key != other
    requires Count(Admitted(times, c.window, LimitOf(c, which)), 3 * c.window + 1, 4 * c.window + 1) == n
    ensures var ops, empty := OldThen(which, key, other, times), Tables(map[], map[]);
            && Count(PassedTimes(c, empty, ops, which, key), 3 * c.window + 1, 4 * c.window + 1) == n
            && Stale(TableOf(After(c, empty, ops), Other(which)), key, 4 * c.window, c.window)
  {
    OldIsStale(c, which, key, other, times);
  }

  lemma BurstsCount(c: Config, which: Which, key: string, other: string)
    requires c.window >= 2 && c.limit >= 1 && key != other
    ensures var ops, empty := BeforeHarm(c, which, key, other), Tables(map[], map[]);
            && Count(PassedTimes(c, empty, ops, which, key), 3 * c.window + 1, 4 * c.window + 1)
               == 2 * LimitOf(c, which) - 1
            && Stale(TableOf(After(c, empty, ops), Other(which)), key, 4 * c.window, c.window)
  {
    BurstsReach(c.window, LimitOf(c, which), 3 * c.window);
    OldCounts(c, which, key, other, Bursts(c.window, LimitOf(c, which), 3 * c.window), 2 * LimitOf(c, which) - 1);
  }

  /** Three times the limit less one is reached, by an address and by an actor alike. */
  lemma HarmfulBoundIsReached(c: Config, which: Which, key: string, other: string)
    requires c.window >= 2 && c.limit >= 1 && key != other
    ensures var ops := BeforeHarm(c, which, key, other) + FromHarm(c, which, key, other);
            && InOrder(ops, 0)
            && Count(PassedTimes(c, Tables(map[], map[]), ops, which, key), 3 * c.window + 1, 4 * c.window + 1)
               == 3 * LimitOf(c, which) - 1
  {
    var empty, from := Tables(map[], map[]), 3 * c.window + 1;
    var before, after := BeforeHarm(c, which, key, other), FromHarm(c, which, key, other);
    BurstsCount(c, which, key, other);
    CleanThenBurst(c, After(c, empty, before), which, key, other, from);
    PassedConcat(c, empty, before, after, which, key);
    CountConcat(PassedTimes(c, empty, before, which, key), PassedTimes(c, After(c, empty, before), after, which, key),
                from, from + c.window);
    HarmIsInOrder(c, which, key, other);
  }

  lemma RequestsInOrder(which: Which, key: string, other: string, times: seq<int>, from: int)
    requires Chronological(times) && forall i :: 0 <= i < |times| ==> from <= times[i]
    ensures InOrder(RequestsFor(which, key, other, times), from)
  {
  }

  lemma InOrderConcat(a: seq<Op>, b: seq<Op>, from: int, middle: int)
    requires InOrder(a, from) && InOrder(b, middle) && from <= middle
    requires forall i :: 0 <= i < |a| ==> a[i].now <= middle
    ensures InOrder(a + b, from)
  {
  }

  lemma HarmIsInOrder(c: Config, which: Which, key: string, other: string)
    requires c.window >= 2 && c.limit >= 1
    ensures InOrder(BeforeHarm(c, which, key, other) + FromHarm(c, which, key, other), 0)
  {
    var limit, now := LimitOf(c, which), 4 * c.window;
    var times, again := Bursts(c.window, limit, 3 * c.window), Repeated(limit, now);
    BurstsInOrder(c.window, limit, 3 * c.window);
    RequestsInOrder(which, key, other, times, 3 * c.window);
    RequestsInOrder(which, key, other, again, now);
    InOrderConcat([RequestFor(Other(which), key, other, 0)], RequestsFor(which, key, other, times), 0, 3 * c.window);
    InOrderConcat([Clean(now)], RequestsFor(which, key, other, again), now, now);
    InOrderConcat(BeforeHarm(c, which, key, other), FromHarm(c, which, key, other), 0, now);
  }
}
