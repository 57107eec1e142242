/**
  What the limits of the agent-to-agent adapter mean over whole histories: the sliding rate window of a
  peer, and the store of seen nonces with its expiry and its cap.
 */
module PeerLimits {
  import opened EvictionScan

  /** Times are in nanoseconds. */
  const SECOND := 1_000_000_000
  const WINDOW := 60 * SECOND
  const MAX_NONCES := 1000

  // --- Sliding window ---

  /** The times after a cutoff, in order. */
  function After(times: seq<int>, cutoff: int): seq<int> {
    if times == [] then []
    else
      var before, last := After(times[..|times| - 1], cutoff), times[|times| - 1];
      if last > cutoff then before + [last] else before
  }

  predicate Admits(times: seq<int>, now: int, limit: nat) {
    limit == 0 || |After(times, now - WINDOW)| < limit
  }

  /** A peer's timestamps after one more attempt. */
  function Attempted(times: seq<int>, now: int, limit: nat): seq<int> {
    var recent := After(times, now - WINDOW);
    if Admits(times, now, limit) then recent + [now] else recent
  }

  datatype Attempt = Attempt(peer: string, now: int)

  ghost predicate Chronological(history: seq<Attempt>) {
    forall i, j :: 0 <= i < j < |history| ==> history[i].now <= history[j].now
  }

  /** The timestamps kept for a peer after a history of attempts by any peers. */
  function Kept(history: seq<Attempt>, peer: string, limit: nat): seq<int> {
    if history == [] then []
    else
      var before, last := Kept(history[..|history| - 1], peer, limit), history[|history| - 1];
      if last.peer == peer then Attempted(before, last.now, limit) else before
  }

  /** The times of all the attempts of a peer that passed. */
  function Passed(history: seq<Attempt>, peer: string, limit: nat): seq<int> {
    if history == [] then []
    else
      var earlier := history[..|history| - 1];
      var before, last := Passed(earlier, peer, limit), history[|history| - 1];
      if last.peer == peer && Admits(Kept(earlier, peer, limit), last.now, limit) then before + [last.now] else before
  }

  lemma {:induction false} AfterAfter(times: seq<int>, a: int, b: int)
    requires a <= b
    ensures After(After(times, a), b) == After(times, b)
  {
    if times != [] {
      var before, last := times[..|times| - 1], times[|times| - 1];
      AfterAfter(before, a, b);
      assert (After(before, a) + [last])[..|After(before, a)|] == After(before, a);
    }
  }

  lemma AfterSnoc(times: seq<int>, t: int, cutoff: int)
    ensures After(times + [t], cutoff) == After(times, cutoff) + if t > cutoff then [t] else []
  {
    assert (times + [t])[..|times|] == times;
  }

  lemma AfterPrefix(times: seq<int>, i: nat, cutoff: int)
    requires i < |times|
    ensures After(times[..i + 1], cutoff) == After(times[..i], cutoff) + if times[i] > cutoff then [times[i]] else []
  {
    assert times[..i + 1] == times[..i] + [times[i]];
    AfterSnoc(times[..i], times[i], cutoff);
  }

  /** No attempt of the history is later. */
  ghost predicate NoLater(history: seq<Attempt>, now: int) {
    forall i :: 0 <= i < |history| ==> history[i].now <= now
  }

  lemma EnoughStep(kept: seq<int>, passed: seq<int>, t: int, limit: nat, now: int)
    requires t <= now && After(kept, now - WINDOW) == After(passed, now - WINDOW)
    ensures After(Attempted(kept, t, limit), now - WINDOW) ==
            After(if Admits(kept, t, limit) then passed + [t] else passed, now - WINDOW)
  {
    AfterAfter(kept, t - WINDOW, now - WINDOW);
    AfterSnoc(After(kept, t - WINDOW), t, now - WINDOW);
    AfterSnoc(passed, t, now - WINDOW);
  }

  /** Pruning loses nothing that still matters: from now on the kept timestamps stand for all that passed. */
  lemma {:induction false} KeptIsEnough(history: seq<Attempt>, peer: string, limit: nat, now: int)
    requires Chronological(history) && NoLater(history, now)
    ensures After(Kept(history, peer, limit), now - WINDOW) == After(Passed(history, peer, limit), now - WINDOW)
  {
    if history != [] {
      var earlier, last := history[..|history| - 1], history[|history| - 1];
      KeptIsEnough(earlier, peer, limit, now);
      EnoughStep(Kept(earlier, peer, limit), Passed(earlier, peer, limit), last.now, limit, now);
    }
  }

  /** An attempt passes exactly when fewer than the limit have passed in the minute up to it. */
  lemma PassesIffBelowLimit(history: seq<Attempt>, attempt: Attempt, limit: nat)
    requires Chronological(history + [attempt]) && limit > 0
    ensures Passed(history + [attempt], attempt.peer, limit) == Passed(history, attempt.peer, limit) +
            if |After(Passed(history, attempt.peer, limit), attempt.now - WINDOW)| < limit then [attempt.now] else []
  {
    var all := history + [attempt];
    assert all[..|history|] == history;
    assert forall i, j :: 0 <= i < j < |history| ==> history[i] == all[i] && history[j] == all[j];
    assert forall i :: 0 <= i < |history| ==> history[i] == all[i] && all[|history|] == attempt;
    KeptIsEnough(history, attempt.peer, limit, attempt.now);
  }

  lemma KeptSnoc(history: seq<Attempt>, attempt: Attempt, peer: string, limit: nat)
    ensures Kept(history + [attempt], peer, limit) ==
            if attempt.peer == peer then Attempted(Kept(history, peer, limit), attempt.now, limit)
            else Kept(history, peer, limit)
  {
    assert (history + [attempt])[..|history|] == history;
  }

  /** How many of the times lie in the minute up to and including a moment. */
  function InWindow(times: seq<int>, moment: int): nat {
    if times == [] then 0
    else
      var last := times[|times| - 1];
      InWindow(times[..|times| - 1], moment) + if moment - WINDOW < last <= moment then 1 else 0
  }

  lemma {:induction false} InWindowIsAfter(times: seq<int>, moment: int, now: int)
    requires now <= moment
    ensures InWindow(times, moment) <= |After(times, now - WINDOW)|
  {
    if times != [] {
      InWindowIsAfter(times[..|times| - 1], moment, now);
    }
  }

  lemma InWindowSnoc(times: seq<int>, t: int, moment: int)
    ensures InWindow(times + [t], moment) == InWindow(times, moment) + if moment - WINDOW < t <= moment then 1 else 0
  {
    assert (times + [t])[..|times|] == times;
  }

  /** One more time keeps the bound if fewer than the limit lie in the minute up to it. */
  lemma BoundKept(times: seq<int>, t: int, limit: nat, moment: int)
    requires InWindow(times, moment) <= limit && |After(times, t - WINDOW)| < limit
    ensures InWindow(times + [t], moment) <= limit
  {
    InWindowSnoc(times, t, moment);
    if t <= moment {
      InWindowIsAfter(times, moment, t);
    }
  }

  lemma EarlierIsChronological(history: seq<Attempt>)
    requires Chronological(history) && history != []
    ensures Chronological(history[..|history| - 1]) && NoLater(history[..|history| - 1], history[|history| - 1].now)
  {
  }

  lemma PassedUnfolds(history: seq<Attempt>, peer: string, limit: nat)
    requires history != []
    ensures var earlier, last := history[..|history| - 1], history[|history| - 1];
            Passed(history, peer, limit) ==
            if last.peer == peer && Admits(Kept(earlier, peer, limit), last.now, limit)
              then Passed(earlier, peer, limit) + [last.now]
            else Passed(earlier, peer, limit)
  {
  }

  /** Whether the last attempt of a history is the peer's and below the limit. */
  predicate LastPasses(history: seq<Attempt>, peer: string, limit: nat)
    requires history != []
  {
    var earlier, last := history[..|history| - 1], history[|history| - 1];
    last.peer == peer && |After(Passed(earlier, peer, limit), last.now - WINDOW)| < limit
  }

  lemma PassedStep(history: seq<Attempt>, peer: string, limit: nat)
    requires Chronological(history) && limit > 0 && history != []
    ensures var earlier := Passed(history[..|history| - 1], peer, limit);
            Passed(history, peer, limit) ==
            if LastPasses(history, peer, limit) then earlier + [history[|history| - 1].now] else earlier
  {
    var earlier, now := history[..|history| - 1], history[|history| - 1].now;
    EarlierIsChronological(history);
    KeptIsEnough(earlier, peer, limit, now);
    SameAdmission(Kept(earlier, peer, limit), Passed(earlier, peer, limit), now, limit);
    PassedUnfolds(history, peer, limit);
  }

  lemma SameAdmission(kept: seq<int>, passed: seq<int>, now: int, limit: nat)
    requires limit > 0 && After(kept, now - WINDOW) == After(passed, now - WINDOW)
    ensures Admits(kept, now, limit) <==> |After(passed, now - WINDOW)| < limit
  {
  }

  lemma ChronologicalSnoc(history: seq<Attempt>, attempt: Attempt)
    requires Chronological(history) && NoLater(history, attempt.now)
    ensures Chronological(history + [attempt])
  {
  }

  lemma NoLaterSnoc(history: seq<Attempt>, attempt: Attempt, now: int)
    requires NoLater(history, now) && attempt.now <= now
    ensures NoLater(history + [attempt], now)
  {
  }

  lemma BoundStep(history: seq<Attempt>, peer: string, limit: nat, moment: int)
    requires Chronological(history) && limit > 0 && history != []
    requires InWindow(Passed(history[..|history| - 1], peer, limit), moment) <= limit
    ensures InWindow(Passed(history, peer, limit), moment) <= limit
  {
    PassedStep(history, peer, limit);
    if LastPasses(history, peer, limit) {
      BoundKept(Passed(history[..|history| - 1], peer, limit), history[|history| - 1].now, limit, moment);
    }
  }

  /** In every minute, at most the limit of a peer's attempts pass, whatever the other peers do. */
  lemma {:induction false} WindowIsBounded(history: seq<Attempt>, peer: string, limit: nat, moment: int)
    requires Chronological(history) && limit > 0
    ensures InWindow(Passed(history, peer, limit), moment) <= limit
  {
    if history != [] {
      var earlier := history[..|history| - 1];
      EarlierIsChronological(history);
      WindowIsBounded(earlier, peer, limit, moment);
      BoundStep(history, peer, limit, moment);
    }
  }

  // --- Nonces ---

  function Live(m: Store, now: int, lifetime: int): Store {
    map x | x in m && now - m[x] <= lifetime :: m[x]
  }

  /** What the capping loop may leave when it ends. */
  ghost predicate CapsTo(m: Store, kept: Store) {
    exists stores :: AreRounds(stores, MAX_NONCES) && stores[0] == m && EndsCapped(stores, kept)
  }

  ghost predicate EndsCapped(stores: seq<Store>, kept: Store) {
    stores != [] && stores[|stores| - 1] == kept && |kept| <= MAX_NONCES
  }

  datatype Op = Offer(nonce: string, now: int) | Cleanup(now: int)

  ghost predicate Offered(lifetime: int, m: Store, nonce: string, now: int, accepted: bool, kept: Store, r: Store) {
    && CapsTo(Live(m, now, lifetime), kept) && accepted == (nonce !in kept)
    && r == if accepted then kept[nonce := now] else kept
  }

  ghost predicate StoreStep(lifetime: int, m: Store, op: Op, accepted: bool, r: Store) {
    match op
    case Offer(nonce, now) => exists kept :: Offered(lifetime, m, nonce, now, accepted, kept, r)
    case Cleanup(now) => !accepted && r == Live(m, now, lifetime)
  }

  datatype History = History(stores: seq<Store>, ops: seq<Op>, accepted: seq<bool>)

  ghost predicate StepAt(h: History, lifetime: int, i: nat)
    requires i < |h.ops| == |h.accepted| && |h.stores| == |h.ops| + 1
  {
    StoreStep(lifetime, h.stores[i], h.ops[i], h.accepted[i], h.stores[i + 1])
  }

  /** Offers and cleanups in any order, on a clock that does not go back. */
  ghost predicate IsHistory(h: History, lifetime: int) {
    && |h.ops| == |h.accepted| && |h.stores| == |h.ops| + 1 && h.stores[0] == map[]
    && (forall i, j :: 0 <= i < j < |h.ops| ==> h.ops[i].now <= h.ops[j].now)
    && (forall i :: 0 <= i < |h.ops| ==> StepAt(h, lifetime, i))
  }

  /** No operation is later. */
  ghost predicate Until(h: History, now: int) {
    forall i :: 0 <= i < |h.ops| ==> h.ops[i].now <= now
  }

  /** One more operation. */
  ghost function Extended(h: History, op: Op, accepted: bool, store: Store): History {
    History(h.stores + [store], h.ops + [op], h.accepted + [accepted])
  }

  lemma UntilExtends(h: History, op: Op, accepted: bool, store: Store)
    requires Until(h, op.now) && forall i, j :: 0 <= i < j < |h.ops| ==> h.ops[i].now <= h.ops[j].now
    ensures var r := Extended(h, op, accepted, store);
            Until(r, op.now) && forall i, j :: 0 <= i < j < |r.ops| ==> r.ops[i].now <= r.ops[j].now
  {
  }

  lemma HistoryExtends(h: History, lifetime: int, op: Op, accepted: bool, store: Store)
    requires IsHistory(h, lifetime) && Until(h, op.now)
    requires StoreStep(lifetime, h.stores[|h.ops|], op, accepted, store)
    ensures IsHistory(Extended(h, op, accepted, store), lifetime) && Until(Extended(h, op, accepted, store), op.now)
  {
    var r := Extended(h, op, accepted, store);
    UntilExtends(h, op, accepted, store);
    forall i | 0 <= i < |r.ops| ensures StepAt(r, lifetime, i) {
      assert i < |h.ops| ==> StepAt(h, lifetime, i);
    }
  }

  predicate AcceptsAt(h: History, i: nat, nonce: string)
    requires i < |h.ops| == |h.accepted|
  {
    h.accepted[i] && h.ops[i].Offer? && h.ops[i].nonce == nonce
  }

  /** The other entries that are no older. */
  function NoOlder(m: Store, x: string): set<string>
    requires x in m
  {
    set y | y in m && y != x && m[x] <= m[y]
  }

  lemma DroppedIsCrowdedOut(m: Store, now: int, lifetime: int, kept: Store, x: string)
    requires IsCapped(Live(m, now, lifetime), kept, MAX_NONCES) && x in m && x !in kept && now - m[x] <= lifetime
    ensures |NoOlder(m, x)| >= MAX_NONCES
  {
    assert x in Live(m, now, lifetime);
    SubsetIsSmaller(kept.Keys, NoOlder(m, x));
  }

  /** At an offer the empty nonce is older than a thousand live ones, so that the capping loop goes wrong. */
  ghost predicate Misleads(m: Store, op: Op, lifetime: int) {
    op.Offer? && !CanCap(Live(m, op.now, lifetime), MAX_NONCES)
  }

  lemma CapsToIsCapped(m: Store, kept: Store)
    requires CapsTo(m, kept)
    ensures Within(kept, m) && (CanCap(m, MAX_NONCES) ==> IsCapped(m, kept, MAX_NONCES))
  {
    var stores :| AreRounds(stores, MAX_NONCES) && stores[0] == m && EndsCapped(stores, kept);
    RoundsKeep(stores, MAX_NONCES, |stores| - 1);
    CappedIff(stores, MAX_NONCES);
  }

  /** An entry leaves the store only when it has expired or is crowded out, or the empty nonce misleads. */
  lemma EntryStays(lifetime: int, m: Store, op: Op, accepted: bool, r: Store, x: string)
    requires StoreStep(lifetime, m, op, accepted, r) && x in m
    requires op.now - m[x] <= lifetime && |NoOlder(m, x)| < MAX_NONCES && !Misleads(m, op, lifetime)
    ensures x in r && r[x] == m[x] && !(accepted && op.nonce == x)
  {
    if op.Offer? {
      var kept :| Offered(lifetime, m, op.nonce, op.now, accepted, kept, r);
      CapsToIsCapped(Live(m, op.now, lifetime), kept);
      if x !in kept {
        DroppedIsCrowdedOut(m, op.now, lifetime, kept, x);
      }
    }
  }

  ghost predicate CrowdedOutAt(h: History, i: nat, x: string, since: int)
    requires i < |h.stores|
  {
    x in h.stores[i] && h.stores[i][x] == since && |NoOlder(h.stores[i], x)| >= MAX_NONCES
  }

  ghost predicate MisledAt(h: History, lifetime: int, i: nat)
    requires i < |h.ops| <= |h.stores|
  {
    Misleads(h.stores[i], h.ops[i], lifetime)
  }

  lemma AcceptedIsStored(h: History, lifetime: int, i: nat, x: string)
    requires IsHistory(h, lifetime) && i < |h.ops| && AcceptsAt(h, i, x)
    ensures x in h.stores[i + 1] && h.stores[i + 1][x] == h.ops[i].now
  {
    assert StepAt(h, lifetime, i);
  }

  /** Until it has expired, is crowded out, or the empty nonce misleads, an accepted nonce stays in the store. */
  lemma {:induction false} StaysStored(h: History, lifetime: int, i: nat, j: nat, x: string)
    requires IsHistory(h, lifetime) && i < j <= |h.ops| && AcceptsAt(h, i, x)
    requires forall k :: i < k < j ==> h.ops[k].now - h.ops[i].now <= lifetime && !CrowdedOutAt(h, k, x, h.ops[i].now)
    requires forall k :: i < k < j ==> !MisledAt(h, lifetime, k)
    ensures x in h.stores[j] && h.stores[j][x] == h.ops[i].now
  {
    if j == i + 1 {
      AcceptedIsStored(h, lifetime, i, x);
    } else {
      StaysStored(h, lifetime, i, j - 1, x);
      assert StepAt(h, lifetime, j - 1) && !CrowdedOutAt(h, j - 1, x, h.ops[i].now) && !MisledAt(h, lifetime, j - 1);
      EntryStays(lifetime, h.stores[j - 1], h.ops[j - 1], h.accepted[j - 1], h.stores[j], x);
    }
  }

  /**
    A nonce is accepted again only after its lifetime, or after it was crowded out: at some point in
    between, the store held a thousand others no older than it; or else the empty nonce was accepted and
    was older than a thousand others.
   */
  lemma AcceptedTwiceOnlyIf(h: History, lifetime: int, i: nat, j: nat, x: string)
    requires IsHistory(h, lifetime) && i < j < |h.ops| && AcceptsAt(h, i, x) && AcceptsAt(h, j, x)
    ensures h.ops[j].now - h.ops[i].now > lifetime
            || (exists k :: i < k <= j && CrowdedOutAt(h, k, x, h.ops[i].now))
            || (exists k :: i < k <= j && MisledAt(h, lifetime, k))
  {
    if h.ops[j].now - h.ops[i].now <= lifetime && (forall k :: i < k <= j ==> !CrowdedOutAt(h, k, x, h.ops[i].now))
       && (forall k :: i < k <= j ==> !MisledAt(h, lifetime, k)) {
      forall k | i < k < j ensures h.ops[k].now - h.ops[i].now <= lifetime {
        assert h.ops[k].now <= h.ops[j].now;
      }
      StaysStored(h, lifetime, i, j, x);
      assert StepAt(h, lifetime, j) && !CrowdedOutAt(h, j, x, h.ops[i].now) && !MisledAt(h, lifetime, j);
      EntryStays(lifetime, h.stores[j], h.ops[j], h.accepted[j], h.stores[j + 1], x);
    }
  }

  /** Every entry of the store is a nonce that was accepted, at the time it carries. */
  lemma {:induction false} EntriesWereAccepted(h: History, lifetime: int, k: nat, x: string) returns (i: nat)
    requires IsHistory(h, lifetime) && k < |h.stores| && x in h.stores[k]
    ensures i < k && AcceptsAt(h, i, x) && h.ops[i].now == h.stores[k][x]
  {
    assert StepAt(h, lifetime, k - 1);
    if AcceptsAt(h, k - 1, x) {
      i := k - 1;
      AcceptedIsStored(h, lifetime, i, x);
    } else {
      StoreOnlyShrinks(lifetime, h.stores[k - 1], h.ops[k - 1], h.accepted[k - 1], h.stores[k], x);
      i := EntriesWereAccepted(h, lifetime, k - 1, x);
    }
  }

  lemma StoreOnlyShrinks(lifetime: int, m: Store, op: Op, accepted: bool, r: Store, x: string)
    requires StoreStep(lifetime, m, op, accepted, r) && x in r
    requires !(accepted && op.Offer? && op.nonce == x)
    ensures x in m && m[x] == r[x]
  {
    if op.Offer? {
      var kept :| Offered(lifetime, m, op.nonce, op.now, accepted, kept, r);
      CapsToIsCapped(Live(m, op.now, lifetime), kept);
      assert x in kept;
    }
  }

  /** If the empty nonce is never offered, it never misleads. */
  lemma NeverMisled(h: History, lifetime: int, k: nat)
    requires IsHistory(h, lifetime) && k < |h.ops|
    requires forall i :: 0 <= i < k && h.ops[i].Offer? ==> h.ops[i].nonce != ""
    ensures !MisledAt(h, lifetime, k)
  {
    if "" in h.stores[k] {
      var i := EntriesWereAccepted(h, lifetime, k, "");
    }
  }
}
