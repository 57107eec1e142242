/**
  The agent-to-agent adapter's promises in plain figures: the minute of the rate window, when a nonce is
  refused, what a session holds, and what the key salt binds.
 */
module PeerLaws {
  import Text
  import opened EvictionScan
  import opened PeerLimits
  import opened PeerAdapter

  // --- Rate window ---

  lemma {:induction false} AfterIsInWindow(times: seq<int>, now: int)
    requires forall i :: 0 <= i < |times| ==> times[i] <= now
    ensures |After(times, now - 60_000_000_000)| == InWindow(times, now)
  {
    if times != [] {
      AfterIsInWindow(times[..|times| - 1], now);
    }
  }

  lemma {:induction false} PassedAreAttempts(history: seq<Attempt>, peer: string, limit: nat, now: int)
    requires NoLater(history, now)
    ensures forall i :: 0 <= i < |Passed(history, peer, limit)| ==> Passed(history, peer, limit)[i] <= now
  {
    if history != [] {
      PassedAreAttempts(history[..|history| - 1], peer, limit, now);
      PassedUnfolds(history, peer, limit);
    }
  }

  lemma LastIsLatest(history: seq<Attempt>, attempt: Attempt)
    requires Chronological(history + [attempt])
    ensures NoLater(history, attempt.now)
  {
    var all := history + [attempt];
    forall i | 0 <= i < |history| ensures history[i].now <= attempt.now {
      assert all[i].now <= all[|history|].now;
    }
  }

  lemma CountInWindow(passed: seq<int>, all: seq<int>, now: int, limit: nat)
    requires forall i :: 0 <= i < |passed| ==> passed[i] <= now
    requires all == passed + if |After(passed, now - WINDOW)| < limit then [now] else []
    ensures all == passed + if InWindow(passed, now) < limit then [now] else []
  {
    AfterIsInWindow(passed, now);
  }

  /** An attempt passes exactly when fewer of the peer's attempts than the limit passed in the minute before it. */
  lemma PassesIffFewInTheMinute(history: seq<Attempt>, attempt: Attempt, limit: nat)
    requires Chronological(history + [attempt]) && limit > 0
    ensures Passed(history + [attempt], attempt.peer, limit) == Passed(history, attempt.peer, limit) +
            if InWindow(Passed(history, attempt.peer, limit), attempt.now) < limit then [attempt.now] else []
  {
    LastIsLatest(history, attempt);
    PassesIffBelowLimit(history, attempt, limit);
    PassedAreAttempts(history, attempt.peer, limit, attempt.now);
    var passed := Passed(history, attempt.peer, limit);
    CountInWindow(passed, Passed(history + [attempt], attempt.peer, limit), attempt.now, limit);
  }

  /** Without a limit every attempt passes. */
  lemma NoLimitPasses(history: seq<Attempt>, attempt: Attempt)
    ensures Passed(history + [attempt], attempt.peer, 0) == Passed(history, attempt.peer, 0) + [attempt.now]
  {
    assert (history + [attempt])[..|history|] == history;
  }

  // --- Nonces ---

  /** A nonce is refused only if it is in the store and has not expired; what is accepted is stored with its time. */
  lemma RefusedOnlyIfLive(lifetime: int, m: Store, nonce: string, now: int, accepted: bool, r: Store)
    requires StoreStep(lifetime, m, Offer(nonce, now), accepted, r)
    ensures !accepted ==> nonce in m && now - m[nonce] <= lifetime
    ensures nonce in r && (accepted ==> r[nonce] == now)
    ensures forall x :: x in r && x != nonce ==> x in m && r[x] == m[x] && now - m[x] <= lifetime
  {
    var kept :| Offered(lifetime, m, nonce, now, accepted, kept, r);
    CapsToIsCapped(Live(m, now, lifetime), kept);
  }

  // --- Sessions ---

  /** A new session holds the key and counts as active now; of the others at most one goes, the rest are untouched. */
  lemma JoinedHolds(sessions: map<string, Session>, maxSessions: nat, peer: string, key: seq<int>, now: int,
                    r: map<string, Session>) returns (gone: string)
    requires Joined(sessions, maxSessions, peer, key, now, r)
    ensures peer in r && r[peer].key == key && r[peer].createdAt == now && r[peer].lastActive == now
    ensures forall x :: x in r && x != peer ==> x in sessions && r[x] == sessions[x]
    ensures forall x :: x in sessions && (x != gone || |sessions| < maxSessions) ==> x in r
  {
    var room :| RoomMade(sessions, maxSessions, room) && r == room[peer := Session(key, now, now)];
    gone := "";
    if |sessions| >= maxSessions {
      var order :| Text.Lists(order, Activity(sessions).Keys)
                   && room == Evict(sessions, Scan(Activity(sessions), order));
      gone := Scan(Activity(sessions), order);
    }
  }

  // --- Key salt ---

  lemma {:induction false} SmallerFirst(front: seq<int>, x: int, a: seq<int>, y: int, b: seq<int>)
    requires x < y
    ensures NotAfter(front + [x] + a, front + [y] + b) && !NotAfter(front + [y] + b, front + [x] + a)
  {
    if front == [] {
      assert front + [x] + a == [x] + a && front + [y] + b == [y] + b;
    } else {
      SmallerFirst(front[1..], x, a, y, b);
      assert (front + [x] + a)[1..] == front[1..] + [x] + a && (front + [y] + b)[1..] == front[1..] + [y] + b;
    }
  }

  /** The key with the smaller first different byte comes first in the salt. */
  lemma SaltIsOrdered(hash: seq<int> -> seq<int>, front: seq<int>, x: int, a: seq<int>, y: int, b: seq<int>)
    requires x < y
    ensures DomainSalt(hash, front + [x] + a, front + [y] + b) == hash((front + [x] + a) + (front + [y] + b))
    ensures DomainSalt(hash, front + [y] + b, front + [x] + a) == hash((front + [x] + a) + (front + [y] + b))
  {
    SmallerFirst(front, x, a, y, b);
  }

  /** For a hash without collisions the salt determines the two keys, up to their order. */
  lemma SaltBindsBothKeys(hash: seq<int> -> seq<int>, ours: seq<int>, theirs: seq<int>, a: seq<int>, b: seq<int>)
    requires forall x, y :: hash(x) == hash(y) ==> x == y
    requires |ours| == |theirs| == |a| == |b|
    requires DomainSalt(hash, ours, theirs) == DomainSalt(hash, a, b)
    ensures (ours == a && theirs == b) || (ours == b && theirs == a)
  {
    var first := if NotAfter(ours, theirs) then ours else theirs;
    var second := if NotAfter(ours, theirs) then theirs else ours;
    var left, right := if NotAfter(a, b) then a else b, if NotAfter(a, b) then b else a;
    assert first + second == left + right;
    assert (first + second)[..|ours|] == first && (left + right)[..|ours|] == left;
    assert (first + second)[|ours|..] == second && (left + right)[|ours|..] == right;
  }
}
