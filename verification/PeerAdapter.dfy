/**
  The agent-to-agent adapter: per-peer rate windows compacted in place, the nonce store, the session
  table, and session keys. The ciphers and the curve are abstract.
 */
module PeerAdapter {
  import opened EvictionScan
  import opened PeerLimits
  import opened Text

  /** A peer's timestamps: the front of a buffer that is filtered in place. */
  class RateWindow {
    var buffer: array<int>
    var size: nat

    ghost predicate Valid()
      reads this
    {
      size <= buffer.Length
    }

    ghost function Times(): seq<int>
      requires Valid()
      reads this, buffer
    {
      buffer[..size]
    }

    constructor ()
      ensures Valid() && Times() == [] && fresh(buffer)
    {
      buffer, size := new int[0], 0;
    }

    method KeepAt(kept: nat, t: int)
      requires kept < buffer.Length
      modifies buffer
      ensures buffer[..kept + 1] == old(buffer[..kept]) + [t]
      ensures forall k :: kept < k < buffer.Length ==> buffer[k] == old(buffer[k])
    {
      buffer[kept] := t;
    }

    /** Moves the times after the cutoff to the front, over the ones already passed by. */
    method Prune(cutoff: int)
      requires Valid()
      modifies this`size, buffer
      ensures Valid() && Times() == After(old(Times()), cutoff)
    {
      ghost var all := buffer[..size];
      var kept := 0;
      for i := 0 to size
        invariant size == old(size) && buffer == old(buffer) && kept <= i <= size <= buffer.Length
        invariant buffer[..kept] == After(all[..i], cutoff)
        invariant forall k :: i <= k < size ==> buffer[k] == all[k]
      {
        AfterPrefix(all, i, cutoff);
        if buffer[i] > cutoff {
          KeepAt(kept, buffer[i]);
          kept := kept + 1;
        }
      }
      assert all[..size] == all;
      size := kept;
    }

    /** Appends a time, growing the buffer when it is full. */
    method Append(t: int)
      requires Valid()
      modifies this, buffer
      ensures Valid() && Times() == old(Times()) + [t] && (buffer == old(buffer) || fresh(buffer))
    {
      if size == buffer.Length {
        var larger := new int[2 * size + 1];
        for i := 0 to size
          invariant Valid() && buffer == old(buffer) && size == old(size) && buffer[..] == old(buffer[..])
          invariant larger[..i] == buffer[..i]
        {
          larger[i] := buffer[i];
        }
        buffer := larger;
      }
      buffer[size] := t;
      size := size + 1;
    }

    method Admit(now: int, limit: nat) returns (ok: bool)
      requires Valid()
      modifies this, buffer
      ensures Valid() && Times() == Attempted(old(Times()), now, limit) && ok == Admits(old(Times()), now, limit)
      ensures buffer == old(buffer) || fresh(buffer)
    {
      Prune(now - WINDOW);
      if limit > 0 && size >= limit {
        return false;
      }
      Append(now);
      return true;
    }
  }

  // --- Eviction from maps ---

  /** Walks a map in some order; nothing is known of which. */
  method WalkOrder(keys: set<string>) returns (order: seq<string>)
    ensures Lists(order, keys)
  {
    order := [];
    var rest := keys;
    while rest != {}
      invariant rest <= keys && Lists(order, keys - rest)
      decreases rest
    {
      var x :| x in rest;
      rest := rest - {x};
      order := order + [x];
    }
  }

  lemma ScanPrefix(ages: Store, walk: seq<string>, i: nat)
    requires i < |walk| && forall x :: x in walk ==> x in ages
    ensures var found := Scan(ages, walk[..i]);
            Scan(ages, walk[..i + 1]) == if found == "" || ages[walk[i]] < ages[found] then walk[i] else found
  {
    ScanSnoc(ages, walk[..i], walk[i]);
    assert walk[..i + 1] == walk[..i] + [walk[i]];
  }

  /** The scan for the oldest entry, in any order: it succeeds exactly if the empty key is not the one oldest. */
  method FindOldest(ages: map<string, int>) returns (oldest: string, ghost order: seq<string>)
    ensures Lists(order, ages.Keys) && oldest == Scan(ages, order)
    ensures oldest != "" && IsOldest(ages, oldest) <==> ages != map[] && !EmptyIsOldest(ages)
  {
    var walk := WalkOrder(ages.Keys);
    var time := 0;
    oldest := "";
    for i := 0 to |walk|
      invariant oldest == Scan(ages, walk[..i]) && (oldest != "" ==> time == ages[oldest])
    {
      ScanPrefix(ages, walk, i);
      if oldest == "" || ages[walk[i]] < time {
        oldest, time := walk[i], ages[walk[i]];
      }
    }
    assert walk[..|walk|] == walk;
    order := walk;
    FindsOldestIff(ages, order);
  }

  method DropStale(m: map<string, int>, now: int, lifetime: int) returns (r: map<string, int>)
    ensures r == Live(m, now, lifetime)
  {
    r := m;
    var rest := m.Keys;
    while rest != {}
      invariant rest <= m.Keys
      invariant forall x :: x in r ==> x in m && r[x] == m[x]
      invariant forall x :: x in m ==> (x in r <==> x in rest || now - m[x] <= lifetime)
      decreases rest
    {
      var x :| x in rest;
      rest := rest - {x};
      if now - m[x] > lifetime {
        r := r - {x};
      }
    }
  }

  lemma SmallerStore(r: Store, m: Store)
    requires Within(r, m)
    ensures |r| <= |m|
  {
    SubsetIsSmaller(r.Keys, m.Keys);
  }

  /**
    The capping loop, watched for a number of rounds. It is sure to end if fewer entries than the cap are
    younger than the empty nonce; and exactly then it drops the oldest entries.
   */
  method CapNonces(m: Store, rounds: nat) returns (r: Store, ghost stores: seq<Store>)
    ensures AreRounds(stores, MAX_NONCES) && stores[0] == m && stores[|stores| - 1] == r
    ensures |r| <= MAX_NONCES || |stores| == rounds + 1
    ensures |r| <= MAX_NONCES ==> (IsCapped(m, r, MAX_NONCES) <==> CanCap(m, MAX_NONCES))
    ensures CanCap(m, MAX_NONCES) && |m| <= MAX_NONCES + rounds ==> |r| <= MAX_NONCES
    ensures Within(r, m)
  {
    var n := 0;
    r, stores := m, [m];
    while |r| > MAX_NONCES && n < rounds
      invariant AreRounds(stores, MAX_NONCES) && stores[0] == m && stores[|stores| - 1] == r
      invariant |stores| == n + 1 && n <= rounds
      decreases rounds - n
    {
      var oldest, order := FindOldest(r);
      assert EvictStep(r, Evict(r, oldest), MAX_NONCES);
      RoundsSnoc(stores, Evict(r, oldest), MAX_NONCES);
      if oldest != "" {
        r := r - {oldest};
      }
      stores := stores + [r];
      n := n + 1;
    }
    RoundsKeep(stores, MAX_NONCES, n);
    if |r| <= MAX_NONCES {
      CappedIff(stores, MAX_NONCES);
    } else if CanCap(m, MAX_NONCES) {
      RoundsCap(stores, MAX_NONCES, n);
    }
  }

  // --- The adapter ---

  datatype Session = Session(key: seq<int>, createdAt: int, lastActive: int)

  function Activity(sessions: map<string, Session>): map<string, int> {
    map p | p in sessions :: sessions[p].lastActive
  }

  datatype Config = Config(rateLimit: nat, sessionTimeout: int, nonceLifetime: int, maxSessions: nat)

  /** A call that hangs is still capping the nonces, with the lock held. */
  datatype Outcome = RateLimited | Hanging | Replayed | InvalidKey | Established

  /** At capacity the session that the scan finds makes room. */
  ghost predicate RoomMade(sessions: map<string, Session>, maxSessions: nat, r: map<string, Session>) {
    if |sessions| < maxSessions then r == sessions
    else exists order :: Lists(order, Activity(sessions).Keys) && r == Evict(sessions, Scan(Activity(sessions), order))
  }

  ghost predicate Joined(sessions: map<string, Session>, maxSessions: nat, peer: string, key: seq<int>, now: int,
                         r: map<string, Session>) {
    exists room :: RoomMade(sessions, maxSessions, room) && r == room[peer := Session(key, now, now)]
  }

  /** A least recently active session goes. */
  ghost predicate OldestGoes(sessions: map<string, Session>, r: map<string, Session>) {
    exists x :: IsOldest(Activity(sessions), x) && r == sessions - {x}
  }

  /** At capacity a least recently active session goes exactly if that is not the one with the empty peer id alone. */
  lemma RoomMadeIff(sessions: map<string, Session>, maxSessions: nat, r: map<string, Session>)
    requires RoomMade(sessions, maxSessions, r) && |sessions| >= maxSessions >= 1
    ensures OldestGoes(sessions, r) <==> !EmptyIsOldest(Activity(sessions))
  {
    var ages := Activity(sessions);
    var order :| Lists(order, ages.Keys) && r == Evict(sessions, Scan(ages, order));
    assert ages.Keys == sessions.Keys;
    FindsOldestIff(ages, order);
  }

  /** A full table whose one oldest session has the empty peer id, and a peer that is not in it. */
  ghost predicate CanOverflow(sessions: map<string, Session>, maxSessions: nat, peer: string) {
    |sessions| >= maxSessions && EmptyIsOldest(Activity(sessions)) && peer !in sessions
  }

  lemma RoomSize(sessions: map<string, Session>, maxSessions: nat, r: map<string, Session>)
    requires RoomMade(sessions, maxSessions, r) && maxSessions >= 1
    ensures r.Keys <= sessions.Keys && |r| <= |sessions|
    ensures |sessions| >= maxSessions && !EmptyIsOldest(Activity(sessions)) ==> |r| == |sessions| - 1
  {
    SubsetIsSmaller(r.Keys, sessions.Keys);
    if |sessions| >= maxSessions && !EmptyIsOldest(Activity(sessions)) {
      RoomMadeIff(sessions, maxSessions, r);
      var x :| IsOldest(Activity(sessions), x) && r == sessions - {x};
      RemoveOne(sessions, x);
    }
  }

  lemma AddedSize(room: map<string, Session>, peer: string, s: Session)
    ensures |room[peer := s]| == |room| + if peer in room then 0 else 1
  {
    assert room[peer := s].Keys == room.Keys + {peer};
  }

  /** The table stays within the maximum in every order of the scan, exactly if it cannot overflow. */
  lemma BoundHoldsIff(sessions: map<string, Session>, maxSessions: nat, peer: string, key: seq<int>, now: int)
    requires |sessions| <= maxSessions && maxSessions >= 1
    ensures (forall r :: Joined(sessions, maxSessions, peer, key, now, r) ==> |r| <= maxSessions)
            <==> !CanOverflow(sessions, maxSessions, peer)
  {
    if CanOverflow(sessions, maxSessions, peer) {
      var r := Overflow(sessions, maxSessions, peer, key, now);
      assert Joined(sessions, maxSessions, peer, key, now, r) && |r| > maxSessions;
    } else {
      forall r | Joined(sessions, maxSessions, peer, key, now, r) ensures |r| <= maxSessions {
        StaysBounded(sessions, maxSessions, peer, key, now, r);
      }
    }
  }

  lemma StaysBounded(sessions: map<string, Session>, maxSessions: nat, peer: string, key: seq<int>, now: int,
                     r: map<string, Session>)
    requires Joined(sessions, maxSessions, peer, key, now, r) && |sessions| <= maxSessions && maxSessions >= 1
    requires !CanOverflow(sessions, maxSessions, peer)
    ensures |r| <= maxSessions
  {
    var room :| RoomMade(sessions, maxSessions, room) && r == room[peer := Session(key, now, now)];
    RoomSize(sessions, maxSessions, room);
    AddedSize(room, peer, Session(key, now, now));
    if |room| == |sessions| == maxSessions && peer in sessions {
      SameSize(room.Keys, sessions.Keys);
    }
  }

  lemma SameSize(a: set<string>, b: set<string>)
    requires a <= b && |a| == |b|
    ensures a == b
  {
    if a != b {
      var x :| x in b && x !in a;
      SubsetIsSmaller(a, b - {x});
    }
  }

  lemma Overflow(sessions: map<string, Session>, maxSessions: nat, peer: string, key: seq<int>, now: int)
    returns (r: map<string, Session>)
    requires CanOverflow(sessions, maxSessions, peer)
    ensures r == sessions[peer := Session(key, now, now)] && |r| == |sessions| + 1
    ensures Joined(sessions, maxSessions, peer, key, now, r)
  {
    var order := AnyCanBeFound(Activity(sessions), "");
    r := sessions[peer := Session(key, now, now)];
    AddedSize(sessions, peer, Session(key, now, now));
    assert RoomMade(sessions, maxSessions, sessions);
  }

  class Adapter {
    const config: Config
    var windows: map<string, RateWindow>
    var nonces: map<string, int>
    var sessions: map<string, Session>
    ghost var attempts: seq<Attempt>
    ghost var past: History

    ghost predicate WindowsValid()
      reads this`windows, windows.Values
    {
      && (forall p :: p in windows ==> windows[p].Valid())
      && (forall p, q :: p in windows && q in windows && p != q ==>
          windows[p] != windows[q] && windows[p].buffer != windows[q].buffer)
    }

    ghost predicate Valid()
      reads this`nonces
    {
      |nonces| <= MAX_NONCES + 1 && config.maxSessions >= 1
    }

    ghost function TimesOf(peer: string): seq<int>
      requires WindowsValid()
      reads this`windows, windows.Values, set w | w in windows.Values :: w.buffer
    {
      if peer in windows then windows[peer].Times() else []
    }

    ghost predicate HoldsKept(peer: string, history: seq<Attempt>)
      requires WindowsValid()
      reads this`windows, windows.Values, set w | w in windows.Values :: w.buffer
    {
      TimesOf(peer) == Kept(history, peer, config.rateLimit)
    }

    /** The windows hold what the attempts of all peers so far leave in them. */
    ghost predicate Limits()
      reads this`windows, this`attempts, windows.Values, set w | w in windows.Values :: w.buffer
    {
      WindowsValid() && Chronological(attempts) && forall p :: HoldsKept(p, attempts)
    }

    /** The nonce store is the last of the history of offers and cleanups so far. */
    ghost predicate Remembers()
      reads this`nonces, this`past
    {
      IsHistory(past, config.nonceLifetime) && past.stores[|past.ops|] == nonces
    }

    /** The clock has not gone back. */
    ghost predicate NotBefore(now: int)
      reads this`attempts, this`past
    {
      NoLater(attempts, now) && Until(past, now)
    }

    constructor (config: Config)
      requires config.maxSessions >= 1
      ensures this.config == config && Valid() && Limits() && Remembers()
      ensures windows == map[] && nonces == map[] && sessions == map[] && attempts == [] && past.ops == []
    {
      this.config := config;
      windows, nonces, sessions := map[], map[], map[];
      attempts, past := [], History([map[]], [], []);
    }

    method CheckRateLimit(peer: string, now: int) returns (ok: bool)
      requires WindowsValid()
      modifies this`windows, windows.Values, set w | w in windows.Values :: w.buffer
      ensures WindowsValid() && fresh(windows.Values - old(windows.Values))
      ensures ok == Admits(old(TimesOf(peer)), now, config.rateLimit)
      ensures TimesOf(peer) == Attempted(old(TimesOf(peer)), now, config.rateLimit)
      ensures forall p :: p != peer ==> TimesOf(p) == old(TimesOf(p))
    {
      if peer !in windows {
        var created := new RateWindow();
        windows := windows[peer := created];
      }
      ok := windows[peer].Admit(now, config.rateLimit);
    }

    /**
      Drops expired and surplus nonces, then accepts a nonce exactly when it is not in the store. It may
      hang only if the empty nonce is older than a thousand live ones.
     */
    method CheckNonce(nonce: string, now: int, rounds: nat) returns (done: bool, accepted: bool)
      requires Valid() && rounds >= 1
      modifies this`nonces
      ensures Valid()
      ensures done ==> StoreStep(config.nonceLifetime, old(nonces), Offer(nonce, now), accepted, nonces)
      ensures !done ==> Misleads(old(nonces), Offer(nonce, now), config.nonceLifetime)
    {
      var live := DropStale(nonces, now, config.nonceLifetime);
      SmallerStore(live, nonces);
      var kept, stores := CapNonces(live, rounds);
      SmallerStore(kept, live);
      nonces := kept;
      done, accepted := |kept| <= MAX_NONCES, nonce !in nonces;
      if !done {
        return;
      }
      assert EndsCapped(stores, kept);
      if accepted {
        nonces := nonces[nonce := now];
        assert nonces.Keys == kept.Keys + {nonce};
      }
      assert Offered(config.nonceLifetime, old(nonces), nonce, now, accepted, kept, nonces);
    }

    method MakeRoom()
      requires Valid()
      modifies this`sessions
      ensures Valid() && RoomMade(old(sessions), config.maxSessions, sessions)
    {
      if |sessions| >= config.maxSessions {
        var oldest, order := FindOldest(Activity(sessions));
        if oldest != "" {
          sessions := sessions - {oldest};
        }
        assert sessions == Evict(old(sessions), Scan(Activity(old(sessions)), order));
      }
    }

    method AddSession(peer: string, key: seq<int>, now: int)
      requires Valid() && Limits()
      modifies this`sessions
      ensures Valid() && Limits()
      ensures Joined(old(sessions), config.maxSessions, peer, key, now, sessions)
      ensures |old(sessions)| <= config.maxSessions && !CanOverflow(old(sessions), config.maxSessions, peer) ==>
              |sessions| <= config.maxSessions
    {
      MakeRoom();
      ghost var room := sessions;
      sessions := sessions[peer := Session(key, now, now)];
      assert RoomMade(old(sessions), config.maxSessions, room);
      if |old(sessions)| <= config.maxSessions && !CanOverflow(old(sessions), config.maxSessions, peer) {
        StaysBounded(old(sessions), config.maxSessions, peer, key, now, sessions);
      }
    }

    /** Enters the attempt in the history. */
    method LimitPeer(peer: string, now: int) returns (ok: bool)
      requires Limits() && NoLater(attempts, now)
      modifies this`windows, this`attempts, windows.Values, set w | w in windows.Values :: w.buffer
      ensures Limits() && NoLater(attempts, now) && fresh(windows.Values - old(windows.Values))
      ensures attempts == old(attempts) + [Attempt(peer, now)]
      ensures ok == Admits(Kept(old(attempts), peer, config.rateLimit), now, config.rateLimit)
    {
      assert HoldsKept(peer, attempts);
      ok := CheckRateLimit(peer, now);
      forall p ensures HoldsKept(p, attempts + [Attempt(peer, now)]) {
        assert old(HoldsKept(p, attempts));
        KeptSnoc(attempts, Attempt(peer, now), p, config.rateLimit);
      }
      NoLaterSnoc(attempts, Attempt(peer, now), now);
      ChronologicalSnoc(attempts, Attempt(peer, now));
      attempts := attempts + [Attempt(peer, now)];
    }

    /** Enters the offer in the history, unless it hangs. */
    method SpendNonce(nonce: string, now: int, rounds: nat) returns (done: bool, accepted: bool)
      requires Valid() && Limits() && Remembers() && Until(past, now) && rounds >= 1
      modifies this`nonces, this`past
      ensures Valid() && Limits() && Until(past, now)
      ensures done ==> Remembers() && past == Extended(old(past), Offer(nonce, now), accepted, nonces)
      ensures !done ==> past == old(past) && Misleads(old(nonces), Offer(nonce, now), config.nonceLifetime)
    {
      done, accepted := CheckNonce(nonce, now, rounds);
      if done {
        HistoryExtends(past, config.nonceLifetime, Offer(nonce, now), accepted, nonces);
        past := Extended(past, Offer(nonce, now), accepted, nonces);
      }
    }

    /** Spends the nonce, then looks at the key, which is absent if the peer's public key is malformed. */
    method AcceptPeer(peer: string, nonce: string, key: Option<seq<int>>, now: int, rounds: nat)
      returns (outcome: Outcome)
      requires Valid() && Limits() && Remembers() && Until(past, now) && rounds >= 1
      modifies this`nonces, this`sessions, this`past
      ensures Valid() && Limits() && Until(past, now) && outcome != RateLimited
      ensures if outcome == Hanging then
                past == old(past) && Misleads(old(nonces), Offer(nonce, now), config.nonceLifetime)
              else Remembers() && past == Extended(old(past), Offer(nonce, now), outcome != Replayed, nonces)
      ensures outcome == Established <==> outcome != Hanging && outcome != Replayed && key.Some?
      ensures if outcome == Established then Joined(old(sessions), config.maxSessions, peer, key.value, now, sessions)
              else sessions == old(sessions)
      ensures |old(sessions)| <= config.maxSessions && !CanOverflow(old(sessions), config.maxSessions, peer) ==>
              |sessions| <= config.maxSessions
    {
      var done, accepted := SpendNonce(nonce, now, rounds);
      if !done {
        return Hanging;
      }
      if !accepted {
        return Replayed;
      }
      if key.None? {
        return InvalidKey;
      }
      AddSession(peer, key.value, now);
      return Established;
    }

    /**
      The limiter comes first, then the nonce, then the key; both histories grow by what happened. A call
      is watched for a number of rounds of the capping loop, and hangs if it has not left it by then.
     */
    method EstablishSession(peer: string, nonce: string, key: Option<seq<int>>, now: int, rounds: nat)
      returns (outcome: Outcome)
      requires Valid() && Limits() && Remembers() && NotBefore(now) && rounds >= 1
      modifies this`windows, this`nonces, this`sessions, this`attempts, this`past
      modifies windows.Values, set w | w in windows.Values :: w.buffer
      ensures Valid() && Limits() && NotBefore(now) && (outcome != Hanging ==> Remembers())
      ensures attempts == old(attempts) + [Attempt(peer, now)]
      ensures outcome == RateLimited <==> !Admits(Kept(old(attempts), peer, config.rateLimit), now, config.rateLimit)
      ensures outcome == Hanging ==> Misleads(old(nonces), Offer(nonce, now), config.nonceLifetime)
      ensures if outcome == RateLimited || outcome == Hanging then past == old(past)
              else past == Extended(old(past), Offer(nonce, now), outcome != Replayed, nonces)
      ensures outcome == Established <==>
              outcome != RateLimited && outcome != Hanging && outcome != Replayed && key.Some?
      ensures if outcome == Established then Joined(old(sessions), config.maxSessions, peer, key.value, now, sessions)
              else sessions == old(sessions)
      ensures |old(sessions)| <= config.maxSessions && !CanOverflow(old(sessions), config.maxSessions, peer) ==>
              |sessions| <= config.maxSessions
    {
      var admitted := LimitPeer(peer, now);
      if !admitted {
        return RateLimited;
      }
      outcome := AcceptPeer(peer, nonce, key, now, rounds);
    }

    /** After any calls: in every minute at most the limit of a peer's attempts have passed. */
    lemma AdapterIsLimited(peer: string, moment: int)
      requires Limits() && config.rateLimit > 0
      ensures InWindow(Passed(attempts, peer, config.rateLimit), moment) <= config.rateLimit
    {
      WindowIsBounded(attempts, peer, config.rateLimit, moment);
    }

    /** After any calls: a nonce was accepted twice only after its lifetime, when crowded out, or misled. */
    lemma AdapterRemembers(i: nat, j: nat, x: string)
      requires Remembers() && i < j < |past.ops| && AcceptsAt(past, i, x) && AcceptsAt(past, j, x)
      ensures past.ops[j].now - past.ops[i].now > config.nonceLifetime
              || (exists k :: i < k <= j && CrowdedOutAt(past, k, x, past.ops[i].now))
              || (exists k :: i < k <= j && MisledAt(past, config.nonceLifetime, k))
    {
      AcceptedTwiceOnlyIf(past, config.nonceLifetime, i, j, x);
    }

    /** Traffic with a peer keeps its session alive. */
    method Touch(peer: string, now: int) returns (known: bool)
      requires Valid()
      modifies this`sessions
      ensures Valid() && known == (peer in old(sessions))
      ensures sessions == if known then old(sessions)[peer := old(sessions)[peer].(lastActive := now)]
              else old(sessions)
    {
      known := peer in sessions;
      if known {
        sessions := sessions[peer := sessions[peer].(lastActive := now)];
      }
    }

    method DropNonces(now: int)
      requires Valid() && Remembers() && Until(past, now)
      modifies this`nonces, this`past
      ensures Valid() && Remembers() && past == Extended(old(past), Cleanup(now), false, nonces)
    {
      nonces := DropStale(nonces, now, config.nonceLifetime);
      SmallerStore(nonces, old(nonces));
      HistoryExtends(past, config.nonceLifetime, Cleanup(now), false, nonces);
      past := Extended(past, Cleanup(now), false, nonces);
    }

    method CleanupExpired(now: int)
      requires Valid() && Remembers() && Until(past, now)
      modifies this`sessions, this`nonces, this`past
      ensures Valid() && Remembers() && past == Extended(old(past), Cleanup(now), false, nonces)
      ensures sessions == map p | p in old(sessions) && now - old(sessions)[p].lastActive <= config.sessionTimeout ::
              old(sessions)[p]
    {
      var active := DropStale(Activity(sessions), now, config.sessionTimeout);
      sessions := map p | p in sessions && p in active :: sessions[p];
      DropNonces(now);
    }
  }

  // --- Session keys ---

  /** Byte-wise comparison of two keys. */
  predicate NotAfter(a: seq<int>, b: seq<int>) {
    a == [] || (b != [] && (a[0] < b[0] || (a[0] == b[0] && NotAfter(a[1..], b[1..]))))
  }

  lemma {:induction false} NotAfterIsTotal(a: seq<int>, b: seq<int>)
    ensures NotAfter(a, b) || NotAfter(b, a)
    ensures NotAfter(a, b) && NotAfter(b, a) ==> a == b
  {
    if a != [] && b != [] && a[0] == b[0] {
      NotAfterIsTotal(a[1..], b[1..]);
      assert a == [a[0]] + a[1..] && b == [b[0]] + b[1..];
    }
  }

  function DomainSalt(hash: seq<int> -> seq<int>, ours: seq<int>, theirs: seq<int>): seq<int> {
    if NotAfter(ours, theirs) then hash(ours + theirs) else hash(theirs + ours)
  }

  lemma SaltIsSymmetric(hash: seq<int> -> seq<int>, ours: seq<int>, theirs: seq<int>)
    ensures DomainSalt(hash, ours, theirs) == DomainSalt(hash, theirs, ours)
  {
    NotAfterIsTotal(ours, theirs);
  }

  function SessionKey(hash: seq<int> -> seq<int>, derive: (seq<int>, seq<int>) -> seq<int>,
                      secret: seq<int>, ours: seq<int>, theirs: seq<int>): seq<int> {
    derive(secret, DomainSalt(hash, ours, theirs))
  }

  /** Peers that agree on the shared secret derive the same session key. */
  lemma PeersAgree(hash: seq<int> -> seq<int>, derive: (seq<int>, seq<int>) -> seq<int>,
                   agree: (int, seq<int>) -> seq<int>, a: int, b: int, pubA: seq<int>, pubB: seq<int>)
    requires agree(a, pubB) == agree(b, pubA)
    ensures SessionKey(hash, derive, agree(a, pubB), pubA, pubB) == SessionKey(hash, derive, agree(b, pubA), pubB, pubA)
  {
    SaltIsSymmetric(hash, pubA, pubB);
  }
}
