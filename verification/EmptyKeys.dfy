/**
  What an empty nonce or an empty peer id can do to the agent-to-agent adapter, as runs from a fresh one.
 */
module EmptyKeys {
  import opened EvictionScan
  import opened PeerLimits
  import opened PeerAdapter

  /** The n-th name. */
  function Name(n: nat): (name: string)
    ensures |name| == n
  {
    seq(n, _ => 'a')
  }

  ghost predicate AllNamed(keys: set<string>, n: nat) {
    forall x :: x in keys ==> exists k :: 0 <= k < n && x == Name(k)
  }

  lemma NamedSnoc(keys: set<string>, n: nat)
    requires AllNamed(keys, n)
    ensures Name(n) !in keys && AllNamed(keys + {Name(n)}, n + 1)
  {
    forall x | x in keys ensures exists k :: 0 <= k <= n && x == Name(k) {
      var k :| 0 <= k < n && x == Name(k);
    }
  }

  // --- Nonces ---

  /** The nonces with these names, offered one nanosecond after another, the empty one first. */
  ghost predicate Filled(m: Store, n: nat) {
    && |m| == n + 1 && (forall k :: 0 <= k <= n ==> Name(k) in m && m[Name(k)] == k)
    && AllNamed(m.Keys, n + 1)
  }

  lemma FilledIsLive(m: Store, n: nat, now: int, lifetime: int)
    requires Filled(m, n) && now <= lifetime
    ensures Live(m, now, lifetime) == m
  {
  }

  lemma FilledSnoc(m: Store, n: nat)
    requires Filled(m, n)
    ensures Name(n + 1) !in m && Filled(m[Name(n + 1) := n + 1], n + 1)
  {
    NamedSnoc(m.Keys, n + 1);
    var r := m[Name(n + 1) := n + 1];
    assert r.Keys == m.Keys + {Name(n + 1)};
    forall k | 0 <= k <= n + 1 ensures Name(k) in r && r[Name(k)] == k {
      assert |Name(k)| == k;
    }
  }

  lemma BelowCap(m: Store)
    requires |m| <= MAX_NONCES
    ensures CapsTo(m, m)
  {
    assert AreRounds([m], MAX_NONCES) && EndsCapped([m], m);
  }

  /** A store of one more nonce than the cap can be filled. */
  lemma {:induction false} Fill(lifetime: int, n: nat) returns (h: History)
    requires n <= MAX_NONCES <= lifetime
    ensures IsHistory(h, lifetime) && |h.ops| == n + 1 && Filled(h.stores[n + 1], n)
    ensures AcceptsAt(h, n, Name(n)) && h.ops[n].now == n
  {
    if n == 0 {
      h := History([map[]], [], []);
      BelowCap(map[]);
      var op, m: Store := Offer("", 0), map["" := 0];
      assert Offered(lifetime, map[], "", 0, true, map[], m);
      HistoryExtends(h, lifetime, op, true, m);
      h := Extended(h, op, true, m);
    } else {
      h := Fill(lifetime, n - 1);
      var m := h.stores[n];
      FilledIsLive(m, n - 1, n, lifetime);
      BelowCap(m);
      FilledSnoc(m, n - 1);
      assert Offered(lifetime, m, Name(n), n, true, m, m[Name(n) := n]);
      LastIsLatest(h, lifetime, n - 1);
      HistoryExtends(h, lifetime, Offer(Name(n), n), true, m[Name(n) := n]);
      h := Extended(h, Offer(Name(n), n), true, m[Name(n) := n]);
    }
  }

  lemma LastIsLatest(h: History, lifetime: int, n: nat)
    requires IsHistory(h, lifetime) && |h.ops| == n + 1
    ensures forall i :: 0 <= i <= n ==> h.ops[i].now <= h.ops[n].now
  {
  }

  lemma FilledMisleads(m: Store)
    requires Filled(m, MAX_NONCES)
    ensures EmptyIsOldest(m) && !CanCap(m, MAX_NONCES)
  {
    assert Name(0) == "";
    forall y | y in m && y != "" ensures m[""] < m[y] {
      var k :| 0 <= k <= MAX_NONCES && y == Name(k);
    }
    assert Younger(m) == m.Keys - {""};
  }

  /**
    With the empty nonce in the store a replay can pass: the nonce accepted last is accepted again at the
    same moment, though it has not expired and nothing crowds it out.
   */
  lemma ReplayCanPass(lifetime: int) returns (h: History, x: string)
    requires lifetime >= MAX_NONCES
    ensures IsHistory(h, lifetime) && |h.ops| == MAX_NONCES + 2
    ensures var i, j := MAX_NONCES, MAX_NONCES + 1;
            && AcceptsAt(h, i, x) && AcceptsAt(h, j, x) && h.ops[i].now == h.ops[j].now && MisledAt(h, lifetime, j)
            && !CrowdedOutAt(h, j, x, h.ops[i].now)
  {
    h := Fill(lifetime, MAX_NONCES);
    x := Name(MAX_NONCES);
    var m, now := h.stores[MAX_NONCES + 1], MAX_NONCES;
    FilledIsLive(m, MAX_NONCES, now, lifetime);
    FilledMisleads(m);
    AnyCanBeEvicted(m, MAX_NONCES, x);
    assert EndsCapped([m, m - {x}], m - {x});
    assert Offered(lifetime, m, x, now, true, m - {x}, (m - {x})[x := now]);
    LastIsLatest(h, lifetime, MAX_NONCES);
    YoungestIsNotCrowdedOut(m);
    HistoryExtends(h, lifetime, Offer(x, now), true, (m - {x})[x := now]);
    h := Extended(h, Offer(x, now), true, (m - {x})[x := now]);
  }

  lemma YoungestIsNotCrowdedOut(m: Store)
    requires Filled(m, MAX_NONCES)
    ensures |NoOlder(m, Name(MAX_NONCES))| == 0
  {
    assert NoOlder(m, Name(MAX_NONCES)) == {};
  }

  /** The same offer can hang: after any number of rounds the store is still over the cap. */
  lemma OfferCanHang(lifetime: int, rounds: nat) returns (h: History, stores: seq<Store>)
    requires lifetime >= MAX_NONCES
    ensures IsHistory(h, lifetime) && |h.ops| == MAX_NONCES + 1
    ensures AreRounds(stores, MAX_NONCES) && |stores| == rounds + 1 && |stores[rounds]| > MAX_NONCES
    ensures stores[0] == Live(h.stores[MAX_NONCES + 1], MAX_NONCES, lifetime)
  {
    h := Fill(lifetime, MAX_NONCES);
    var m := h.stores[MAX_NONCES + 1];
    FilledIsLive(m, MAX_NONCES, MAX_NONCES, lifetime);
    FilledMisleads(m);
    stores := CapCanHang(m, MAX_NONCES, rounds);
  }

  // --- Sessions ---

  /** Sessions of the named peers, each active later than the one before, the empty peer id first. */
  ghost predicate Seated(sessions: map<string, Session>, n: nat) {
    && |sessions| == n && (forall k :: 0 <= k < n ==> Name(k) in sessions && sessions[Name(k)].lastActive == k)
    && AllNamed(sessions.Keys, n)
  }

  lemma SeatedSnoc(sessions: map<string, Session>, n: nat)
    requires Seated(sessions, n)
    ensures Name(n) !in sessions && Seated(sessions[Name(n) := Session([], n, n)], n + 1)
  {
    NamedSnoc(sessions.Keys, n);
    var r := sessions[Name(n) := Session([], n, n)];
    assert r.Keys == sessions.Keys + {Name(n)};
    forall k | 0 <= k <= n ensures Name(k) in r && r[Name(k)].lastActive == k {
      assert |Name(k)| == k;
    }
  }

  lemma SeatedOverflows(sessions: map<string, Session>, maxSessions: nat, n: nat)
    requires Seated(sessions, n) && n >= maxSessions >= 1 && Name(n) !in sessions
    ensures CanOverflow(sessions, maxSessions, Name(n))
  {
    var ages := Activity(sessions);
    assert Name(0) == "";
    forall y | y in ages && y != "" ensures ages[""] < ages[y] {
      var k :| 0 <= k < n && y == Name(k);
    }
  }

  ghost predicate JoinedNext(tables: seq<map<string, Session>>, maxSessions: nat, i: nat)
    requires i + 1 < |tables|
  {
    Joined(tables[i], maxSessions, Name(i), [], i, tables[i + 1])
  }

  /** Then the table has no bound at all: for every number of sessions a run of joins reaches it. */
  lemma {:induction false} SessionsAreUnbounded(maxSessions: nat, n: nat) returns (tables: seq<map<string, Session>>)
    requires maxSessions >= 1
    ensures |tables| == n + 1 && tables[0] == map[] && Seated(tables[n], n)
    ensures forall i :: 0 <= i < n ==> JoinedNext(tables, maxSessions, i)
  {
    if n == 0 {
      tables := [map[]];
    } else {
      var before := SessionsAreUnbounded(maxSessions, n - 1);
      var last := before[n - 1];
      SeatedSnoc(last, n - 1);
      var next := last[Name(n - 1) := Session([], n - 1, n - 1)];
      if n - 1 < maxSessions {
        assert RoomMade(last, maxSessions, last);
      } else {
        SeatedOverflows(last, maxSessions, n - 1);
        var r := Overflow(last, maxSessions, Name(n - 1), [], n - 1);
      }
      tables := before + [next];
      forall i | 0 <= i < n ensures JoinedNext(tables, maxSessions, i) {
        assert i < n - 1 ==> JoinedNext(before, maxSessions, i);
      }
    }
  }
}
