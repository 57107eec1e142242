/**
  The scan for the oldest entry of a map, in the order in which the map is walked. The empty key stands
  for "none found yet", so an entry with the empty key can be passed over and can hide what was found.
 */
module EvictionScan {
  import opened Text

  type Store = map<string, int>

  /** What the scan has found after the entries of the order. */
  function Scan(ages: Store, order: seq<string>): string
    requires forall x :: x in order ==> x in ages
    ensures Scan(ages, order) == "" || Scan(ages, order) in order
  {
    if order == [] then ""
    else
      var found, x := Scan(ages, order[..|order| - 1]), order[|order| - 1];
      if found == "" || ages[x] < ages[found] then x else found
  }

  ghost predicate IsOldest(ages: Store, x: string) {
    x in ages && forall y :: y in ages ==> ages[x] <= ages[y]
  }

  /** The empty key is the one oldest entry. */
  ghost predicate EmptyIsOldest(ages: Store) {
    "" in ages && forall y :: y in ages && y != "" ==> ages[""] < ages[y]
  }

  // --- One scan ---

  /** No entry passed so far is older than what was found, unless the empty key hides it. */
  ghost predicate OnTrack(ages: Store, order: seq<string>, found: string) {
    forall y :: y in order && y in ages && y != "" ==>
      (found != "" && found in ages && ages[found] <= ages[y]) || ("" in ages && ages[""] < ages[y])
  }

  lemma {:induction false} ScanStaysOnTrack(ages: Store, order: seq<string>)
    requires forall x :: x in order ==> x in ages
    ensures OnTrack(ages, order, Scan(ages, order))
  {
    if order != [] {
      ScanStaysOnTrack(ages, order[..|order| - 1]);
    }
  }

  /** In every order the scan finds an oldest entry, exactly if there is one and it is not the empty key alone. */
  lemma FindsOldestIff(ages: Store, order: seq<string>)
    requires Lists(order, ages.Keys)
    ensures var found := Scan(ages, order);
            found != "" && IsOldest(ages, found) <==> ages != map[] && !EmptyIsOldest(ages)
  {
    var found := Scan(ages, order);
    ScanStaysOnTrack(ages, order);
    if ages != map[] && !EmptyIsOldest(ages) {
      var z :| z in ages && z != "" && ("" in ages ==> ages[z] <= ages[""]);
      assert z in order;
      forall y | y in ages ensures ages[found] <= ages[y] {
        assert y in order;
      }
    }
  }

  lemma {:induction false} ListingExists(keys: set<string>) returns (order: seq<string>)
    ensures Lists(order, keys)
  {
    if keys == {} {
      order := [];
    } else {
      var x :| x in keys;
      order := ListingExists(keys - {x});
      order := order + [x];
    }
  }

  lemma ScanSnoc(ages: Store, order: seq<string>, x: string)
    requires x in ages && forall y :: y in order ==> y in ages
    ensures var found := Scan(ages, order);
            Scan(ages, order + [x]) == if found == "" || ages[x] < ages[found] then x else found
  {
    assert (order + [x])[..|order|] == order;
  }

  /** Otherwise any entry may be found, the youngest too, or none: it depends on the order. */
  lemma AnyCanBeFound(ages: Store, x: string) returns (order: seq<string>)
    requires EmptyIsOldest(ages) && x in ages
    ensures Lists(order, ages.Keys) && Scan(ages, order) == x
  {
    var others := ListingExists(ages.Keys - {"", x});
    ScanSnoc(ages, others, "");
    order := others + [""];
    if x != "" {
      ScanSnoc(ages, order, x);
      order := order + [x];
    }
  }

  // --- Eviction ---

  /** Nothing goes if nothing was found. */
  function Evict<T>(m: map<string, T>, found: string): map<string, T> {
    if found == "" then m else m - {found}
  }

  lemma RemoveOne<T>(m: map<string, T>, x: string)
    requires x in m
    ensures |m - {x}| == |m| - 1
  {
    assert (m - {x}).Keys == m.Keys - {x};
  }

  /** One round over the cap. */
  ghost predicate EvictStep(m: Store, r: Store, cap: nat) {
    |m| > cap && exists order :: Lists(order, m.Keys) && r == Evict(m, Scan(m, order))
  }

  /** Rounds of the capping loop, each in an order of its own. */
  ghost predicate AreRounds(stores: seq<Store>, cap: nat) {
    |stores| > 0 && forall i :: 0 <= i < |stores| - 1 ==> EvictStep(stores[i], stores[i + 1], cap)
  }

  ghost predicate Within(r: Store, m: Store) {
    forall x :: x in r ==> x in m && r[x] == m[x]
  }

  /** Over the cap, entries are dropped down to it, none younger than an entry that stays. */
  ghost predicate IsCapped(m: Store, r: Store, cap: nat) {
    && Within(r, m)
    && (|m| <= cap ==> r == m)
    && (|m| > cap ==> |r| == cap)
    && OldestGone(m, r)
  }

  ghost function Younger(m: Store): set<string> {
    set y | y in m && "" in m && m[""] < m[y]
  }

  /** Fewer entries than the cap are younger than the empty key. */
  ghost predicate CanCap(m: Store, cap: nat) {
    "" in m ==> |Younger(m)| < cap
  }

  /** However a round goes, entries keep their times, the empty key stays, and at most one goes. */
  lemma StepKeeps(q: Store, r: Store, cap: nat)
    requires EvictStep(q, r, cap)
    ensures Within(r, q) && ("" in q ==> "" in r) && |r| >= cap
  {
    var order :| Lists(order, q.Keys) && r == Evict(q, Scan(q, order));
    if r != q {
      RemoveOne(q, Scan(q, order));
    }
  }

  lemma {:induction false} RoundsKeep(stores: seq<Store>, cap: nat, n: nat)
    requires AreRounds(stores, cap) && n < |stores|
    ensures Within(stores[n], stores[0]) && ("" in stores[0] ==> "" in stores[n])
    ensures n > 0 ==> |stores[0]| > cap && |stores[n]| >= cap
  {
    if n > 0 {
      RoundsKeep(stores, cap, n - 1);
      assert EvictStep(stores[n - 1], stores[n], cap);
      StepKeeps(stores[n - 1], stores[n], cap);
    }
  }

  lemma {:induction false} SubsetIsSmaller(a: set<string>, b: set<string>)
    requires a <= b
    ensures |a| <= |b|
  {
    if a != {} {
      var x :| x in a;
      SubsetIsSmaller(a - {x}, b - {x});
    }
  }

  lemma YoungerShrinks(r: Store, m: Store)
    requires Within(r, m) && ("" in m ==> "" in r)
    ensures Younger(r) <= Younger(m) && |Younger(r)| <= |Younger(m)|
  {
    SubsetIsSmaller(Younger(r), Younger(m));
  }

  lemma CanCapHasOldest(m: Store, cap: nat)
    requires CanCap(m, cap) && |m| > cap
    ensures m != map[] && !EmptyIsOldest(m)
  {
    assert EmptyIsOldest(m) ==> Younger(m) == m.Keys - {""};
  }

  /** Then every round drops an oldest entry. */
  lemma StepDropsOldest(q: Store, r: Store, cap: nat) returns (x: string)
    requires CanCap(q, cap) && EvictStep(q, r, cap)
    ensures IsOldest(q, x) && r == q - {x} && |r| == |q| - 1 && CanCap(r, cap)
  {
    var order :| Lists(order, q.Keys) && r == Evict(q, Scan(q, order));
    x := Scan(q, order);
    CanCapHasOldest(q, cap);
    FindsOldestIff(q, order);
    RemoveOne(q, x);
    StepKeeps(q, r, cap);
    YoungerShrinks(r, q);
  }

  ghost predicate OldestGone(m: Store, r: Store) {
    forall x, y :: x in m && x !in r && y in r && y in m ==> m[x] <= m[y]
  }

  lemma GoneStep(m: Store, q: Store, x: string)
    requires Within(q, m) && OldestGone(m, q) && IsOldest(q, x)
    ensures OldestGone(m, q - {x})
  {
  }

  /** So after as many rounds as there are surplus entries the loop is over, and the oldest ones are gone. */
  lemma {:induction false} RoundsCap(stores: seq<Store>, cap: nat, n: nat)
    requires AreRounds(stores, cap) && n < |stores| && CanCap(stores[0], cap)
    ensures |stores[n]| == |stores[0]| - n && CanCap(stores[n], cap) && OldestGone(stores[0], stores[n])
  {
    if n > 0 {
      RoundsCap(stores, cap, n - 1);
      RoundsKeep(stores, cap, n - 1);
      assert EvictStep(stores[n - 1], stores[n], cap);
      var x := StepDropsOldest(stores[n - 1], stores[n], cap);
      GoneStep(stores[0], stores[n - 1], x);
    }
  }

  lemma SurplusIsLost(m: Store, r: Store, cap: nat)
    requires !CanCap(m, cap) && "" in r && |r| == cap
    ensures !IsCapped(m, r, cap)
  {
    if IsCapped(m, r, cap) {
      assert Younger(m) <= r.Keys - {""};
      SubsetIsSmaller(Younger(m), r.Keys - {""});
    }
  }

  lemma CannotCapIsOver(m: Store, cap: nat)
    requires !CanCap(m, cap)
    ensures |m| > cap
  {
    SubsetIsSmaller(Younger(m), m.Keys - {""});
  }

  /**
    When the loop ends, the oldest entries are gone exactly if fewer than the cap are younger than the
    empty key; otherwise, in whatever order the map was walked, a younger one has been dropped.
   */
  lemma CappedIff(stores: seq<Store>, cap: nat)
    requires AreRounds(stores, cap) && |stores[|stores| - 1]| <= cap
    ensures IsCapped(stores[0], stores[|stores| - 1], cap) <==> CanCap(stores[0], cap)
  {
    var n := |stores| - 1;
    RoundsKeep(stores, cap, n);
    if CanCap(stores[0], cap) {
      RoundsCap(stores, cap, n);
    } else {
      CannotCapIsOver(stores[0], cap);
      SurplusIsLost(stores[0], stores[n], cap);
    }
  }

  lemma CannotCapStep(q: Store, cap: nat) returns (r: Store)
    requires !CanCap(q, cap)
    ensures EvictStep(q, r, cap) && !CanCap(r, cap)
  {
    CannotCapIsOver(q, cap);
    if EmptyIsOldest(q) {
      var order := AnyCanBeFound(q, "");
      r := q;
    } else {
      var order := ListingExists(q.Keys);
      FindsOldestIff(q, order);
      r := Evict(q, Scan(q, order));
      assert Younger(r) == Younger(q);
    }
  }

  /** Otherwise the loop need not end: there are orders that leave it over the cap after any number of rounds. */
  lemma {:induction false} CapCanHang(m: Store, cap: nat, n: nat) returns (stores: seq<Store>)
    requires !CanCap(m, cap)
    ensures AreRounds(stores, cap) && |stores| == n + 1 && stores[0] == m
    ensures |stores[n]| > cap && !CanCap(stores[n], cap)
  {
    if n == 0 {
      stores := [m];
    } else {
      stores := CapCanHang(m, cap, n - 1);
      var r := CannotCapStep(stores[n - 1], cap);
      RoundsSnoc(stores, r, cap);
      stores := stores + [r];
    }
    CannotCapIsOver(stores[n], cap);
  }

  lemma RoundsSnoc(stores: seq<Store>, r: Store, cap: nat)
    requires AreRounds(stores, cap) && EvictStep(stores[|stores| - 1], r, cap)
    ensures AreRounds(stores + [r], cap)
  {
  }

  /** And if it ends, any one entry but the empty key, the youngest too, may be what went. */
  lemma AnyCanBeEvicted(m: Store, cap: nat, x: string)
    requires EmptyIsOldest(m) && |m| == cap + 1 && x in m && x != ""
    ensures AreRounds([m, m - {x}], cap) && |m - {x}| == cap
  {
    var order := AnyCanBeFound(m, x);
    RemoveOne(m, x);
  }
}
