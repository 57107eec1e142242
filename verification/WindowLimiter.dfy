/**
  The limiter as it runs: buckets that are reset and incremented in place, two tables of them, and the
  sweep that deletes stale keys.
 */
module WindowLimiter {
  import opened Text
  import opened WindowLimits

  class RateBucket {
    var count: nat
    var start: int

    constructor (now: int)
      ensures count == 0 && start == now
    {
      count, start := 0, now;
    }

    ghost function Value(): Bucket
      reads this
    {
      Bucket(count, start)
    }
  }

  class BucketTable {
    var buckets: map<string, RateBucket>

    ghost predicate Valid()
      reads this
    {
      forall k, l :: k in buckets && l in buckets && k != l ==> buckets[k] != buckets[l]
    }

    ghost function Contents(): Table
      reads this, buckets.Values
    {
      map k | k in buckets :: buckets[k].Value()
    }

    constructor ()
      ensures Valid() && buckets == map[]
    {
      buckets := map[];
    }

    /** The bucket of a key, a new one if there is none. */
    method LoadOrStore(key: string, now: int) returns (b: RateBucket)
      requires Valid()
      modifies this
      ensures Valid() && key in buckets && b == buckets[key] && (b in old(buckets.Values) || fresh(b))
      ensures buckets == if key in old(buckets) then old(buckets) else old(buckets)[key := b]
      ensures key !in old(buckets) ==> fresh(b) && b.Value() == Bucket(0, now)
    {
      if key !in buckets {
        var created := new RateBucket(now);
        buckets := buckets[key := created];
      }
      b := buckets[key];
    }

    /** Counts a request and says whether the limit is exceeded. */
    method CheckBucket(key: string, limit: nat, window: int, now: int) returns (exceeded: bool)
      requires Valid() && window >= 1
      modifies this, buckets.Values
      ensures Valid() && fresh(buckets.Values - old(buckets.Values))
      ensures Contents() == Checked(old(Contents()), key, now, window)
      ensures exceeded <==> Contents()[key].count > limit
    {
      var b := LoadOrStore(key, now);
      if now - b.start >= window {
        b.count := 0;
        b.start := now;
      }
      b.count := b.count + 1;
      exceeded := b.count > limit;
    }

    twostate lemma Shrunk(gone: set<string>)
      requires buckets == old(buckets) - gone && forall b :: b in buckets.Values ==> unchanged(b)
      ensures Contents() == old(Contents()) - gone
    {
      forall k | k in buckets ensures buckets[k].Value() == old(Contents())[k] {
        assert buckets[k] in buckets.Values;
      }
    }

    method Delete(key: string)
      requires Valid()
      modifies this
      ensures Valid() && buckets == old(buckets) - {key}
    {
      buckets := buckets - {key};
    }
  }

  class Limiter {
    const config: Config
    const ip: BucketTable
    const actor: BucketTable

    ghost predicate Valid()
      reads this, ip, actor
    {
      && config.window >= 1 && config.limit >= 1 && ip != actor && ip.Valid() && actor.Valid()
      && forall k, l :: k in ip.buckets && l in actor.buckets ==> ip.buckets[k] != actor.buckets[l]
    }

    ghost function Value(): Tables
      reads this, ip, actor, ip.buckets.Values, actor.buckets.Values
    {
      Tables(ip.Contents(), actor.Contents())
    }

    constructor (config: Config)
      requires config.window >= 1 && config.limit >= 1
      ensures Valid() && Value() == Tables(map[], map[]) && this.config == config && fresh(ip) && fresh(actor)
    {
      this.config := config;
      ip := new BucketTable();
      actor := new BucketTable();
    }

    method CheckAddress(address: string, now: int) returns (decision: Decision)
      requires Valid()
      modifies ip, ip.buckets.Values
      ensures Valid() && fresh(ip.buckets.Values - old(ip.buckets.Values))
      ensures (Value(), decision) == IpStep(config, old(Value()), address, now)
    {
      var exceeded := ip.CheckBucket(address, config.limit, config.window, now);
      decision := if exceeded then IpLimited else Passed;
    }

    /** The actor's limit comes first; a request it stops does not count against the address. */
    method Handle(key: Option<string>, address: string, now: int) returns (decision: Decision)
      requires Valid()
      modifies ip, actor, ip.buckets.Values, actor.buckets.Values
      ensures Valid() && (Value(), decision) == Step(config, old(Value()), Request(key, address, now))
    {
      if key.Some? {
        var exceeded := actor.CheckBucket(key.value, ACTOR_LIMIT, config.window, now);
        if exceeded {
          return ActorLimited;
        }
      }
      decision := CheckAddress(address, now);
    }

    static lemma OneGone<T>(m: map<string, T>, gone: set<string>, key: string)
      ensures m - gone - {key} == m - (gone + {key})
    {
    }

    /** Deletes from both tables the keys one of them holds stale. */
    method SweepTable(table: BucketTable, now: int) returns (ghost gone: set<string>)
      requires Valid() && (table == ip || table == actor)
      modifies ip, actor
      ensures Valid() && ip.buckets == old(ip.buckets) - gone && actor.buckets == old(actor.buckets) - gone
      ensures forall k :: k in gone <==> Stale(old(table.Contents()), k, now, config.window)
    {
      ghost var before := table.buckets;
      var rest := table.buckets.Keys;
      gone := {};
      while rest != {}
        invariant rest <= table.buckets.Keys && gone <= before.Keys - rest
        invariant ip.buckets == old(ip.buckets) - gone && actor.buckets == old(actor.buckets) - gone
        invariant forall k :: k in before && k !in rest ==> (k in gone <==> before[k].start < now - 2 * config.window)
        decreases rest
      {
        var key :| key in rest;
        rest := rest - {key};
        if table.buckets[key].start < now - 2 * config.window {
          OneGone(old(ip.buckets), gone, key);
          OneGone(old(actor.buckets), gone, key);
          ip.Delete(key);
          actor.Delete(key);
          gone := gone + {key};
        }
      }
    }

    method Sweep(now: int)
      requires Valid()
      modifies ip, actor
      ensures Valid() && Value() == Step(config, old(Value()), Clean(now)).0
    {
      ghost var t := Value();
      ghost var first := SweepTable(ip, now);
      label Between:
      ip.Shrunk(first);
      actor.Shrunk(first);
      ghost var second := SweepTable(actor, now);
      ip.Shrunk@Between(second);
      actor.Shrunk@Between(second);
      SweepsAreSwept(t, first, second, now, config.window);
    }
  }

  ghost function Without(t: Tables, keys: set<string>): Tables {
    Tables(t.ip - keys, t.actor - keys)
  }

  lemma SweepsAreSwept(t: Tables, first: set<string>, second: set<string>, now: int, window: int)
    requires forall k :: k in first <==> Stale(t.ip, k, now, window)
    requires forall k :: k in second <==> Stale(Without(t, first).actor, k, now, window)
    ensures Without(Without(t, first), second) == Swept(t, now, window)
  {
    var r, s := Without(Without(t, first), second), Swept(t, now, window);
    forall k ensures (k in r.ip <==> k in s.ip) && (k in r.actor <==> k in s.actor) {
      assert k in second <==> Stale(t.actor, k, now, window) && k !in first;
    }
    assert r.ip == s.ip && r.actor == s.actor;
  }
}
