/** The rate limiter of internal/httpx/middleware.go as it runs: a map of buckets
    updated in place under its mutex. */
module RateLimiter {
  import opened TokenBucket

  class Bucket {
    var tokens: real
    var last: real
    /** The key the bucket was made for. */
    ghost const owner: string

    constructor (tokens: real, last: real, ghost owner: string)
      ensures Value() == Tokens(tokens, last) && this.owner == owner
    {
      this.tokens, this.last, this.owner := tokens, last, owner;
    }

    function Value(): Tokens
      reads this
    {
      Tokens(tokens, last)
    }

    /** The arithmetic of allow on a bucket that exists. */
    method Use(now: real, c: Limits) returns (ok: bool)
      modifies this
      ensures var t := Min(Refilled(old(Value()), now, c), c.burst);
        ok == (t >= 1.0) && Value() == Tokens(if ok then t - 1.0 else t, now)
    {
      hide Gain;
      tokens := tokens + Gain(now - last, c);
      if tokens > c.burst {
        tokens := c.burst;
      }
      last := now;
      if tokens < 1.0 {
        return false;
      }
      tokens := tokens - 1.0;
      return true;
    }
  }

  class KeyedBuckets {
    var buckets: map<string, Bucket>
    const rate: real
    const burst: real
    var lastSweep: real
    /** Every bucket that has been in the map. */
    ghost var Repr: set<Bucket>
    /** What the buckets hold. */
    ghost var values: map<string, Tokens>

    /** No two keys share a bucket. */
    ghost predicate Valid()
      reads this`buckets, this`values, this`Repr, Repr
    {
      && buckets.Keys == values.Keys
      && forall k :: k in buckets ==> buckets[k] in Repr && buckets[k].owner == k && buckets[k].Value() == values[k]
    }

    ghost function Contents(): Limiter
      reads this
    {
      Limiter(values, lastSweep)
    }

    function Rates(): Limits {
      Limits(rate, burst)
    }

    constructor (rate: real, burst: real)
      ensures Valid() && Rates() == Limits(rate, burst) && Contents() == Init() && Repr == {}
    {
      buckets, lastSweep, Repr, values := map[], ZERO_TIME, {}, map[];
      this.rate, this.burst := rate, burst;
    }

    method Allow(key: string, now: real) returns (ok: bool)
      requires Valid()
      modifies this, Repr
      ensures Valid() && fresh(Repr - old(Repr))
      ensures (Contents(), ok) == TokenBucket.Allow(old(Contents()), key, now, Rates())
    {
      hide Gain, Sweep, Refilled, Min, Valid;
      Expel(now);
      if !Known(key) {
        Open(key, now);
        return true;
      }
      ok := Spend(key, now);
    }

    predicate Known(key: string)
      requires Valid()
      reads this, Repr
      ensures Known(key) <==> key in values
      ensures Known(key) <==> key in buckets
    {
      key in buckets
    }

    /** allow for a key without a bucket. */
    method Open(key: string, now: real)
      requires Valid() && key !in values
      modifies this`buckets, this`Repr, this`values
      ensures Valid() && fresh(Repr - old(Repr))
      ensures values == old(values)[key := Tokens(burst - 1.0, now)]
    {
      var b := new Bucket(burst - 1.0, now, key);
      buckets, Repr, values := buckets[key := b], Repr + {b}, values[key := b.Value()];
    }

    /** allow for a key with a bucket. */
    method Spend(key: string, now: real) returns (ok: bool)
      requires Valid() && key in buckets && key in values
      modifies this`values, Repr
      ensures Valid()
      ensures var t := Min(Refilled(old(values)[key], now, Rates()), burst);
        ok == (t >= 1.0) && values == old(values)[key := Tokens(if ok then t - 1.0 else t, now)]
    {
      hide Gain, Refilled, Min;
      ok := buckets[key].Use(now, Rates());
      values := values[key := buckets[key].Value()];
    }

    /** The sweep: deletes full buckets in whatever order the map yields them. */
    method Expel(now: real)
      requires Valid()
      modifies this`buckets, this`lastSweep, this`values
      ensures Valid()
      ensures Contents() == Sweep(old(Contents()), now, Rates())
    {
      hide Gain, Refilled, Kept, Valid, Full;
      if now - lastSweep < 60.0 {
        return;
      }
      lastSweep := now;
      ghost var was := values;
      assert buckets.Keys == values.Keys by { Matched(); }
      var left := buckets.Keys;
      KeptEnds(was, now, Rates());
      while left != {}
        invariant Valid() && left <= buckets.Keys && left <= was.Keys
        invariant values == Kept(was, left, now, Rates())
        invariant lastSweep == now
        decreases |left|
      {
        var k :| k in left;
        KeptStep(was, left, k, now, Rates());
        if Full(k, now) {
          Delete(k);
        }
        left := left - {k};
      }
    }

    lemma Matched()
      requires Valid()
      ensures buckets.Keys == values.Keys
    {
    }

    /** Forgets one key. */
    method Delete(k: string)
      requires Valid() && k in buckets
      modifies this`buckets, this`values
      ensures Valid() && buckets.Keys == old(buckets.Keys) - {k} && values == old(values) - {k}
    {
      buckets, values := buckets - {k}, values - {k};
    }

    /** A bucket that would hold as much as a fresh one. */
    predicate Full(k: string, now: real)
      requires Valid() && k in buckets
      reads this, Repr
      ensures Full(k, now) <==> Refilled(values[k], now, Rates()) >= burst
    {
      Refilled(buckets[k].Value(), now, Rates()) >= burst
    }
  }

  /** What a sweep has kept when some keys are still to be visited. */
  ghost function Kept(was: map<string, Tokens>, left: set<string>, now: real, c: Limits): map<string, Tokens> {
    map k | k in was && (k in left || Refilled(was[k], now, c) < c.burst) :: was[k]
  }

  lemma KeptEnds(was: map<string, Tokens>, now: real, c: Limits)
    ensures Kept(was, was.Keys, now, c) == was
    ensures Kept(was, {}, now, c) == map k | k in was && Refilled(was[k], now, c) < c.burst :: was[k]
  {
    hide Refilled;
  }

  lemma KeptStep(was: map<string, Tokens>, left: set<string>, k: string, now: real, c: Limits)
    requires k in left && k in was
    ensures var kept, kept' := Kept(was, left, now, c), Kept(was, left - {k}, now, c);
      k in kept && kept[k] == was[k] && kept' == if Refilled(was[k], now, c) < c.burst then kept else kept - {k}
  {
    hide Refilled;
  }
}
