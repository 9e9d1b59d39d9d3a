/** Named token buckets with penalties: a service told to back off is left alone until its penalty is over. */
module RateLimiter {
  import opened Common
  import opened RateLimit

  class RateLimiter {
    const defaultRate: real
    var rates: map<string, real>
    var buckets: map<string, TokenBucket>
    var penaltyUntil: map<string, real>
    var held: set<TokenBucket>   // every bucket made: callers may still wait for one that is no longer a key's

    /** Every key has a bucket of its own, and every bucket ever made is what its passes have made of a single token. */
    ghost predicate Valid(clock: Clock)
      reads this, clock, held
    {
      && (forall b | b in held :: b.Valid(clock) && b.made.tokens == b.made.capacity == 1.0)
      && (forall k | k in buckets :: buckets[k] in held)
      && forall k, l | k in buckets && l in buckets && k != l :: buckets[k] != buckets[l]
    }

    /** A key has the bucket it had, or one made since, or none. */
    ghost predicate SameOrNew(before: map<string, TokenBucket>, heldBefore: set<TokenBucket>)
      reads this
    {
      forall k | k in buckets :: (k in before && buckets[k] == before[k]) || buckets[k] !in heldBefore
    }

    function RateFor(key: string): real
      reads this
    {
      if key in rates then rates[key] else defaultRate
    }

    /** No penalty reads as time 0.0, as the source has it. */
    function Penalty(key: string): real
      reads this
    {
      if key in penaltyUntil then penaltyUntil[key] else 0.0
    }

    constructor (initialRates: map<string, real>, rate: real, clock: Clock)
      ensures Valid(clock) && rates == initialRates && defaultRate == rate && buckets == map[] && penaltyUntil == map[] && held == {}
    {
      rates, defaultRate := initialRates, rate;
      buckets, penaltyUntil, held := map[], map[], {};
    }

    /** A new rate takes effect by dropping the bucket: the next acquisition starts a full one. */
    method SetRate(key: string, rate: real, clock: Clock)
      requires Valid(clock)
      modifies this`rates, this`buckets
      ensures Valid(clock) && rates == old(rates)[key := rate] && buckets == old(buckets) - {key}
    {
      rates := rates[key := rate];
      buckets := buckets - {key};
    }

    /** A penalty only ever moves the end of the pause further away. */
    method Penalize(key: string, seconds: real, clock: Clock)
      requires Valid(clock)
      modifies this`penaltyUntil, clock`now
      ensures Valid(clock) && clock.now >= old(clock.now)
      ensures penaltyUntil == old(penaltyUntil)[key := MaxR(old(Penalty(key)), clock.now + seconds)]
    {
      var now := clock.Read();
      penaltyUntil := penaltyUntil[key := MaxR(Penalty(key), now + seconds)];
    }

    /** The key's bucket, made on first use. */
    method BucketFor(key: string, clock: Clock) returns (b: TokenBucket)
      requires Valid(clock)
      modifies this`buckets, this`held, clock`now
      ensures Valid(clock) && clock.now >= old(clock.now)
      ensures key in buckets && b == buckets[key] && b in held && buckets == old(buckets)[key := b]
      ensures key in old(buckets) ==> b == old(buckets)[key] && held == old(held)
      ensures key !in old(buckets) ==>
                && fresh(b) && held == old(held) + {b} && b.passes == []
                && b.updated <= clock.now && b.Value() == b.made == Fresh(old(RateFor(key)), b.updated)
    {
      if key in buckets {
        b := buckets[key];
        assert buckets == buckets[key := b];
      } else {
        b := new TokenBucket(RateFor(key), 1, clock);
        buckets := buckets[key := b];
        held := held + {b};
      }
    }

    /** A pass on one of the buckets by whoever has its lock. */
    method OtherPass(clock: Clock)
      requires Valid(clock)
      modifies held, clock`now
      ensures Valid(clock) && clock.now >= old(clock.now)
      ensures forall b | b in held :: old(b.passes) <= b.passes
    {
      var now := clock.Read();
      if held != {} {
        var b :| b in held;
        var _ := b.Pass(now, clock);
      }
    }

    /** Any calls of others while this one waits: rates and penalties set, buckets made, and passes on any of them. */
    method Others(clock: Clock)
      requires Valid(clock)
      modifies this, held, clock`now
      ensures Valid(clock) && clock.now >= old(clock.now) && old(held) <= held && fresh(held - old(held))
      ensures forall b | b in old(held) :: old(b.passes) <= b.passes
      ensures SameOrNew(old(buckets), old(held))
    {
      var n: int := *;
      for c := 0 to Max(0, n)
        invariant Valid(clock) && clock.now >= old(clock.now) && old(held) <= held && fresh(held - old(held))
        invariant forall b | b in old(held) :: old(b.passes) <= b.passes
        invariant SameOrNew(old(buckets), old(held))
      {
        OtherCall(clock);
      }
    }

    method OtherCall(clock: Clock)
      requires Valid(clock)
      modifies this, held, clock`now
      ensures Valid(clock) && clock.now >= old(clock.now) && old(held) <= held && fresh(held - old(held))
      ensures forall b | b in old(held) :: old(b.passes) <= b.passes
      ensures SameOrNew(old(buckets), old(held))
    {
      var key: string, x: real, what: int := *, *, *;
      if what == 0 {
        SetRate(key, x, clock);
      } else if what == 1 {
        Penalize(key, x, clock);
      } else if what == 2 {
        var _ := BucketFor(key, clock);
      } else {
        OtherPass(clock);
      }
    }

    /** The penalty that stands at the call, with whatever others do while it is waited for. */
    method WaitForPenalty(key: string, clock: Clock)
      requires Valid(clock)
      modifies this, held, clock
      ensures Valid(clock) && clock.now >= old(clock.now) && clock.now >= old(Penalty(key)) && old(held) <= held && fresh(held - old(held))
      ensures forall b | b in old(held) :: old(b.passes) <= b.passes
      ensures SameOrNew(old(buckets), old(held)) && (old(Penalty(key)) <= old(clock.now) ==> buckets == old(buckets) && rates == old(rates))
      ensures clock.asked <= old(clock.asked) + MaxR(0.0, old(Penalty(key)) - old(clock.now))
    {
      var until := Penalty(key);
      var now := clock.Read();
      if until > now {
        clock.Sleep(until - now);
        Others(clock);
      }
    }

    /** The bucket that is the key's when the penalty is over. */
    method Arrive(key: string, clock: Clock) returns (b: TokenBucket)
      requires Valid(clock)
      modifies this, held, clock
      ensures Valid(clock) && clock.now >= old(clock.now) && clock.now >= old(Penalty(key)) && old(held) <= held && fresh(held - old(held))
      ensures b in held && forall c | c in old(held) :: old(c.passes) <= c.passes
      ensures KeysOwn(b, key, old(buckets), old(held)) && (old(Penalty(key)) <= old(clock.now) && key in old(buckets) ==> b == old(buckets)[key])
      ensures clock.asked <= old(clock.asked) + MaxR(0.0, old(Penalty(key)) - old(clock.now))
    {
      WaitForPenalty(key, clock);
      b := BucketFor(key, clock);
    }

    /** Of the buckets there were, only the key's own. */
    ghost predicate KeysOwn(b: TokenBucket, key: string, before: map<string, TokenBucket>, heldBefore: set<TokenBucket>) {
      b in heldBefore ==> key in before && b == before[key]
    }

    /** A token of one bucket, once its lock is free: others have theirs before. */
    method TakeTurn(b: TokenBucket, clock: Clock) returns (ghost before: seq<real>)
      requires Valid(clock) && b in held
      modifies this, held, clock
      ensures Valid(clock) && clock.now >= old(clock.now) && old(held) <= held && fresh(held - old(held))
      ensures b.updated == clock.now && old(b.passes) <= before
      ensures TookOne(b.made, before, b.passes) && b.passes[|b.passes| - 1] == clock.now
      ensures b.rate > 0.0 && clock.asked <= old(clock.asked) + 1.0 / b.rate
    {
      Others(clock);
      before := b.passes;
      AtMostOne(b.Value());
      b.Acquire(clock);
    }

    /**
     * acquire(key): not before the penalty that stood when it was called, and one token of the bucket that is the key's
     * when the penalty is over, whatever others do meanwhile. `before` are the passes on it when its lock was obtained.
     */
    method Acquire(key: string, clock: Clock) returns (b: TokenBucket, ghost before: seq<real>)
      requires Valid(clock)
      modifies this, held, clock
      ensures Valid(clock) && old(held) <= held && fresh(held - old(held)) && b in held && b.updated == clock.now
      ensures clock.now >= old(clock.now) && clock.now >= old(Penalty(key))
      ensures TookOne(b.made, before, b.passes) && b.passes[|b.passes| - 1] == clock.now
      ensures b in old(held) ==> old(b.passes) <= before
      ensures KeysOwn(b, key, old(buckets), old(held)) && (old(Penalty(key)) <= old(clock.now) && key in old(buckets) ==> b == old(buckets)[key])
      ensures b.rate > 0.0 && clock.asked <= old(clock.asked) + MaxR(0.0, old(Penalty(key)) - old(clock.now)) + 1.0 / b.rate
    {
      b := Arrive(key, clock);
      before := TakeTurn(b, clock);
    }
  }

  lemma AtMostOne(b: Bucket)
    requires BucketOk(b)
    ensures TimeFor(b) <= 1.0 / b.rate
  {
    RatioGrows(1.0 - b.tokens, 1.0, b.rate);
    RatioGrows(0.0, 1.0, b.rate);
  }

  /** Every bucket of a limiter keeps within its capacity and refill, in every window and whatever calls interleave. */
  lemma BucketsKeepWithin(limiter: RateLimiter, clock: Clock, b: TokenBucket, from: real, until: real)
    requires limiter.Valid(clock) && b in limiter.held && from <= until
    ensures GrantsIn(b.made, b.passes, from, until) as real <= b.made.capacity + Gain(from, until, b.made.rate)
  {
    WindowBound(b.made, b.passes, from, until);
  }
}
