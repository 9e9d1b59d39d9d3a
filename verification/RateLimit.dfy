/** The token bucket, over an abstract monotone clock. */
module RateLimit {
  import opened Common

  /** time.monotonic() and asyncio.sleep(): time never runs back, and a sleep lasts at least as long as asked. */
  class Clock {
    var now: real
    ghost var asked: real   // the seconds of sleep asked for so far

    method Read() returns (t: real)
      modifies `now
      ensures t == now >= old(now)
    {
      var passed: real := *;
      if passed > 0.0 { now := now + passed; }
      t := now;
    }

    method Sleep(seconds: real)
      modifies this
      ensures now >= old(now) + MaxR(0.0, seconds) && asked == old(asked) + MaxR(0.0, seconds)
    {
      var late: real := *;
      now := now + MaxR(0.0, seconds) + MaxR(0.0, late);
      asked := asked + MaxR(0.0, seconds);
    }
  }

  // ------------------------------------------------------------------ the bucket as a value

  datatype Bucket = Bucket(rate: real, capacity: real, tokens: real, updated: real)

  predicate BucketOk(b: Bucket) { b.rate > 0.0 && b.capacity >= 1.0 && 0.0 <= b.tokens <= b.capacity }

  /** Tokens refilled between two times. */
  function Gain(from: real, until: real, rate: real): real { (until - from) * rate }

  lemma GainAdds(a: real, b: real, c: real, rate: real)
    requires a <= b <= c && rate > 0.0
    ensures Gain(a, b, rate) + Gain(b, c, rate) == Gain(a, c, rate)
    ensures Gain(a, b, rate) >= 0.0 && Gain(b, c, rate) >= 0.0 && Gain(a, a, rate) == 0.0
  {
    Product(b - a, rate);
    Product(c - b, rate);
    assert (b - a) * rate + (c - b) * rate == (c - a) * rate;
  }

  function Refill(b: Bucket, now: real): Bucket {
    b.(tokens := MinR(b.capacity, b.tokens + Gain(b.updated, now, b.rate)), updated := now)
  }

  /** One pass of acquire's loop at time `now`: refill, then take a token if there is one. */
  function Try(b: Bucket, now: real): (Bucket, bool) {
    var r := Refill(b, now);
    if r.tokens >= 1.0 then (r.(tokens := r.tokens - 1.0), true) else (r, false)
  }

  /** The bucket after a series of passes at the given times. */
  function After(b: Bucket, times: seq<real>): Bucket {
    if times == [] then b else Try(After(b, times[..|times| - 1]), times[|times| - 1]).0
  }

  /** How many of the passes at times from `from` to `until` were granted a token. */
  function GrantsIn(b: Bucket, times: seq<real>, from: real, until: real): nat {
    if times == [] then 0
    else
      var n := |times| - 1;
      GrantsIn(b, times[..n], from, until) + if from <= times[n] <= until && Try(After(b, times[..n]), times[n]).1 then 1 else 0
  }

  ghost predicate Ordered(from: real, times: seq<real>) {
    (forall i | 0 <= i < |times| :: from <= times[i]) && forall i, j | 0 <= i < j < |times| :: times[i] <= times[j]
  }

  /** One pass moves tokens into at most one grant: nothing is created beyond the refill, or beyond the capacity. */
  lemma TryStep(b: Bucket, now: real)
    requires BucketOk(b) && b.updated <= now
    ensures var (e, granted) := Try(b, now);
            && BucketOk(e) && e.rate == b.rate && e.capacity == b.capacity && e.updated == now
            && (if granted then 1.0 else 0.0) + e.tokens <= b.tokens + Gain(b.updated, now, b.rate)
            && (if granted then 1.0 else 0.0) + e.tokens <= b.capacity
  {
    GainAdds(b.updated, now, now, b.rate);
  }

  /** A pass is granted exactly when what was left and what has come since make a token; it takes that token and no more. */
  lemma GrantedExactly(b: Bucket, now: real)
    requires BucketOk(b) && b.updated <= now
    ensures var (e, granted) := Try(b, now); var there := b.tokens + (now - b.updated) * b.rate;
            && (granted <==> there >= 1.0)
            && (there <= b.capacity ==> e.tokens == there - if granted then 1.0 else 0.0)
            && (there > b.capacity ==> e.tokens == b.capacity - 1.0)
  {
    assert Gain(b.updated, now, b.rate) == (now - b.updated) * b.rate;
  }

  lemma {:induction false} AfterKeeps(b: Bucket, times: seq<real>)
    requires BucketOk(b) && Ordered(b.updated, times)
    ensures var e := After(b, times);
            && BucketOk(e) && e.rate == b.rate && e.capacity == b.capacity
            && e.updated == (if times == [] then b.updated else times[|times| - 1])
  {
    if times != [] {
      AfterKeeps(b, times[..|times| - 1]);
      TryStep(After(b, times[..|times| - 1]), times[|times| - 1]);
    }
  }

  /**
   * Grants in the window, and the tokens left at its last pass, never exceed a full bucket plus what was refilled since
   * the window began. Passes before the window do not count, and those after it add nothing.
   */
  lemma {:induction false} WindowState(b: Bucket, times: seq<real>, from: real, until: real)
    requires BucketOk(b) && Ordered(b.updated, times) && from <= until
    ensures var (g, e) := (GrantsIn(b, times, from, until) as real, After(b, times));
            && (times == [] || e.updated < from ==> g == 0.0)
            && (times != [] && from <= e.updated <= until ==> g + e.tokens <= b.capacity + Gain(from, e.updated, b.rate))
            && g <= b.capacity + Gain(from, until, b.rate)
  {
    GainAdds(from, until, until, b.rate);
    if times != [] {
      var n := |times| - 1;
      var (front, now) := (times[..n], times[n]);
      WindowState(b, front, from, until);
      AfterKeeps(b, front);
      TryStep(After(b, front), now);
      WindowNext(b, front, now, from, until);
    }
  }

  lemma WindowNext(b: Bucket, front: seq<real>, now: real, from: real, until: real)
    requires BucketOk(b) && Ordered(b.updated, front) && from <= until
    requires var (e, (f, granted)) := (After(b, front), Try(After(b, front), now));
             && e.rate == b.rate && e.updated <= now && f.updated == now && f.tokens >= 0.0
             && (if granted then 1.0 else 0.0) + f.tokens <= e.tokens + Gain(e.updated, now, b.rate)
             && (if granted then 1.0 else 0.0) + f.tokens <= b.capacity
             && (front == [] || e.updated < from ==> GrantsIn(b, front, from, until) == 0)
             && (front != [] && from <= e.updated <= until ==>
                   GrantsIn(b, front, from, until) as real + e.tokens <= b.capacity + Gain(from, e.updated, b.rate))
    ensures var (e, (f, granted)) := (After(b, front), Try(After(b, front), now));
            from <= now <= until ==>
              GrantsIn(b, front, from, until) as real + (if granted then 1.0 else 0.0) + f.tokens <= b.capacity + Gain(from, now, b.rate)
              && Gain(from, now, b.rate) <= Gain(from, until, b.rate)
  {
    var e := After(b, front);
    if from <= now <= until {
      GainAdds(from, now, until, b.rate);
      if front != [] && from <= e.updated { GainAdds(from, e.updated, now, b.rate); }
    }
  }

  /** In any history of passes, any window of time grants at most capacity + rate * (until - from) tokens. */
  lemma WindowBound(b: Bucket, times: seq<real>, from: real, until: real)
    requires BucketOk(b) && Ordered(b.updated, times) && from <= until
    ensures GrantsIn(b, times, from, until) as real <= b.capacity + Gain(from, until, b.rate)
  {
    WindowState(b, times, from, until);
  }

  /** What the window's grants leave in the bucket when it ends. */
  lemma WindowLeaves(b: Bucket, times: seq<real>, from: real, until: real)
    requires BucketOk(b) && Ordered(b.updated, times) && b.updated <= until && from <= until
    requires forall i | 0 <= i < |times| :: times[i] <= until
    ensures GrantsIn(b, times, from, until) as real + Refill(After(b, times), until).tokens <= b.capacity + Gain(from, until, b.rate)
  {
    var e := After(b, times);
    WindowState(b, times, from, until);
    AfterKeeps(b, times);
    GainAdds(from, until, until, b.rate);
    if times != [] && from <= e.updated { GainAdds(from, e.updated, until, b.rate); }
  }

  // ------------------------------------------------------------------ a bucket replaced by a full one

  /** The bucket made for a key on its first use after a change of rate: full, and of one token. */
  function Fresh(rate: real, now: real): Bucket { Bucket(MaxR(rate, 0.000001), 1.0, 1.0, now) }

  /** Grants of a bucket and of its replacement in one window. */
  function BothIn(b: Bucket, times: seq<real>, c: Bucket, later: seq<real>, from: real, until: real): nat {
    GrantsIn(b, times, from, until) + GrantsIn(c, later, from, until)
  }

  /**
   * Whoever waits for the replaced bucket goes on taking its tokens. So a window around the replacement grants at most what
   * each of the two allows: another token, and another refill from the replacement on.
   */
  lemma ReplacedBound(b: Bucket, times: seq<real>, rate: real, later: seq<real>, from: real, reset: real, until: real)
    requires BucketOk(b) && Ordered(b.updated, times) && Ordered(reset, later) && from <= until
    ensures BothIn(b, times, Fresh(rate, reset), later, from, until) as real
            <= b.capacity + Gain(from, until, b.rate)
               + if until < reset then 0.0 else 1.0 + Gain(MaxR(from, reset), until, Fresh(rate, reset).rate)
  {
    WindowBound(b, times, from, until);
    NothingBefore(Fresh(rate, reset), later, from, until);
    if until >= reset { WindowBound(Fresh(rate, reset), later, MaxR(from, reset), until); }
  }

  /** Passes are counted from the bucket's first moment on. */
  lemma {:induction false} NothingBefore(b: Bucket, times: seq<real>, from: real, until: real)
    requires Ordered(b.updated, times)
    ensures GrantsIn(b, times, from, until) == GrantsIn(b, times, MaxR(from, b.updated), until)
    ensures until < b.updated ==> GrantsIn(b, times, from, until) == 0
  {
    if times != [] { NothingBefore(b, times[..|times| - 1], from, until); }
  }

  lemma AfterSnoc(b: Bucket, times: seq<real>, now: real)
    ensures After(b, times + [now]) == Try(After(b, times), now).0
  {
    assert (times + [now])[..|times|] == times;
  }

  lemma OrderedSnoc(from: real, times: seq<real>, now: real)
    requires Ordered(from, times) && from <= now && (times != [] ==> times[|times| - 1] <= now)
    ensures Ordered(from, times + [now])
  {
  }

  lemma GrantsSnoc(b: Bucket, times: seq<real>, now: real, from: real, until: real)
    requires from <= now <= until && Try(After(b, times), now).1
    ensures GrantsIn(b, times + [now], from, until) == GrantsIn(b, times, from, until) + 1
  {
    assert (times + [now])[..|times|] == times;
  }

  /** Passes at 0, 1, ..., n. */
  function EachSecond(n: nat): (times: seq<real>)
    ensures |times| == n + 1 && times[n] == n as real
  {
    if n == 0 then [0.0] else EachSecond(n - 1) + [n as real]
  }

  /** A bucket of one token a second is empty after a pass and full at the next. */
  lemma NextSecond(t: real)
    ensures Try(Bucket(1.0, 1.0, 0.0, t), t + 1.0) == (Bucket(1.0, 1.0, 0.0, t + 1.0), true)
  {
    assert Gain(t, t + 1.0, 1.0) == 1.0;
  }

  lemma FirstSecond()
    ensures Try(Fresh(1.0, 0.0), 0.0) == (Bucket(1.0, 1.0, 0.0, 0.0), true)
  {
    assert Gain(0.0, 0.0, 1.0) == 0.0;
  }

  lemma {:induction false} EachInOrder(n: nat)
    ensures Ordered(0.0, EachSecond(n))
  {
    if n > 0 {
      EachInOrder(n - 1);
      OrderedSnoc(0.0, EachSecond(n - 1), n as real);
    }
  }

  lemma AfterNext(b: Bucket, times: seq<real>, t: real)
    requires After(b, times) == Bucket(1.0, 1.0, 0.0, t)
    ensures After(b, times + [t + 1.0]) == Bucket(1.0, 1.0, 0.0, t + 1.0) && Try(After(b, times), t + 1.0).1
  {
    AfterSnoc(b, times, t + 1.0);
    NextSecond(t);
  }

  /** Every pass of a bucket of one token a second is granted. */
  lemma {:induction false} AfterEach(b: Bucket, n: nat)
    requires Try(b, 0.0) == (Bucket(1.0, 1.0, 0.0, 0.0), true)
    ensures After(b, EachSecond(n)) == Bucket(1.0, 1.0, 0.0, n as real)
  {
    if n == 0 {
      AfterSnoc(b, [], 0.0);
      assert [] + [0.0] == [0.0];
    } else {
      AfterEach(b, n - 1);
      AfterNext(b, EachSecond(n - 1), (n - 1) as real);
    }
  }

  lemma {:induction false} EachIsGranted(b: Bucket, n: nat, until: real)
    requires until >= n as real && Try(b, 0.0) == (Bucket(1.0, 1.0, 0.0, 0.0), true)
    ensures GrantsIn(b, EachSecond(n), 0.0, until) == n + 1
  {
    if n == 0 {
      GrantsSnoc(b, [], 0.0, 0.0, until);
      assert [] + [0.0] == [0.0];
    } else {
      EachIsGranted(b, n - 1, until);
      AfterEach(b, n - 1);
      AfterNext(b, EachSecond(n - 1), (n - 1) as real);
      GrantsSnoc(b, EachSecond(n - 1), n as real, 0.0, until);
    }
  }

  /** The bound is attained: a bucket of one token a second, replaced at once and still waited for, grants twice as many. */
  lemma ReplacedBoundIsTight(n: nat)
    ensures var (b, times, until) := (Fresh(1.0, 0.0), EachSecond(n), n as real);
            && Ordered(0.0, times) && BothIn(b, times, b, times, 0.0, until) == 2 * (n + 1)
            && (2 * (n + 1)) as real == b.capacity + Gain(0.0, until, b.rate) + 1.0 + Gain(0.0, until, b.rate)
  {
    FirstSecond();
    EachInOrder(n);
    EachIsGranted(Fresh(1.0, 0.0), n, n as real);
    assert Gain(0.0, n as real, 1.0) == n as real;
  }

  // ------------------------------------------------------------------ exactly when a replacement costs nothing

  /** What a bucket is refilled with in a window if its rate changes at `reset`. */
  function Refilled(rate: real, newRate: real, reset: real, from: real, until: real): real {
    if until <= reset then Gain(from, until, rate)
    else if from >= reset then Gain(from, until, newRate)
    else Gain(from, reset, rate) + Gain(reset, until, newRate)
  }

  /** Every window grants what a single bucket would that changed its rate, whatever comes after the replacement. */
  ghost predicate AsIfKept(b: Bucket, times: seq<real>, c: Bucket) {
    forall from: real, until: real, later: seq<real> | from <= until && Ordered(c.updated, later) ::
      BothIn(b, times, c, later, from, until) as real <= 1.0 + Refilled(b.rate, c.rate, c.updated, from, until)
  }

  lemma {:induction false} WidenWindow(b: Bucket, times: seq<real>, from: real, until: real, wider: real)
    requires until <= wider && forall i | 0 <= i < |times| :: times[i] <= until
    ensures GrantsIn(b, times, from, wider) == GrantsIn(b, times, from, until)
  {
    if times != [] { WidenWindow(b, times[..|times| - 1], from, until, wider); }
  }

  lemma {:induction false} NoneSince(b: Bucket, times: seq<real>, from: real, until: real)
    requires forall i | 0 <= i < |times| :: times[i] < from
    ensures GrantsIn(b, times, from, until) == 0
  {
    if times != [] { NoneSince(b, times[..|times| - 1], from, until); }
  }

  /** A bucket of one token is never full right after a pass. */
  lemma NotFullAfter(b: Bucket, times: seq<real>)
    requires BucketOk(b) && b.capacity == 1.0 && Ordered(b.updated, times) && times != []
    ensures After(b, times).tokens < 1.0
  {
    AfterKeeps(b, times[..|times| - 1]);
    AfterKeeps(b, times);
  }

  /** Since some pass that found the bucket full, nothing was lost: every grant shows in the tokens left. */
  lemma {:induction false} SinceFull(rate: real, made: real, times: seq<real>) returns (from: real)
    requires Ordered(made, times) && times != []
    ensures var (b, last) := (Fresh(rate, made), times[|times| - 1]);
            && from <= last && After(b, times).updated == last
            && GrantsIn(b, times, from, last) as real + After(b, times).tokens == 1.0 + Gain(from, last, b.rate)
  {
    var (b, n) := (Fresh(rate, made), |times| - 1);
    var (front, now) := (times[..n], times[n]);
    var e := After(b, front);
    AfterKeeps(b, front);
    GainAdds(e.updated, now, now, b.rate);
    if Refill(e, now).tokens == 1.0 {
      from := now;
      if front != [] { NotFullAfter(b, front); }
      NoneSince(b, front, now, now);
    } else {
      from := SinceFull(rate, made, front);
      GainAdds(from, e.updated, now, b.rate);
      WidenWindow(b, front, from, e.updated, now);
    }
  }

  /** The window since the bucket was last full, and one pass of the replacement. */
  lemma ReplacedTooEarly(rate: real, made: real, times: seq<real>, newRate: real, reset: real)
    requires Ordered(made, times) && made <= reset && forall i | 0 <= i < |times| :: times[i] <= reset
    requires Refill(After(Fresh(rate, made), times), reset).tokens < 1.0
    ensures !AsIfKept(Fresh(rate, made), times, Fresh(newRate, reset))
  {
    var (b, c) := (Fresh(rate, made), Fresh(newRate, reset));
    GainAdds(made, reset, reset, b.rate);
    assert times != [];
    var from := SinceFull(rate, made, times);
    var last := times[|times| - 1];
    AfterKeeps(b, times);
    GainAdds(from, last, reset, b.rate);
    WidenWindow(b, times, from, last, reset);
    GainAdds(reset, reset, reset, c.rate);
    assert [reset][..0] == [];
    assert GrantsIn(c, [reset], from, reset) == GrantsIn(c, [], from, reset) + 1;
    assert Ordered(reset, [reset]);
    assert BothIn(b, times, c, [reset], from, reset) as real > 1.0 + Refilled(b.rate, c.rate, reset, from, reset);
  }

  lemma ReplacedInTime(rate: real, made: real, times: seq<real>, c: Bucket, later: seq<real>, from: real, until: real)
    requires Ordered(made, times) && made <= c.updated && forall i | 0 <= i < |times| :: times[i] <= c.updated
    requires Refill(After(Fresh(rate, made), times), c.updated).tokens >= 1.0
    requires BucketOk(c) && c.capacity == 1.0 && Ordered(c.updated, later) && from <= until
    ensures BothIn(Fresh(rate, made), times, c, later, from, until) as real
            <= 1.0 + Refilled(Fresh(rate, made).rate, c.rate, c.updated, from, until)
  {
    var b := Fresh(rate, made);
    NothingBefore(c, later, from, until);
    if until < c.updated {
      WindowBound(b, times, from, until);
    } else if from > c.updated {
      NoneSince(b, times, from, until);
      WindowBound(c, later, from, until);
    } else {
      AcrossReplacement(b, times, c, later, from, until);
    }
  }

  lemma AcrossReplacement(b: Bucket, times: seq<real>, c: Bucket, later: seq<real>, from: real, until: real)
    requires BucketOk(b) && b.capacity == 1.0 && Ordered(b.updated, times) && b.updated <= c.updated
    requires forall i | 0 <= i < |times| :: times[i] <= c.updated
    requires Refill(After(b, times), c.updated).tokens >= 1.0
    requires BucketOk(c) && c.capacity == 1.0 && Ordered(c.updated, later) && from <= c.updated <= until
    ensures GrantsIn(b, times, from, until) as real + GrantsIn(c, later, c.updated, until) as real
            <= 1.0 + Refilled(b.rate, c.rate, c.updated, from, until)
  {
    WidenWindow(b, times, from, c.updated, until);
    WindowLeaves(b, times, from, c.updated);
    WindowBound(c, later, c.updated, until);
    RefilledAcross(b.rate, c.rate, c.updated, from, until);
  }

  lemma RefilledAcross(rate: real, newRate: real, reset: real, from: real, until: real)
    requires from <= reset <= until && rate > 0.0 && newRate > 0.0
    ensures Refilled(rate, newRate, reset, from, until) == Gain(from, reset, rate) + Gain(reset, until, newRate)
  {
    GainAdds(from, reset, reset, rate);
    GainAdds(reset, reset, until, newRate);
  }

  /**
   * A replacement whose bucket nobody waits for any more costs nothing, in every window and whatever follows, exactly when
   * the replaced bucket was full again.
   */
  lemma ReplacedExactly(rate: real, made: real, times: seq<real>, newRate: real, reset: real)
    requires Ordered(made, times) && made <= reset && forall i | 0 <= i < |times| :: times[i] <= reset
    ensures AsIfKept(Fresh(rate, made), times, Fresh(newRate, reset)) <==>
            Refill(After(Fresh(rate, made), times), reset).tokens >= 1.0
  {
    var (b, c) := (Fresh(rate, made), Fresh(newRate, reset));
    if Refill(After(b, times), reset).tokens < 1.0 {
      ReplacedTooEarly(rate, made, times, newRate, reset);
    } else {
      forall from: real, until: real, later: seq<real> | from <= until && Ordered(c.updated, later)
        ensures BothIn(b, times, c, later, from, until) as real <= 1.0 + Refilled(b.rate, c.rate, c.updated, from, until)
      {
        ReplacedInTime(rate, made, times, c, later, from, until);
      }
    }
  }

  /** A pass without a grant only refills, so retrying later is as if it had not happened. */
  lemma RetryIsNeutral(b: Bucket, t0: real, t1: real)
    requires BucketOk(b) && b.updated <= t0 <= t1 && !Try(b, t0).1
    ensures Try(Try(b, t0).0, t1) == Try(b, t1)
  {
    GainAdds(b.updated, t0, t1, b.rate);
  }

  /** One more pass at the end of a history. */
  lemma PassOn(b: Bucket, times: seq<real>, now: real)
    requires BucketOk(b) && Ordered(b.updated, times) && After(b, times).updated <= now
    ensures Ordered(b.updated, times + [now])
    ensures After(b, times + [now]) == Try(After(b, times), now).0 && BucketOk(After(b, times + [now]))
  {
    AfterKeeps(b, times);
    AfterSnoc(b, times, now);
    OrderedSnoc(b.updated, times, now);
    TryStep(After(b, times), now);
  }

  class TokenBucket {
    const rate: real
    const capacity: real
    var tokens: real
    var updated: real
    ghost const made: Bucket      // the bucket when it was made
    ghost var passes: seq<real>   // the times of all passes since

    function Value(): Bucket
      reads this
    {
      Bucket(rate, capacity, tokens, updated)
    }

    /** The bucket is what its passes have made of it. */
    ghost predicate Valid(clock: Clock)
      reads this, clock
    {
      && BucketOk(made) && Ordered(made.updated, passes) && Value() == After(made, passes)
      && BucketOk(Value()) && updated <= clock.now
    }

    constructor (ratePerSecond: real, burst: int, clock: Clock)
      modifies clock`now
      ensures Valid(clock) && tokens == capacity == Max(burst, 1) as real && rate == MaxR(ratePerSecond, 0.000001)
      ensures updated == clock.now >= old(clock.now) && passes == [] && made == Value()
    {
      rate := MaxR(ratePerSecond, 0.000001);
      capacity := Max(burst, 1) as real;
      tokens := Max(burst, 1) as real;
      var now := clock.Read();
      updated := now;
      made := Bucket(MaxR(ratePerSecond, 0.000001), Max(burst, 1) as real, Max(burst, 1) as real, now);
      passes := [];
    }

    /** One pass of the loop: refill, and take a token if there is one. */
    method Pass(now: real, clock: Clock) returns (granted: bool)
      requires Valid(clock) && updated <= now == clock.now
      modifies this
      ensures Valid(clock) && updated == now && passes == old(passes) + [now]
      ensures (Value(), granted) == Try(old(Value()), now)
    {
      PassOn(made, passes, now);
      tokens := MinR(capacity, tokens + Gain(updated, now, rate));
      updated := now;
      granted := tokens >= 1.0;
      if granted { tokens := tokens - 1.0; }
      passes := passes + [now];
    }

    /** Sleeps for as long as a token takes, after a pass without a grant. */
    method Rest(ghost b: Bucket, clock: Clock)
      requires Valid(clock) && BucketOk(b) && b.updated <= updated && !Try(b, updated).1 && Value() == Try(b, updated).0
      modifies clock
      ensures Valid(clock) && clock.now >= old(clock.now) && Rested(b, Value(), clock.now)
      ensures clock.asked <= old(clock.asked) + TimeFor(b)
    {
      MissingShrinks(b, updated);
      clock.Sleep((1.0 - tokens) / rate);
      NowRested(b, Value(), clock.now);
    }

    /**
     * Waits for a token: the outcome of a single granted pass at the final time. It asks to sleep at most once, and for no
     * longer than the tokens missing at the call take to come.
     */
    method Acquire(clock: Clock)
      requires Valid(clock)
      modifies this, clock
      ensures Valid(clock) && updated == clock.now >= old(clock.now)
      ensures Try(old(Value()), clock.now) == (Value(), true)
      ensures TookOne(made, old(passes), passes) && passes[|passes| - 1] == clock.now
      ensures clock.asked <= old(clock.asked) + TimeFor(old(Value()))
    {
      ghost var (b, before) := (Value(), passes);
      ghost var waited := false;
      while true
        invariant Valid(clock) && clock.now >= old(clock.now) && b.updated <= updated
        invariant if waited then Rested(b, Value(), clock.now) && passes == before + [updated] else Value() == b && passes == before
        invariant clock.asked <= old(clock.asked) + if waited then TimeFor(b) else 0.0
        decreases !waited
      {
        ghost var (v, woken) := (Value(), clock.now);
        var now := clock.Read();
        if waited { RetrySucceeds(b, v, woken, now); }
        var granted := Pass(now, clock);
        if granted {
          if waited { TookSecond(made, before, v.updated, now); } else { TookFirst(made, before, now); }
          return;
        }
        waited := true;
        Rest(b, clock);
      }
    }
  }

  lemma RatioGrows(a: real, b: real, c: real)
    requires a <= b && c > 0.0
    ensures a / c <= b / c
  {
  }

  /** How long the tokens a bucket lacks take to come. */
  function TimeFor(b: Bucket): (t: real)
    requires b.rate > 0.0
    ensures t >= 0.0
  {
    MaxR(0.0, (1.0 - b.tokens) / b.rate)
  }

  /** A pass without a grant leaves no fewer tokens than before, so no more are missing. */
  lemma MissingShrinks(b: Bucket, now: real)
    requires BucketOk(b) && b.updated <= now && !Try(b, now).1
    ensures TimeFor(Try(b, now).0) <= TimeFor(b)
  {
    GainAdds(b.updated, now, now, b.rate);
    RatioGrows(1.0 - Try(b, now).0.tokens, 1.0 - b.tokens, b.rate);
  }

  /** Of the passes since `before` exactly the last was granted; there are at most two. */
  ghost predicate TookOne(b: Bucket, before: seq<real>, passes: seq<real>) {
    && |before| < |passes| <= |before| + 2 && passes[..|before|] == before
    && Try(After(b, passes[..|passes| - 1]), passes[|passes| - 1]).1
    && (|passes| == |before| + 2 ==> !Try(After(b, before), passes[|before|]).1)
  }

  lemma TookFirst(b: Bucket, before: seq<real>, now: real)
    requires Try(After(b, before), now).1
    ensures TookOne(b, before, before + [now])
  {
    assert (before + [now])[..|before|] == before;
  }

  lemma TookSecond(b: Bucket, before: seq<real>, first: real, now: real)
    requires !Try(After(b, before), first).1 && Try(After(b, before + [first]), now).1
    ensures TookOne(b, before, before + [first] + [now])
  {
    var passes := before + [first] + [now];
    assert passes[..|before|] == before && passes[..|before| + 1] == before + [first];
  }

  /** Whoever sleeps as long as asked is rested. */
  lemma NowRested(b: Bucket, v: Bucket, now: real)
    requires BucketOk(b) && b.updated <= v.updated && !Try(b, v.updated).1 && v == Try(b, v.updated).0
    requires v.rate > 0.0 && now >= v.updated + MaxR(0.0, (1.0 - v.tokens) / v.rate)
    ensures Rested(b, v, now)
  {
    SleepIsEnough(1.0 - v.tokens, v.rate, now - v.updated);
  }

  /** v is b after a pass without a grant, and by now it has had time to refill to a token. */
  ghost predicate Rested(b: Bucket, v: Bucket, now: real) {
    && b.updated <= v.updated <= now && v == Try(b, v.updated).0 && !Try(b, v.updated).1
    && v.tokens + Gain(v.updated, now, v.rate) >= 1.0
  }

  lemma RetrySucceeds(b: Bucket, v: Bucket, woken: real, now: real)
    requires BucketOk(b) && Rested(b, v, woken) && woken <= now
    ensures Try(v, now) == Try(b, now) && Try(v, now).1
  {
    RetryIsNeutral(b, v.updated, now);
    GainAdds(v.updated, woken, now, v.rate);
  }

  lemma SleepIsEnough(missing: real, rate: real, slept: real)
    requires rate > 0.0 && slept >= missing / rate
    ensures slept * rate >= missing
  {
    assert (missing / rate) * rate == missing;
    assert (slept - missing / rate) * rate >= 0.0;
  }
}
