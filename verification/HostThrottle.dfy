/** The minimum delay between two requests to one host, with other hosts' waits interleaved. */
module HostThrottle {
  import opened Common
  import opened RateLimit

  datatype Grant = Grant(host: string, time: real, delay: real)

  function HostsOf(log: seq<Grant>): set<string> { set g | g in log :: g.host }

  lemma {:induction false} WithoutIsDistinct(hosts: seq<string>, host: string)
    requires Distinct(hosts)
    ensures Distinct(Without(hosts, [host])) && forall h :: h in Without(hosts, [host]) <==> h in hosts && h != host
  {
    if hosts != [] {
      var n := |hosts| - 1;
      WithoutIsDistinct(hosts[..n], host);
      assert hosts == hosts[..n] + [hosts[n]];
      assert hosts[n] !in hosts[..n];
    }
  }

  /** A duplicate-free list inside a set is no longer than the set. */
  lemma {:induction false} DistinctFits(hosts: seq<string>, all: set<string>)
    requires Distinct(hosts) && forall h | h in hosts :: h in all
    ensures |hosts| <= |all|
  {
    if hosts != [] {
      var n := |hosts| - 1;
      assert hosts[n] in all && hosts[n] !in hosts[..n];
      DistinctFits(hosts[..n], all - {hosts[n]});
    }
  }

  /** The insertion order lists exactly the remembered hosts. */
  ghost predicate InOrder(order: seq<string>, last: map<string, real>) {
    Distinct(order) && forall h :: h in order <==> h in last
  }

  lemma DropOldest(order: seq<string>, last: map<string, real>)
    requires InOrder(order, last) && order != []
    ensures InOrder(order[1..], last - {order[0]})
  {
    assert order == [order[0]] + order[1..];
  }

  lemma MoveToEnd(order: seq<string>, last: map<string, real>, host: string, now: real)
    requires InOrder(order, last)
    ensures InOrder(Without(order, [host]) + [host], last[host := now])
  {
    WithoutIsDistinct(order, host);
    var w := Without(order, [host]);
    forall i | 0 <= i < |w| ensures w[i] != host { assert w[i] in w; }
    forall h ensures h in w + [host] <==> h in last[host := now] { assert h in w + [host] <==> h in w || h == host; }
  }

  /** Later grants for a host the table never forgot come at least their own delay after earlier ones. */
  ghost predicate Spaced(log: seq<Grant>, forgotten: set<string>) {
    forall i, j | 0 <= i < j < |log| && log[i].host == log[j].host && log[i].host !in forgotten ::
      log[j].time >= log[i].time + MaxR(0.0, log[j].delay)
  }

  /** The table remembers at least the latest grant of every host it never forgot. */
  ghost predicate Remembers(log: seq<Grant>, last: map<string, real>, forgotten: set<string>) {
    && last.Keys <= HostsOf(log) && (forgotten == {} ==> last.Keys == HostsOf(log))
    && (forall g | g in log && g.host !in forgotten :: g.host in last && g.time <= last[g.host])
    && Spaced(log, forgotten)
  }

  lemma ForgetHost(log: seq<Grant>, last: map<string, real>, forgotten: set<string>, host: string)
    requires Remembers(log, last, forgotten)
    ensures Remembers(log, last - {host}, forgotten + {host})
  {
  }

  /** The n hosts at the end of the list, all of it if it is shorter. */
  function Newest(hosts: seq<string>, n: nat): seq<string> { if |hosts| <= n then hosts else hosts[|hosts| - n..] }

  /** after holds no host that before did not, with the same times. */
  ghost predicate Shrinks(before: map<string, real>, after: map<string, real>) {
    forall h | h in after :: h in before && after[h] == before[h]
  }

  /** Hosts were forgotten from the front of the list, and of the delays exactly theirs. */
  ghost predicate Trimmed(before: seq<string>, delays: map<string, real>, after: seq<string>, left: map<string, real>) {
    && |after| <= |before| && after == before[|before| - |after|..]
    && forall h :: (h in left <==> h in delays && (h in after || h !in before)) && (h in left ==> left[h] == delays[h])
  }

  lemma TrimmedNext(before: seq<string>, delays: map<string, real>, after: seq<string>, left: map<string, real>)
    requires Distinct(before) && Trimmed(before, delays, after, left) && after != []
    ensures Trimmed(before, delays, after[1..], left - {after[0]})
  {
    assert forall h :: h in after <==> h == after[0] || h in after[1..];
    assert after[0] in before;
  }

  class HostThrottle {
    const delay: real
    const maxHosts: nat
    var last: map<string, real>
    var order: seq<string>             // least recently granted first
    var perHost: map<string, real>
    var forgotten: set<string>         // hosts evicted at some time: their lock may be held twice
    ghost var log: seq<Grant>

    ghost predicate Valid(clock: Clock)
      reads this, clock
    {
      && InOrder(order, last) && Remembers(log, last, forgotten) && (|HostsOf(log)| <= maxHosts ==> forgotten == {})
      && forall h | h in last :: last[h] <= clock.now
    }

    /** The delay in force for a host; a negative one is accepted and means no wait. */
    function DelayOf(host: string): real
      reads this
    {
      if host in perHost then perHost[host] else delay
    }

    constructor (delaySeconds: real, hosts: nat, clock: Clock)
      ensures Valid(clock) && log == [] && forgotten == {} && perHost == map[] && delay == delaySeconds && maxHosts == hosts
    {
      delay, maxHosts := delaySeconds, hosts;
      last, order, perHost := map[], [], map[];
      log, forgotten := [], {};
    }

    method SetDelayFor(host: string, seconds: real, clock: Clock)
      requires Valid(clock)
      modifies this`perHost
      ensures Valid(clock) && perHost == old(perHost)[host := seconds]
    {
      perHost := perHost[host := seconds];
    }

    /** The state update of a grant now, before hosts are evicted. */
    method Append(host: string, d: real, now: real)
      requires InOrder(order, last) && Remembers(log, last, forgotten) && (|HostsOf(log)| <= maxHosts ==> forgotten == {})
      requires host in last && host !in forgotten ==> now >= last[host] + MaxR(0.0, d)
      modifies `order, `last, `log
      ensures InOrder(order, last) && Remembers(log, last, forgotten)
      ensures |HostsOf(log)| <= maxHosts ==> forgotten == {} && |order| <= maxHosts
      ensures last == old(last)[host := now] && log == old(log) + [Grant(host, now, d)]
      ensures order == Without(old(order), [host]) + [host]
    {
      ghost var g := Grant(host, now, d);
      MoveToEnd(order, last, host, now);
      LogGrows(log, g, last, forgotten);
      FitsStill(order, last, log, g, forgotten);
      last := last[host := now];
      order := Without(order, [host]) + [host];
      log := log + [g];
    }

    /** The state update of a grant now, with the eviction loop. */
    method Record(host: string, d: real, now: real, clock: Clock)
      requires Valid(clock) && now == clock.now
      requires host in last && host !in forgotten ==> now >= last[host] + MaxR(0.0, d)
      modifies this
      ensures Valid(clock) && log == old(log) + [Grant(host, now, d)] && old(forgotten) <= forgotten
      ensures Shrinks(old(last)[host := now], last)
      ensures order == Newest(Without(old(order), [host]) + [host], maxHosts)
      ensures Trimmed(Without(old(order), [host]) + [host], old(perHost), order, perHost)
    {
      Append(host, d, now);
      Evict();
    }

    /** Forgets the least recently granted host, and its delay with it. */
    method EvictOldest()
      requires InOrder(order, last) && Remembers(log, last, forgotten) && order != []
      modifies `order, `last, `perHost, `forgotten
      ensures InOrder(order, last) && Remembers(log, last, forgotten) && order == old(order)[1..]
      ensures old(forgotten) <= forgotten && Shrinks(old(last), last)
      ensures perHost == old(perHost) - {old(order)[0]}
    {
      var oldest := order[0];
      DropOldest(order, last);
      ForgetHost(log, last, forgotten, oldest);
      order := order[1..];
      last := last - {oldest};
      perHost := perHost - {oldest};
      forgotten := forgotten + {oldest};
    }

    /** Forgets the oldest hosts until the table fits. */
    method Evict()
      requires InOrder(order, last) && Remembers(log, last, forgotten)
      modifies `order, `last, `perHost, `forgotten
      ensures InOrder(order, last) && Remembers(log, last, forgotten) && old(forgotten) <= forgotten && Shrinks(old(last), last)
      ensures order == Newest(old(order), maxHosts) && (|old(order)| <= maxHosts ==> forgotten == old(forgotten))
      ensures Trimmed(old(order), old(perHost), order, perHost)
    {
      ghost var (was, delays) := (order, perHost);
      while |order| > maxHosts
        invariant InOrder(order, last) && Remembers(log, last, forgotten)
        invariant old(forgotten) <= forgotten && Shrinks(old(last), last)
        invariant Trimmed(was, delays, order, perHost)
        invariant if |was| <= maxHosts then order == was && forgotten == old(forgotten) else |order| >= maxHosts
        decreases |order|
      {
        TrimmedNext(was, delays, order, perHost);
        EvictOldest();
      }
    }

    /**
     * What others do while this host sleeps: delays change, other hosts are granted. The host's own lock keeps its
     * other waits out, unless the host was evicted and with it the lock.
     */
    method OtherHosts(host: string, clock: Clock)
      requires Valid(clock)
      modifies this, clock`now
      ensures Valid(clock) && clock.now >= old(clock.now) && |log| >= |old(log)| && old(forgotten) <= forgotten
      ensures host in last && host !in forgotten ==> host in old(last) && last[host] == old(last)[host]
    {
      var n: int := *;
      for i := 0 to Max(0, n)
        invariant Valid(clock) && clock.now >= old(clock.now) && |log| >= |old(log)| && old(forgotten) <= forgotten
        invariant host in last && host !in forgotten ==> host in old(last) && last[host] == old(last)[host]
      {
        var other: string, d: real, changes: bool := *, *, *;
        var now := clock.Read();
        if changes {
          SetDelayFor(other, d, clock);
        } else if (other != host || host in forgotten) && (other in last && other !in forgotten ==> now >= last[other] + MaxR(0.0, d)) {
          Record(other, d, now, clock);
        }
      }
    }

    /**
     * wait(host): the grant comes at least the host's delay after the previous one it knows of; the delay is the one in
     * force at the call. It does not ask to sleep for longer than that takes.
     */
    method Wait(host: string, clock: Clock)
      requires Valid(clock)
      modifies this, clock
      ensures Valid(clock) && clock.now >= old(clock.now)
      ensures |log| > |old(log)| && log[|log| - 1] == Grant(host, clock.now, old(DelayOf(host)))
      ensures host in old(last) ==> clock.now >= old(last)[host] + MaxR(0.0, old(DelayOf(host)))
      ensures Spaced(log, forgotten) && (|HostsOf(log)| <= maxHosts ==> forgotten == {})
      ensures clock.asked <= old(clock.asked) + if host in old(last) then MaxR(0.0, old(last)[host] + old(DelayOf(host)) - old(clock.now)) else 0.0
    {
      var d := DelayOf(host);
      if host in last {
        var now := clock.Read();
        var remaining := last[host] + d - now;
        if remaining > 0.0 {
          clock.Sleep(remaining);
        }
      }
      OtherHosts(host, clock);
      var now := clock.Read();
      Record(host, d, now, clock);
    }
  }

  /** The hosts of the log never get fewer, and the table holds no others. */
  lemma FitsStill(order: seq<string>, last: map<string, real>, log: seq<Grant>, g: Grant, forgotten: set<string>)
    requires InOrder(order, last) && Remembers(log, last, forgotten)
    ensures |HostsOf(log)| <= |HostsOf(log + [g])| && |Without(order, [g.host]) + [g.host]| <= |HostsOf(log + [g])|
  {
    HostsGrow(log, g);
    SubsetSize(HostsOf(log), HostsOf(log + [g]));
    MoveToEnd(order, last, g.host, g.time);
    DistinctFits(Without(order, [g.host]) + [g.host], HostsOf(log + [g]));
  }

  lemma HostsGrow(log: seq<Grant>, g: Grant)
    ensures HostsOf(log + [g]) == HostsOf(log) + {g.host}
  {
    var all := log + [g];
    assert forall h | h in all :: h in log || h == g;
    assert forall h | h in log :: h in all;
    assert g in all;
  }

  lemma SpacedGrows(log: seq<Grant>, g: Grant, last: map<string, real>, forgotten: set<string>)
    requires Remembers(log, last, forgotten)
    requires g.host in last && g.host !in forgotten ==> g.time >= last[g.host] + MaxR(0.0, g.delay)
    ensures Spaced(log + [g], forgotten)
  {
    assert forall i | 0 <= i < |log| :: log[i] in log;
  }

  /** Appending a grant at least its delay after the host's remembered time keeps the log spaced and remembered. */
  lemma LogGrows(log: seq<Grant>, g: Grant, last: map<string, real>, forgotten: set<string>)
    requires Remembers(log, last, forgotten)
    requires g.host in last && g.host !in forgotten ==> g.time >= last[g.host] + MaxR(0.0, g.delay)
    ensures Remembers(log + [g], last[g.host := g.time], forgotten)
    ensures HostsOf(log + [g]) == HostsOf(log) + {g.host}
  {
    HostsGrow(log, g);
    SpacedGrows(log, g, last, forgotten);
    assert forall h | h in log + [g] :: h in log || h == g;
  }
}
