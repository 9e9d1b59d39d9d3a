/** What the parts of the sitemap walk mean: its order, its picks, its tallies and its extrapolation. */
module SitemapLaws {
  import opened Common
  import opened Sitemap

  // ------------------------------------------------------------------ where the walk starts

  /** Without robots sitemaps the walk tries five paths of the site, in this order, and knows that it is guessing. */
  lemma GuessesAre(origin: string)
    ensures Initial(origin, []) == Frontier([],
              [origin + "/sitemap.xml", origin + "/sitemap_index.xml", origin + "/sitemap-index.xml", origin + "/sitemap/sitemap.xml", origin + "/wp-sitemap.xml"],
              AsSet(Guesses(origin)), true)
  {
    assert NoteAll(Frontier([], [], {}, false), []) == Frontier([], [], {}, false);
    assert {} + AsSet(Guesses(origin)) == AsSet(Guesses(origin));
    assert Guesses(origin) ==
           [origin + "/sitemap.xml", origin + "/sitemap_index.xml", origin + "/sitemap-index.xml", origin + "/sitemap/sitemap.xml", origin + "/wp-sitemap.xml"];
  }

  /** Positions in a list, ascending. */
  ghost predicate Ascending(at: seq<nat>) { forall i, j | 0 <= i < j < |at| :: at[i] < at[j] }

  /** The list has it here for the first time. */
  ghost predicate First(urls: seq<string>, k: nat) { k < |urls| && forall j | 0 <= j < k :: urls[j] != urls[k] }

  /** The positions of the URLs that are noted, in order. */
  function NotedAt(f: Frontier, urls: seq<string>): seq<nat> {
    if urls == [] then []
    else
      var n := |urls| - 1;
      if urls[n] in NoteAll(f, urls[..n]).seen then NotedAt(f, urls[..n]) else NotedAt(f, urls[..n]) + [n]
  }

  /** Newly noted URLs wait behind all others, each once, in the order of the list; `at` are their positions in it. */
  ghost predicate Queued(f: Frontier, urls: seq<string>, g: Frontier, at: seq<nat>) {
    && |g.queue| == |f.queue| + |at| && g.queue[..|f.queue|] == f.queue && g.requested == f.requested && g.probing == f.probing
    && (forall i | 0 <= i < |at| :: at[i] < |urls| && g.queue[|f.queue| + i] == urls[at[i]])
    && (forall u :: u in g.seen <==> u in f.seen || u in urls)
    && Ascending(at)
  }

  lemma {:induction false} NotedInOrder(f: Frontier, urls: seq<string>)
    ensures Queued(f, urls, NoteAll(f, urls), NotedAt(f, urls))
  {
    if urls != [] {
      var n := |urls| - 1;
      NotedInOrder(f, urls[..n]);
      assert urls == urls[..n] + [urls[n]];
    }
  }

  /** They are the URLs not seen before, where they first occur. */
  lemma {:induction false} NotedAtFirst(f: Frontier, urls: seq<string>, k: nat)
    ensures k in NotedAt(f, urls) <==> First(urls, k) && urls[k] !in f.seen
  {
    if urls != [] {
      var n := |urls| - 1;
      NotedAtFirst(f, urls[..n], k);
      NotedInOrder(f, urls[..n]);
      assert forall u :: u in urls[..n] <==> exists j :: 0 <= j < n && urls[j] == u;
    }
  }

  // ------------------------------------------------------------------ what a request does to the waiting URLs

  /** The positions of the waiting URLs that are no guesses, in order. */
  function KeptAt(queue: seq<string>, guesses: seq<string>): seq<nat> {
    if queue == [] then []
    else
      var n := |queue| - 1;
      if queue[n] in guesses then KeptAt(queue[..n], guesses) else KeptAt(queue[..n], guesses) + [n]
  }

  /** Dropping the guesses leaves the others, in order. */
  lemma {:induction false} WithoutInOrder(queue: seq<string>, guesses: seq<string>, k: nat)
    ensures var (r, at) := (Without(queue, guesses), KeptAt(queue, guesses));
            |at| == |r| && Ascending(at) && forall i | 0 <= i < |at| :: at[i] < |queue| && r[i] == queue[at[i]]
    ensures k in KeptAt(queue, guesses) <==> k < |queue| && queue[k] !in guesses
  {
    if queue != [] { WithoutInOrder(queue[..|queue| - 1], guesses, k); }
  }

  /** The index's children that are queued: all that fit the file budget, or a spread of as many, but one at least. */
  function Picked(children: seq<string>, room: int): seq<string> {
    if |children| <= room then children else Spread(children, if room < 1 then 1 else room)
  }

  /**
   * The oldest waiting URL is asked for. An index has its picks queued; an index, or entries, found by a guess end the
   * guessing, and the other guesses are dropped. Nothing else changes the queue.
   */
  lemma NextIs(web: Web, origin: string, maxFiles: int, f: Frontier)
    requires f.queue != []
    ensures var (g, r, waiting) := (Next(web, origin, maxFiles, f), web(f.queue[0]), f.(requested := f.requested + [f.queue[0]], queue := f.queue[1..]));
            var noted := if r.Index? then NoteAll(waiting, Picked(r.children, maxFiles - |f.requested| - |f.queue|)) else waiting;
            var found := f.probing && (r.Index? || (r.UrlSet? && r.items != []));
            g == if found then noted.(queue := Without(noted.queue, Guesses(origin)), probing := false) else noted
  {
  }

  /** Picking n of more children takes the i-th at floor(i * |children| / n). */
  lemma SpreadAt<T>(items: seq<T>, k: nat, i: nat) returns (p: nat)
    requires i < k < |items|
    ensures p < |items| && Spread(items, k)[i] == items[p] && p * k <= i * |items| < p * k + k
  {
    p := Stride(|items|, k, i);
    StrideLaws(|items|, k, i);
    QuotientBounds(i * |items|, k);
  }

  // ------------------------------------------------------------------ the tallies

  /** Up to 30 days old, or from the future; up to 90; up to 365; older. */
  predicate AgeIn(b: Bucket, age: int) {
    match b
    case Days30 => age <= 30
    case Days90 => 30 < age <= 90
    case Days365 => 90 < age <= 365
    case Older => 365 < age
  }

  /** How many entries have a date of that age. */
  function Aged(items: seq<Item>, now: int, b: Bucket): nat {
    if items == [] then 0
    else
      var last := items[|items| - 1].lastmod;
      Aged(items[..|items| - 1], now, b) + if last.Some? && AgeIn(b, now - last.value) then 1 else 0
  }

  function HostsOf(items: seq<Item>): multiset<string> {
    if items == [] then multiset{}
    else
      var host := items[|items| - 1].host;
      if host.Some? then HostsOf(items[..|items| - 1]) + multiset{host.value} else HostsOf(items[..|items| - 1])
  }

  lemma CountedOnce(t: Tally, it: Item, now: int, b: Bucket)
    ensures CountEntry(t, it, now).buckets[b] == t.buckets[b] + if it.lastmod.Some? && AgeIn(b, now - it.lastmod.value) then 1 else 0
  {
  }

  lemma {:induction false} TallyOfAges(items: seq<Item>, now: int, b: Bucket)
    ensures TallyOf(items, now).buckets[b] == Aged(items, now, b)
  {
    if items != [] {
      TallyOfAges(items[..|items| - 1], now, b);
      CountedOnce(TallyOf(items[..|items| - 1], now), items[|items| - 1], now, b);
    }
  }

  /** Every entry's host is counted, and a language is listed exactly when some entry has it. */
  lemma {:induction false} TallyOfHosts(items: seq<Item>, now: int, lang: string)
    ensures TallyOf(items, now).hosts == HostsOf(items)
    ensures lang in TallyOf(items, now).languages <==> exists i :: 0 <= i < |items| && lang in items[i].langs
  {
    if items != [] {
      var n := |items| - 1;
      TallyOfHosts(items[..n], now, lang);
      SomeHas(items, lang);
    }
  }

  lemma SomeHas(items: seq<Item>, lang: string)
    requires items != []
    ensures var n := |items| - 1;
            (exists i :: 0 <= i < |items| && lang in items[i].langs) <==>
              (exists i :: 0 <= i < n && lang in items[..n][i].langs) || lang in AsSet(items[n].langs)
  {
    var n := |items| - 1;
    if i :| 0 <= i < n && lang in items[i].langs { assert lang in items[..n][i].langs; }
    if i :| 0 <= i < n && lang in items[..n][i].langs { assert lang in items[i].langs; }
  }

  // ------------------------------------------------------------------ the extrapolation

  lemma OneMore(a: real, m: real)
    ensures a * (m + 1.0) == a * m + a
  {
  }

  lemma {:induction false} AtLeast(counts: seq<nat>, a: real)
    requires forall i | 0 <= i < |counts| :: a <= counts[i] as real
    ensures a * |counts| as real <= Total(counts) as real
  {
    if counts != [] {
      AtLeast(counts[..|counts| - 1], a);
      OneMore(a, (|counts| - 1) as real);
    }
  }

  lemma {:induction false} AtMost(counts: seq<nat>, a: real)
    requires forall i | 0 <= i < |counts| :: counts[i] as real <= a
    ensures Total(counts) as real <= a * |counts| as real
  {
    if counts != [] {
      AtMost(counts[..|counts| - 1], a);
      OneMore(a, (|counts| - 1) as real);
    }
  }

  lemma Averaged(total: real, n: real, lo: real, hi: real, q: real)
    requires n > 0.0 && lo * n <= total <= hi * n && q == total / n
    ensures lo <= q <= hi
  {
    assert q * n == total;
    if q < lo { Product(lo - q, n); Positive(lo - q, n); }
    if q > hi { Positive(q - hi, n); }
  }

  lemma Positive(a: real, b: real)
    requires a > 0.0 && b > 0.0
    ensures a * b > 0.0
  {
  }

  lemma Grows(a: real, b: real, c: real)
    requires a <= b && c >= 0.0
    ensures a * c <= b * c
  {
  }

  lemma Cast(a: nat, b: nat)
    ensures (a * b) as real == a as real * b as real
  {
  }

  lemma FloorBetween(x: real, a: int, b: int)
    requires a as real <= x <= b as real
    ensures a <= x.Floor <= b
  {
  }

  lemma EstimateIs(urlCount: nat, counts: seq<nat>, unread: nat, q: real)
    requires counts != [] && q == Total(counts) as real / |counts| as real
    ensures Estimate(urlCount, counts, unread) == (urlCount as real + q * unread as real).Floor
  {
  }

  lemma EstimateFrom(urlCount: nat, counts: seq<nat>, unread: nat, q: real, a: nat, b: nat)
    requires counts != [] && q == Total(counts) as real / |counts| as real && a as real <= q * unread as real <= b as real
    ensures urlCount + a <= Estimate(urlCount, counts, unread) <= urlCount + b
  {
    EstimateIs(urlCount, counts, unread, q);
    FloorBetween(urlCount as real + q * unread as real, urlCount + a, urlCount + b);
  }

  lemma AverageBetween(counts: seq<nat>, lo: nat, hi: nat, total: real, n: real, q: real)
    requires total == Total(counts) as real && n == |counts| as real && n > 0.0 && q == total / n
    requires forall i | 0 <= i < |counts| :: lo <= counts[i] <= hi
    ensures lo as real <= q <= hi as real
  {
    AtLeast(counts, lo as real);
    AtMost(counts, hi as real);
    Averaged(total, n, lo as real, hi as real, q);
  }

  lemma TimesBetween(q: real, lo: nat, hi: nat, unread: nat)
    requires lo as real <= q <= hi as real
    ensures (lo * unread) as real <= q * unread as real <= (hi * unread) as real
  {
    Grows(lo as real, q, unread as real);
    Grows(q, hi as real, unread as real);
    Cast(lo, unread);
    Cast(hi, unread);
  }

  /** Unread children count as no less than the smallest one read and no more than the largest. */
  lemma EstimateBetween(urlCount: nat, counts: seq<nat>, unread: nat, lo: nat, hi: nat)
    requires counts != [] && forall i | 0 <= i < |counts| :: lo <= counts[i] <= hi
    ensures urlCount + lo * unread <= Estimate(urlCount, counts, unread) <= urlCount + hi * unread
  {
    var q := Total(counts) as real / |counts| as real;
    AverageBetween(counts, lo, hi, Total(counts) as real, |counts| as real, q);
    TimesBetween(q, lo, hi, unread);
    EstimateFrom(urlCount, counts, unread, q, lo * unread, hi * unread);
  }
}
